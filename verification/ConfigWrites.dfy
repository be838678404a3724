/**
 Config writes against token rotations (hermes-plugin-honcho/cli.py): a command reads a config, edits
 it, may install a grant, and writes it, while refreshes rewrite credentials on disk.

 The classes are the code; the state machine interleaves any number of commands with rotations and
 follows one host's credential.  Every step takes the refresh locks, so each is atomic.
 */
module ConfigWrites {
  import opened Wrappers
  import opened ConfigMerge

  /** `$HERMES_HOME/honcho.json`, the default profile's file, and `~/.honcho/config.json`. */
  datatype Path = Local | Profile | Global
  datatype Stored = Parsed(config: Config) | Broken

  const EMPTY := Config(map[], None)

  /** What `_write_config` writes, given what is at the path, if anything. */
  function Outgoing(base: Config, edited: Config, readFrom: Path, to: Path, disk: Option<Config>): Config {
    if readFrom == to then ApplyEdits(base, edited, if disk.Some? then disk.value else EMPTY)
    else if disk.Some? then ApplyEdits(base, edited, Overlay(base, disk.value))
    else edited
  }

  /** What every key of it says: a key the command touched has the edited value; another one has that of
      the file written if that is the file read, or has the key itself, and else that of the file read. */
  lemma OutgoingSays(base: Config, edited: Config, readFrom: Path, to: Path, disk: Option<Config>)
    ensures var out := Outgoing(base, edited, readFrom, to, disk);
      && (forall k :: Get(out.root, k) ==
            if Touched(base.root, edited.root, k) then Get(edited.root, k)
            else if disk.None? then if readFrom == to then Null else Get(base.root, k)
            else Get(if readFrom == to || k in disk.value.root then disk.value.root else base.root, k))
      && (forall h, k :: HostGet(out, h, k) ==
            if TouchedInHost(base, edited, h, k) then HostGet(edited, h, k)
            else if disk.None? then if readFrom == to then Null else HostGet(base, h, k)
            else HostGet(if readFrom == to || k in Block(HostsOf(disk.value), h) then disk.value else base, h, k))
  {
    var own := if disk.Some? then disk.value else EMPTY;
    var met := if readFrom == to then own else Overlay(base, own);
    forall h, k
      ensures var out := ApplyEdits(base, edited, met);
        && Get(out.root, k) == Get(if Touched(base.root, edited.root, k) then edited.root else met.root, k)
        && HostGet(out, h, k) == HostGet(if TouchedInHost(base, edited, h, k) then edited else met, h, k)
        && Get(Overlay(base, own).root, k) == Get(if k in own.root then own.root else base.root, k)
        && HostGet(Overlay(base, own), h, k) == HostGet(if k in Block(HostsOf(own), h) then own else base, h, k)
        && (!Touched(base.root, edited.root, k) ==> Get(edited.root, k) == Get(base.root, k))
        && (!TouchedInHost(base, edited, h, k) ==> HostGet(edited, h, k) == HostGet(base, h, k))
    {
      MergedKey(base, edited, met, h, k);
      OverlaidKey(base, own, h, k);
      TouchedIff(base, edited, h, k);
    }
  }

  function WithKey(c: Config, h: string, k: Key, v: Value): Config {
    c.(hosts := Some(HostsOf(c)[h := Block(HostsOf(c), h)[k := v]]))
  }

  function WithCred(c: Config, h: string, apiKey: Value, oauth: Value): Config {
    c.(hosts := Some(HostsOf(c)[h := Block(HostsOf(c), h)[ApiKey := apiKey][OAuth := oauth]]))
  }

  class ReadConfig {
    var data: Config
    var snapshot: Config
    var path: Path

    /** `_ReadConfig`: as read it has no edits, so that writing it leaves any file as it is. */
    constructor (raw: Config, readFrom: Path)
      ensures data == raw && snapshot == raw && path == readFrom
      ensures forall h, k :: !TouchedInHost(snapshot, data, h, k) && !Touched(snapshot.root, data.root, k)
      ensures forall disk :: Same(Outgoing(snapshot, data, path, path, Some(disk)), disk)
    {
      data, snapshot, path := raw, raw, readFrom;
      new;
      forall disk ensures Same(Outgoing(raw, raw, readFrom, readFrom, Some(disk)), disk) {
        NoEditsKeepDisk(raw, disk);
      }
    }

    /** `_apply_grant_to_host`: the grant is no edit of the command, the peer name is one. */
    method ApplyGrantToHost(h: string, apiKey: Value, oauth: Value, consentPeer: Option<Value>)
      requires apiKey != Null && oauth != Null
      modifies this`data, this`snapshot
      ensures HostGet(data, h, ApiKey) == apiKey == HostGet(snapshot, h, ApiKey)
      ensures HostGet(data, h, OAuth) == oauth == HostGet(snapshot, h, OAuth)
      ensures !TouchedInHost(snapshot, data, h, ApiKey) && !TouchedInHost(snapshot, data, h, OAuth)
      ensures forall x, k :: x != h ==> HostGet(data, x, k) == HostGet(old(data), x, k)
      ensures consentPeer.Some? ==> HostGet(data, h, Other("peerName")) == consentPeer.value
      ensures forall k :: k != ApiKey && k != OAuth && (consentPeer.Some? ==> k != Other("peerName")) ==>
        HostGet(data, h, k) == HostGet(old(data), h, k)
      ensures snapshot == WithCred(old(snapshot), h, apiKey, oauth)
      ensures data == if consentPeer.Some?
        then WithKey(WithCred(old(data), h, apiKey, oauth), h, Other("peerName"), consentPeer.value)
        else WithCred(old(data), h, apiKey, oauth)
    {
      data := WithCred(data, h, apiKey, oauth);
      snapshot := WithCred(snapshot, h, apiKey, oauth);
      if consentPeer.Some? {
        data := WithKey(data, h, Other("peerName"), consentPeer.value);
      }
    }
  }

  class ConfigFiles {
    var files: map<Path, Stored>

    constructor (found: map<Path, Stored>)
      ensures files == found
    {
      files := found;
    }

    /** `_write_config`.  A file that is there but does not parse is never overwritten; else every edit of
        the command is in the file afterwards, and what it did not touch is kept. */
    method WriteConfig(cfg: ReadConfig, path: Path) returns (done: bool)
      modifies this`files, cfg`snapshot, cfg`path
      ensures done <==> !(path in old(files) && old(files)[path].Broken?)
      ensures !done ==> files == old(files) && cfg.snapshot == old(cfg.snapshot) && cfg.path == old(cfg.path)
      ensures done ==> cfg.snapshot == cfg.data && cfg.path == path
      ensures done && path !in old(files) ==>
        files == old(files)[path := Parsed(Outgoing(old(cfg.snapshot), cfg.data, old(cfg.path), path, None))]
      ensures done && path in old(files) ==>
        files == old(files)[path := Parsed(
          Outgoing(old(cfg.snapshot), cfg.data, old(cfg.path), path, Some(old(files)[path].config)))]
      ensures done ==> path in files && files[path].Parsed? && files - {path} == old(files) - {path}
      ensures done ==> forall k :: (Get(files[path].config.root, k) ==
        if Touched(old(cfg.snapshot).root, cfg.data.root, k) then Get(cfg.data.root, k)
        else if path !in old(files) then if old(cfg.path) == path then Null else Get(old(cfg.snapshot).root, k)
        else if old(cfg.path) == path || k in old(files)[path].config.root then Get(old(files)[path].config.root, k)
        else Get(old(cfg.snapshot).root, k))
      ensures done ==> forall h, k :: (HostGet(files[path].config, h, k) ==
        if TouchedInHost(old(cfg.snapshot), cfg.data, h, k) then HostGet(cfg.data, h, k)
        else if path !in old(files) then if old(cfg.path) == path then Null else HostGet(old(cfg.snapshot), h, k)
        else if old(cfg.path) == path || k in Block(HostsOf(old(files)[path].config), h) then
          HostGet(old(files)[path].config, h, k)
        else HostGet(old(cfg.snapshot), h, k))
      ensures done && path !in old(files) && old(cfg.path) != path ==> files[path] == Parsed(cfg.data)
    {
      if path in files && files[path].Broken? {
        return false;
      }
      var disk := if path in files then files[path].config else EMPTY;
      var out := cfg.data;
      if cfg.path == path {
        out := MergeEdits(cfg.snapshot, cfg.data, disk);
      } else if path in files {
        var met := OverlayLocal(cfg.snapshot, disk);
        out := MergeEdits(cfg.snapshot, cfg.data, met);
      }
      OutgoingSays(cfg.snapshot, cfg.data, cfg.path, path, if path in files then Some(files[path].config) else None);
      files := files[path := Parsed(out)];
      cfg.snapshot, cfg.path := cfg.data, path;
      done := true;
    }
  }

  // ----- One host's credential -----

  datatype Cred = Cred(apiKey: Value, oauth: Value)

  /** A command's config, the file it read, and its home's own file, which it writes. */
  datatype Command = Command(data: Config, snapshot: Config, path: Path, to: Path)

  const NOTHING := Cred(Null, Null)

  /** `newest` is the last credential a login or a rotation stored for the host that is followed;
      `bound` are the file and host of each running process's config, resolved once. */
  datatype State = State(files: map<Path, Config>, bound: set<(Path, string)>, commands: map<nat, Command>, newest: Cred)

  /** A home is named by its own file: `Local`, whose config is followed, or the default profile's. */
  datatype Action =
    | Bind(home: Path, host: string)
    | Unbind(p: Path, host: string)
    | Rotate(p: Path, host: string, cred: Cred)   // a refresh or login of a process bound to `p`
    | Read(i: nat, home: Path)
    | Edit(i: nat, data: Config)
    | Grant(i: nat, host: string, cred: Cred)     // a login inside the command, into its home's file
    | Write(i: nat)

  /** `resolve_config_path`, as a process of the home resolves it. */
  function ResolveFor(files: map<Path, Config>, home: Path): Path {
    if home in files then home else if Profile in files then Profile else Global
  }

  function Resolve(files: map<Path, Config>): Path {
    ResolveFor(files, Local)
  }

  function At(files: map<Path, Config>, p: Path): Config {
    if p in files then files[p] else EMPTY
  }

  function CredIn(c: Config, h: string): Cred {
    Cred(HostGet(c, h, ApiKey), HostGet(c, h, OAuth))
  }

  /** The credential of `h` that a reader of the config gets. */
  function InForce(s: State, h: string): Cred {
    CredIn(At(s.files, Resolve(s.files)), h)
  }

  /** The command edits neither half of the host's credential. */
  predicate LeavesCred(c: Command, h: string) {
    !TouchedInHost(c.snapshot, c.data, h, ApiKey) && !TouchedInHost(c.snapshot, c.data, h, OAuth)
  }

  function Store(c: Config, h: string, cred: Cred): Config {
    WithCred(c, h, cred.apiKey, cred.oauth)
  }

  predicate Whole(cred: Cred) {
    cred.apiKey != Null && cred.oauth != Null
  }

  predicate Enabled(s: State, h: string, a: Action) {
    match a
    case Bind(home, _) => !home.Global?
    case Unbind(_, _) => true
    case Rotate(p, host, cred) => (p, host) in s.bound && Whole(cred)
    case Read(_, home) => !home.Global?
    case Edit(i, data) => i in s.commands && LeavesCred(s.commands[i].(data := data), h)
    case Grant(i, _, cred) => i in s.commands && Whole(cred)
    case Write(i) => i in s.commands
  }

  function WrittenBy(s: State, i: nat): Config
    requires i in s.commands
  {
    var c := s.commands[i];
    Outgoing(c.snapshot, c.data, c.path, c.to, if c.to in s.files then Some(s.files[c.to]) else None)
  }

  function Granted(c: Command, host: string, cred: Cred): Command {
    c.(data := Store(c.data, host, cred), snapshot := Store(c.snapshot, host, cred))
  }

  function Next(s: State, h: string, a: Action): State
    requires Enabled(s, h, a)
  {
    match a
    case Bind(home, host) => s.(bound := s.bound + {(ResolveFor(s.files, home), host)})
    case Unbind(p, host) => s.(bound := s.bound - {(p, host)})
    case Rotate(p, host, cred) =>
      s.(files := s.files[p := Store(At(s.files, p), host, cred)], newest := if host == h then cred else s.newest)
    case Read(i, home) =>
      var p := ResolveFor(s.files, home);
      s.(commands := s.commands[i := Command(At(s.files, p), At(s.files, p), p, home)])
    case Edit(i, data) => s.(commands := s.commands[i := s.commands[i].(data := data)])
    case Grant(i, host, cred) =>
      var to := s.commands[i].to;
      s.(files := s.files[to := Store(At(s.files, to), host, cred)],
         newest := if host == h then cred else s.newest,
         commands := s.commands[i := Granted(s.commands[i], host, cred)])
    case Write(i) =>
      var c := s.commands[i];
      s.(files := s.files[c.to := WrittenBy(s, i)], commands := s.commands[i := Command(c.data, c.data, c.to, c.to)])
  }

  /** No command edits the host's credential, each writes its home's file, and processes are bound to
      files that are there, or to the last one to be tried. */
  ghost predicate Sound(s: State, h: string) {
    && (forall i :: i in s.commands ==> LeavesCred(s.commands[i], h) && !s.commands[i].to.Global?)
    && (forall b :: b in s.bound ==> b.0 in s.files || b.0.Global?)
  }

  /** One half of a credential. */
  function Half(cred: Cred, k: Key): Value
    requires k.ApiKey? || k.OAuth?
  {
    if k.ApiKey? then cred.apiKey else cred.oauth
  }

  /** What is written there is not what a reader gets: the followed home has its own file. */
  predicate Hidden(s: State, to: Path) {
    to != Local && Local in s.files
  }

  /** The file a write takes one half of the host's credential from: the one it writes if the command
      read that or it has the half, otherwise what the command read. */
  function Taken(s: State, h: string, i: nat, k: Key): Config
    requires i in s.commands
  {
    var c := s.commands[i];
    if c.path == c.to || k in Block(HostsOf(At(s.files, c.to)), h) then At(s.files, c.to) else c.snapshot
  }

  /** Both halves come from where the newest ones are. */
  predicate Carries(s: State, h: string, i: nat)
    requires i in s.commands
  {
    && HostGet(Taken(s, h, i, ApiKey), h, ApiKey) == Half(s.newest, ApiKey)
    && HostGet(Taken(s, h, i, OAuth), h, OAuth) == Half(s.newest, OAuth)
  }

  /** Whether the newest credential is in force after the step. */
  predicate KeepsForce(s: State, h: string, a: Action)
    requires Enabled(s, h, a)
  {
    match a
    case Rotate(p, host, cred) =>
      if host == h then p == Resolve(s.files) || InForce(s, h) == cred else InForce(s, h) == s.newest
    case Grant(i, host, cred) =>
      var to := s.commands[i].to;
      if Hidden(s, to) then InForce(s, h) == (if host == h then cred else s.newest)
      else host == h || (if to in s.files then InForce(s, h) else NOTHING) == s.newest
    case Write(i) => if Hidden(s, s.commands[i].to) then InForce(s, h) == s.newest else Carries(s, h, i)
    case _ => InForce(s, h) == s.newest
  }

  /** Where a write takes one half of an unedited credential from. */
  lemma OutgoingHalf(s: State, h: string, i: nat, k: Key)
    requires i in s.commands && !TouchedInHost(s.commands[i].snapshot, s.commands[i].data, h, k)
    ensures HostGet(WrittenBy(s, i), h, k) == HostGet(Taken(s, h, i, k), h, k)
  {
    var c := s.commands[i];
    OutgoingSays(c.snapshot, c.data, c.path, c.to, if c.to in s.files then Some(s.files[c.to]) else None);
  }

  lemma StoredCred(c: Config, host: string, cred: Cred, h: string)
    ensures CredIn(Store(c, host, cred), h) == if host == h then cred else CredIn(c, h)
  {}

  lemma GrantIsNoEdit(c: Command, host: string, cred: Cred, h: string)
    requires LeavesCred(c, h)
    ensures LeavesCred(Granted(c, host, cred), h)
  {}

  lemma StepKeepsSound(s: State, h: string, a: Action)
    requires Sound(s, h) && Enabled(s, h, a)
    ensures Sound(Next(s, h, a), h)
  {
    if a.Grant? {
      GrantIsNoEdit(s.commands[a.i], a.host, a.cred, h);
    }
  }

  /** Step by step, and from any state: when the newest credential is in force afterwards. */
  lemma KeepsForceIff(s: State, h: string, a: Action)
    requires Sound(s, h) && Enabled(s, h, a)
    ensures InForce(Next(s, h, a), h) == Next(s, h, a).newest <==> KeepsForce(s, h, a)
  {
    match a
    case Rotate(p, host, cred) => RotateKeepsForceIff(s, h, p, host, cred);
    case Grant(i, host, cred) => StoredCred(At(s.files, s.commands[i].to), host, cred, h);
    case Write(i) =>
      OutgoingHalf(s, h, i, ApiKey);
      OutgoingHalf(s, h, i, OAuth);
    case _ =>
  }

  lemma RotateKeepsForceIff(s: State, h: string, p: Path, host: string, cred: Cred)
    requires Sound(s, h) && Enabled(s, h, Rotate(p, host, cred))
    ensures Resolve(Next(s, h, Rotate(p, host, cred)).files) == Resolve(s.files)
    ensures var u := Next(s, h, Rotate(p, host, cred)); InForce(u, h) == u.newest <==> KeepsForce(s, h, Rotate(p, host, cred))
  {
    assert p in s.files || p.Global?;
    StoredCred(At(s.files, p), host, cred, h);
  }

  /** A written command has no edits left: writing it again leaves every key as it is. */
  lemma SecondWriteChangesNothing(s: State, h: string, i: nat)
    requires i in s.commands
    ensures var u := Next(s, h, Write(i));
      Enabled(u, h, Write(i)) && Same(WrittenBy(u, i), WrittenBy(s, i)) && u.files == s.files[s.commands[i].to := WrittenBy(s, i)]
  {
    var u := Next(s, h, Write(i));
    NoEditsKeepDisk(s.commands[i].data, WrittenBy(s, i));
  }

  // ----- Processes bound to a file -----

  /** Every process that refreshes `h` is bound to the file in force. */
  ghost predicate Aligned(s: State, h: string) {
    forall p :: (p, h) in s.bound ==> p == Resolve(s.files)
  }

  /** That is what it takes for whatever they store to be in force. */
  lemma AlignedIff(s: State, h: string)
    requires Sound(s, h)
    ensures Aligned(s, h) <==>
      forall p, cred :: Enabled(s, h, Rotate(p, h, cred)) ==> KeepsForce(s, h, Rotate(p, h, cred))
  {
    if !Aligned(s, h) {
      var p :| (p, h) in s.bound && p != Resolve(s.files);
      var cred := Cred(Val(if InForce(s, h).apiKey == Val(0) then 1 else 0), Val(0));
      assert Enabled(s, h, Rotate(p, h, cred)) && !KeepsForce(s, h, Rotate(p, h, cred));
    }
  }

  /** Whether the step puts another file in force. */
  predicate Creates(s: State, a: Action) {
    match a
    case Grant(i, _, _) => i in s.commands && s.commands[i].to !in s.files && !Hidden(s, s.commands[i].to)
    case Write(i) => i in s.commands && s.commands[i].to !in s.files && !Hidden(s, s.commands[i].to)
    case _ => false
  }

  /** Processes stay aligned exactly when no file is put in force while one refreshes `h`, and none of
      another home begins to while the followed home has a file of its own. */
  ghost predicate StaysAligned(s: State, h: string, a: Action) {
    && (Creates(s, a) ==> forall p :: (p, h) !in s.bound)
    && (a.Bind? && a.host == h ==> ResolveFor(s.files, a.home) == Resolve(s.files))
  }

  lemma StaysAlignedIff(s: State, h: string, a: Action)
    requires Sound(s, h) && Aligned(s, h) && Enabled(s, h, a)
    ensures Aligned(Next(s, h, a), h) <==> StaysAligned(s, h, a)
  {
    var u := Next(s, h, a);
    if a.Rotate? {
      RotateKeepsForceIff(s, h, a.p, a.host, a.cred);
    } else if a.Bind? {
      assert a.host == h ==> (ResolveFor(s.files, a.home), h) in u.bound;
    } else if Creates(s, a) {
      assert Resolve(u.files) == s.commands[a.i].to && Resolve(u.files) !in s.files;
    }
  }

  // ----- Writes, from a state with the newest credential in force -----

  /** Half a credential the home's file has itself, or that the seed does not have either. */
  predicate OwnHalf(own: Config, seed: Config, h: string, k: Key) {
    k in Block(HostsOf(own), h) || HostGet(seed, h, k) == Null
  }

  /** The guard of the branch a write takes: onto the file the command read; over another file of the
      home that has both halves itself, or whose missing ones the seed lacks too; or as a new file, the
      seed still holding what was read from it. */
  predicate Safe(s: State, h: string, i: nat)
    requires i in s.commands
  {
    var c := s.commands[i];
    if c.to in s.files then
      Hidden(s, c.to) || c.path == c.to
      || (OwnHalf(s.files[c.to], c.snapshot, h, ApiKey) && OwnHalf(s.files[c.to], c.snapshot, h, OAuth))
    else
      Hidden(s, c.to) || (if c.path == c.to then InForce(s, h) == NOTHING else InForce(s, h) == CredIn(c.snapshot, h))
  }

  lemma OverwriteIsSafeIff(s: State, h: string, i: nat)
    requires InForce(s, h) == s.newest && i in s.commands
    requires s.commands[i].to == Resolve(s.files) && Resolve(s.files) in s.files
    ensures Carries(s, h, i) <==> Safe(s, h, i)
  {}

  lemma NewFileIsSafeIff(s: State, h: string, i: nat)
    requires InForce(s, h) == s.newest && i in s.commands && s.commands[i].to !in s.files
    requires !Hidden(s, s.commands[i].to)
    ensures Carries(s, h, i) <==> Safe(s, h, i)
  {}

  /** With the newest credential in force, a write keeps it there exactly when its branch is safe. */
  lemma WriteKeepsNewestIff(s: State, h: string, i: nat)
    requires Sound(s, h) && InForce(s, h) == s.newest && i in s.commands
    ensures InForce(Next(s, h, Write(i)), h) == s.newest <==> Safe(s, h, i)
  {
    KeepsForceIff(s, h, Write(i));
    if s.commands[i].to == Resolve(s.files) && Resolve(s.files) in s.files {
      OverwriteIsSafeIff(s, h, i);
    } else if s.commands[i].to !in s.files && !Hidden(s, s.commands[i].to) {
      NewFileIsSafeIff(s, h, i);
    }
  }

  /** A login for another host keeps it there exactly when it goes into a file that is there already, or
      into one that is not in force, or there is no credential of this host to hide. */
  lemma OtherGrantKeepsNewestIff(s: State, h: string, i: nat, host: string, cred: Cred)
    requires Sound(s, h) && InForce(s, h) == s.newest && host != h && Enabled(s, h, Grant(i, host, cred))
    ensures InForce(Next(s, h, Grant(i, host, cred)), h) == s.newest <==>
      !Creates(s, Grant(i, host, cred)) || s.newest == NOTHING
  {
    KeepsForceIff(s, h, Grant(i, host, cred));
  }

  // ----- Runs -----

  ghost predicate IsRun(s: State, h: string, actions: seq<Action>)
    decreases |actions|
  {
    actions == [] || (Enabled(s, h, actions[0]) && IsRun(Next(s, h, actions[0]), h, actions[1..]))
  }

  function After(s: State, h: string, actions: seq<Action>): State
    requires IsRun(s, h, actions)
    decreases |actions|
  {
    if actions == [] then s else After(Next(s, h, actions[0]), h, actions[1..])
  }

  /** What can be checked before a step: processes stay aligned; a write is safe; and a login goes into
      the file in force, or makes one with nothing to hide. */
  ghost predicate Checked(s: State, h: string, a: Action) {
    && StaysAligned(s, h, a)
    && (a.Write? && a.i in s.commands ==> Safe(s, h, a.i))
    && (a.Grant? && a.i in s.commands ==>
          if a.host == h then !Hidden(s, s.commands[a.i].to) else !Creates(s, a) || s.newest == NOTHING)
  }

  ghost predicate IsCheckedRun(s: State, h: string, actions: seq<Action>)
    decreases |actions|
  {
    actions == [] || (
      && Enabled(s, h, actions[0]) && Checked(s, h, actions[0])
      && IsCheckedRun(Next(s, h, actions[0]), h, actions[1..]))
  }

  function Initial(files: map<Path, Config>, h: string): State {
    State(files, {}, map[], CredIn(At(files, Resolve(files)), h))
  }

  lemma {:induction false} RunKeepsSound(s: State, h: string, actions: seq<Action>)
    requires Sound(s, h) && IsRun(s, h, actions)
    ensures Sound(After(s, h, actions), h)
    decreases |actions|
  {
    if actions != [] {
      StepKeepsSound(s, h, actions[0]);
      RunKeepsSound(Next(s, h, actions[0]), h, actions[1..]);
    }
  }

  /** With processes aligned and the newest credential in force, a checked step leaves it so. */
  lemma CheckedStep(s: State, h: string, a: Action)
    requires Sound(s, h) && Aligned(s, h) && InForce(s, h) == s.newest && Enabled(s, h, a) && Checked(s, h, a)
    ensures var u := Next(s, h, a); Sound(u, h) && Aligned(u, h) && InForce(u, h) == u.newest
  {
    StepKeepsSound(s, h, a);
    StaysAlignedIff(s, h, a);
    KeepsForceIff(s, h, a);
    if a.Write? {
      WriteKeepsNewestIff(s, h, a.i);
    } else if a.Grant? && a.host != h {
      OtherGrantKeepsNewestIff(s, h, a.i, a.host, a.cred);
    }
  }

  lemma {:induction false} CheckedRunKeepsNewest(s: State, h: string, actions: seq<Action>)
    requires Sound(s, h) && Aligned(s, h) && InForce(s, h) == s.newest && IsCheckedRun(s, h, actions)
    ensures IsRun(s, h, actions)
    ensures InForce(After(s, h, actions), h) == After(s, h, actions).newest
    decreases |actions|
  {
    if actions != [] {
      CheckedStep(s, h, actions[0]);
      CheckedRunKeepsNewest(Next(s, h, actions[0]), h, actions[1..]);
    }
  }

  /** However commands, logins and rotations of all hosts, homes and bound processes interleave, in
      checked steps the config in force ends with the host's newest grant. */
  lemma NoWriteUndoesARotation(files: map<Path, Config>, h: string, actions: seq<Action>)
    requires IsCheckedRun(Initial(files, h), h, actions)
    ensures IsRun(Initial(files, h), h, actions)
    ensures InForce(After(Initial(files, h), h, actions), h) == After(Initial(files, h), h, actions).newest
  {
    CheckedRunKeepsNewest(Initial(files, h), h, actions);
  }

  /** After any run at all, a write into the file in force, or of a new one, leaves the newest grant in
      force exactly when it takes both halves from where they are. */
  lemma AnyWriteIff(files: map<Path, Config>, h: string, actions: seq<Action>, i: nat)
    requires IsRun(Initial(files, h), h, actions) && i in After(Initial(files, h), h, actions).commands
    requires !Hidden(After(Initial(files, h), h, actions), After(Initial(files, h), h, actions).commands[i].to)
    ensures var s := After(Initial(files, h), h, actions);
      InForce(Next(s, h, Write(i)), h) == s.newest <==> Carries(s, h, i)
  {
    RunKeepsSound(Initial(files, h), h, actions);
    KeepsForceIff(After(Initial(files, h), h, actions), h, Write(i));
  }

  /** After any run at all, what a process bound to `p` stores for the host is in force exactly when `p`
      is the file in force, or that one has the same. */
  lemma AnyRotationIff(files: map<Path, Config>, h: string, actions: seq<Action>, p: Path, cred: Cred)
    requires IsRun(Initial(files, h), h, actions) && Enabled(After(Initial(files, h), h, actions), h, Rotate(p, h, cred))
    ensures var s := After(Initial(files, h), h, actions);
      InForce(Next(s, h, Rotate(p, h, cred)), h) == cred <==> p == Resolve(s.files) || InForce(s, h) == cred
  {
    RunKeepsSound(Initial(files, h), h, actions);
    KeepsForceIff(After(Initial(files, h), h, actions), h, Rotate(p, h, cred));
  }

  /** Once a command has read or written its home's file, its writes are safe whatever happens in
      between. */
  lemma LaterWritesAreSafe(s: State, h: string, i: nat, a: Action)
    requires i in s.commands && Enabled(s, h, a) && (a.Read? ==> a.i != i)
    requires s.commands[i].path == s.commands[i].to && s.commands[i].to in s.files
    ensures var u := Next(s, h, a);
      i in u.commands && Safe(u, h, i) && u.commands[i].path == u.commands[i].to && u.commands[i].to in u.files
  {}

  /** So is a write after the command's own login for the host. */
  lemma WriteOverGrantIsSafe(s: State, h: string, i: nat, cred: Cred)
    requires i in s.commands && Enabled(s, h, Grant(i, h, cred))
    ensures Safe(Next(s, h, Grant(i, h, cred)), h, i) && Carries(Next(s, h, Grant(i, h, cred)), h, i)
  {}

  // ----- The first write after a read from a seed file -----

  /** The step stores no credential of `h`. */
  predicate StoresNothing(h: string, a: Action) {
    (a.Rotate? || a.Grant?) ==> a.host != h
  }

  /** The command only edits, no new file appears, and no credential comes a second time. */
  ghost predicate SeedOnly(s: State, h: string, i: nat, first: Cred, actions: seq<Action>)
    decreases |actions|
  {
    actions == [] || (
      && Enabled(s, h, actions[0])
      && (actions[0].Read? ==> actions[0].i != i) && !actions[0].Grant? && !actions[0].Write?
      && (actions[0].Rotate? && actions[0].host == h ==> actions[0].cred != first)
      && SeedOnly(Next(s, h, actions[0]), h, i, first, actions[1..]))
  }

  /** Command `i` is about to write its home's first file, and that will be in force. */
  predicate Seeded(s: State, i: nat) {
    i in s.commands && Local !in s.files && s.commands[i].to !in s.files && s.commands[i].path != s.commands[i].to
  }

  lemma SeedOnlyStep(s: State, h: string, i: nat, a: Action)
    requires Sound(s, h) && Seeded(s, i) && Enabled(s, h, a)
    requires (a.Read? ==> a.i != i) && !a.Grant? && !a.Write?
    ensures Seeded(Next(s, h, a), i) && Next(s, h, a).commands[i].snapshot == s.commands[i].snapshot
  {
    if a.Rotate? {
      assert a.p in s.files || a.p.Global?;
      assert !s.commands[i].to.Global?;
    }
  }

  lemma {:induction false} SeedOnlyRun(s: State, h: string, i: nat, first: Cred, actions: seq<Action>)
    requires SeedOnly(s, h, i, first, actions) && Sound(s, h) && Seeded(s, i)
    ensures IsRun(s, h, actions)
    ensures var u := After(s, h, actions);
      && Seeded(u, i) && Sound(u, h) && u.commands[i].snapshot == s.commands[i].snapshot
      && ((forall k :: 0 <= k < |actions| ==> StoresNothing(h, actions[k])) ==> u.newest == s.newest)
      && (s.newest != first || (exists k :: 0 <= k < |actions| && !StoresNothing(h, actions[k])) ==> u.newest != first)
    decreases |actions|
  {
    if actions != [] {
      StepKeepsSound(s, h, actions[0]);
      SeedOnlyStep(s, h, i, actions[0]);
      SeedOnlyRun(Next(s, h, actions[0]), h, i, first, actions[1..]);
      assert forall k :: 0 < k < |actions| ==> actions[k] == actions[1..][k - 1];
      assert forall k :: 0 <= k < |actions| - 1 ==> actions[1..][k] == actions[k + 1];
    }
  }

  /** A command that read a seed file writes the newest grant exactly when no login and no rotation, of
      a process bound to whichever file, stored one for the host since it read. */
  lemma FirstWriteIff(s: State, h: string, i: nat, home: Path, actions: seq<Action>)
    requires Sound(s, h) && Local !in s.files && home !in s.files && !home.Global? && InForce(s, h) == s.newest
    requires SeedOnly(Next(s, h, Read(i, home)), h, i, s.newest, actions)
    ensures IsRun(Next(s, h, Read(i, home)), h, actions)
    ensures var u := After(Next(s, h, Read(i, home)), h, actions);
      i in u.commands &&
      (InForce(Next(u, h, Write(i)), h) == u.newest <==> forall k :: 0 <= k < |actions| ==> StoresNothing(h, actions[k]))
  {
    var r := Next(s, h, Read(i, home));
    StepKeepsSound(s, h, Read(i, home));
    SeedOnlyRun(r, h, i, s.newest, actions);
    KeepsForceIff(After(r, h, actions), h, Write(i));
  }

  // ----- What can go wrong -----

  lemma OneMore(s: State, h: string, a: Action, rest: seq<Action>)
    requires Enabled(s, h, a) && IsRun(Next(s, h, a), h, rest)
    ensures IsRun(s, h, [a] + rest) && After(s, h, [a] + rest) == After(Next(s, h, a), h, rest)
  {
    assert ([a] + rest)[1..] == rest;
  }

  /** A process refreshes `h` from the seed file, and a command has read it. */
  function SeedRead(h: string, before: Cred): State {
    var seed := Store(EMPTY, h, before);
    State(map[Global := seed], {(Global, h)}, map[0 := Command(seed, seed, Global, Local)], before)
  }

  lemma SeedReadRun(h: string, before: Cred, rest: seq<Action>)
    requires IsRun(SeedRead(h, before), h, rest)
    ensures var s := Initial(map[Global := Store(EMPTY, h, before)], h);
      var run := [Bind(Local, h)] + ([Read(0, Local)] + rest);
      IsRun(s, h, run) && After(s, h, run) == After(SeedRead(h, before), h, rest)
  {
    var s := Initial(map[Global := Store(EMPTY, h, before)], h);
    StoredCred(EMPTY, h, before, h);
    var s1 := Next(s, h, Bind(Local, h));
    assert Next(s1, h, Read(0, Local)) == SeedRead(h, before);
    OneMore(s1, h, Read(0, Local), rest);
    OneMore(s, h, Bind(Local, h), [Read(0, Local)] + rest);
  }

  /** The first write after a read from a seed file brings back a credential that was rotated in
      between. */
  lemma SeedRotationIsUndone(h: string, before: Cred, after: Cred)
    requires before != after && Whole(after)
    ensures var s := SeedRead(h, before); var run := [Rotate(Global, h, after)] + [];
      && IsRun(s, h, run)
      && var u := After(s, h, run);
        && 0 in u.commands && !Safe(u, h, 0)
        && InForce(Next(u, h, Write(0)), h) == before && u.newest == after
  {
    var s := SeedRead(h, before);
    var u := Next(s, h, Rotate(Global, h, after));
    OneMore(s, h, Rotate(Global, h, after), []);
    StoredCred(EMPTY, h, before, h);
    StoredCred(At(s.files, Global), h, after, h);
    OutgoingHalf(u, h, 0, ApiKey);
    OutgoingHalf(u, h, 0, OAuth);
  }

  /** A process that goes on refreshing the seed file stores its tokens where nobody reads them once a
      command has written the home's first file, safely as that was. */
  lemma BoundRefreshIsHidden(h: string, before: Cred, after: Cred)
    requires before != after && Whole(after)
    ensures var s := SeedRead(h, before); var run := [Write(0)] + ([Rotate(Global, h, after)] + []);
      && Safe(s, h, 0) && Aligned(s, h) && !StaysAligned(s, h, Write(0))
      && IsRun(s, h, run)
      && InForce(After(s, h, run), h) == before && After(s, h, run).newest == after
  {
    var s := SeedRead(h, before);
    StoredCred(EMPTY, h, before, h);
    OutgoingHalf(s, h, 0, ApiKey);
    OutgoingHalf(s, h, 0, OAuth);
    var s1 := Next(s, h, Write(0));
    var u := Next(s1, h, Rotate(Global, h, after));
    OneMore(s1, h, Rotate(Global, h, after), []);
    OneMore(s, h, Write(0), [Rotate(Global, h, after)] + []);
    assert (Global, h) in s.bound;
    assert InForce(u, h) == InForce(s1, h) == before;
  }

  lemma SeedComesBack(s: State, h: string, other: string, cred: Cred, granted: Cred)
    requires h != other && 0 in s.commands && Local in s.files && s.files[Local] == Store(EMPTY, other, granted)
    requires var seed := Store(EMPTY, h, cred); s.commands[0] == Granted(Command(seed, seed, Global, Local), other, granted)
    ensures InForce(s, h) == NOTHING && InForce(Next(s, h, Write(0)), h) == cred
  {
    var seed := Store(EMPTY, h, cred);
    StoredCred(EMPTY, h, cred, h);
    StoredCred(EMPTY, other, granted, h);
    StoredCred(seed, other, granted, h);
    GrantIsNoEdit(Command(seed, seed, Global, Local), other, granted, h);
    OutgoingHalf(s, h, 0, ApiKey);
    OutgoingHalf(s, h, 0, OAuth);
  }

  /** Without any write, the wizard's login for another host hides the seed's credential behind a new
      local file; the wizard's own write brings it back. */
  lemma OtherLoginHidesTheSeed(h: string, other: string, cred: Cred, granted: Cred)
    requires h != other && Whole(cred) && Whole(granted)
    ensures var s := SeedRead(h, cred); var run := [Grant(0, other, granted)] + [];
      && IsRun(s, h, run)
      && var u := After(s, h, run);
        && 0 in u.commands && u.newest == cred
        && InForce(u, h) == NOTHING && InForce(Next(u, h, Write(0)), h) == cred
  {
    var s := SeedRead(h, cred);
    var u := Next(s, h, Grant(0, other, granted));
    OneMore(s, h, Grant(0, other, granted), []);
    SeedComesBack(u, h, other, cred, granted);
  }

  /** With a rotation before that login, the wizard's write brings the old credential back. */
  lemma OtherLoginUndoesARotation(h: string, other: string, before: Cred, after: Cred, granted: Cred)
    requires h != other && before != after && Whole(before) && Whole(after) && Whole(granted)
    ensures var s := SeedRead(h, before);
      var run := [Rotate(Global, h, after)] + ([Grant(0, other, granted)] + []);
      && IsRun(s, h, run)
      && var u := After(s, h, run);
        0 in u.commands && u.newest == after && InForce(Next(u, h, Write(0)), h) == before
  {
    var s := SeedRead(h, before);
    var s1 := Next(s, h, Rotate(Global, h, after));
    var u := Next(s1, h, Grant(0, other, granted));
    OneMore(s1, h, Grant(0, other, granted), []);
    OneMore(s, h, Rotate(Global, h, after), [Grant(0, other, granted)] + []);
    SeedComesBack(u, h, other, before, granted);
  }
}
