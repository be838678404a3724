/**
 Refresh-token rotation (hermes-plugin-honcho/oauth.py): threads of several processes share one
 config file, and refresh, force-refresh, log in and rewrite it under an in-process lock and a
 machine-wide file lock that is only best effort.

 The token endpoint follows section 6 of RFC 6749 with single-use refresh tokens: a grant has one
 current token, and exchanging it makes the next one current.  A failure that is not a rejection is
 taken as not applied by the server.  An access token is identified with the refresh token issued
 beside it.
 */
module OAuthRefresh {
  import opened Wrappers

  const SKEW := 120
  const COOLDOWN := 30

  /** The `n`-th refresh token of a grant. */
  datatype Tok = Tok(grant: nat, n: nat)
  datatype Cred = Cred(tok: Tok, expires: int)
  /** A host's block: its credential, if complete, and everything else in it. */
  datatype Block = Block(cred: Option<Cred>, rest: nat)
  datatype File = File(hosts: map<nat, Block>, root: nat)

  /** What the server knows of a grant: the host it was issued for, the index of its current token,
      and the login that got it but has not stored it yet. */
  datatype Grant = Grant(host: nat, head: nat, login: Option<Client>)

  datatype Client = Client(process: nat, thread: nat)
  /** The key of the per-process tables. */
  datatype Key = Key(process: nat, host: nat)

  datatype Phase =
    | Idle
    | EnsureWaiting(host: nat, cred: Cred, at: int)           // read before the locks
    | EnsureLocked(host: nat, cred: Cred, at: int)
    | ForceWaiting(host: nat, failed: Option<Tok>, at: int)
    | ForceLocked(host: nat, failed: Option<Tok>, at: int)
    | Rotating(host: nat, cred: Cred)                         // enters `_rotate_and_persist`
    | Exchanging(host: nat, cred: Cred, raw: File, retried: bool)
    | Rejected(host: nat, cred: Cred)
    | Persisting(host: nat, cred: Cred, raw: File)            // enters `_persist_credential`
    | LoginWaiting(host: nat, cred: Cred)                     // has a new grant
    | LoginLocked(host: nat, cred: Cred)
    | WriteWaiting
    | WriteLocked
    | Writing(raw: File)
    | Leaving                                                 // about to release the locks

  datatype State = State(
    file: File, grants: map<nat, Grant>, revoked: set<nat>, now: int,
    inLock: map<nat, Client>, fileLock: Option<Client>, phases: map<Client, Phase>,
    dead: map<Key, Tok>, expiry: map<Key, Cred>, failedAt: map<Key, int>,
    rejected: set<Tok>, stored: set<Tok>)   // permanently rejected, and ever persisted

  datatype Outcome = Rotated(expires: int) | Permanent | Transient(again: bool)

  datatype Action =
    | Tick(now: int)
    | Revoke(grant: nat)
    | EnsureCall(c: Client, host: nat, given: Option<Block>)
    | ForceCall(c: Client, host: nat, failed: Option<Tok>)
    | LoginCall(c: Client, host: nat, grant: nat, expires: int)
    | WriteCall(c: Client)
    | Lock(c: Client, both: bool)         // `both`: the file lock was to be had too
    | EnsureReread(c: Client)
    | ForceReread(c: Client)
    | ReadStrict(c: Client, readable: bool)
    | Exchange(c: Client, outcome: Outcome)
    | AdoptOrMark(c: Client)
    | Persist(c: Client)
    | LoginRead(c: Client, root: nat)
    | WriteRead(c: Client)
    | Write(c: Client, out: File)
    | Unlock(c: Client)

  function PhaseOf(s: State, c: Client): Phase {
    if c in s.phases then s.phases[c] else Idle
  }

  function Load(f: File, host: nat): Option<Cred> {
    if host in f.hosts then f.hosts[host].cred else None
  }

  predicate Expired(cred: Cred, at: int) {
    cred.expires - SKEW <= at
  }

  predicate InCooldown(s: State, k: Key) {
    k in s.failedAt && s.now - s.failedAt[k] < COOLDOWN
  }

  predicate IsDead(s: State, k: Key, cred: Cred) {
    k in s.dead && s.dead[k] == cred.tok
  }

  predicate Waiting(p: Phase) {
    p.EnsureWaiting? || p.ForceWaiting? || p.LoginWaiting? || p.WriteWaiting?
  }

  /** The token is the server's current one for its grant. */
  predicate Current(s: State, tok: Tok) {
    tok.grant in s.grants && tok.n == s.grants[tok.grant].head
  }

  /** The server issued the token. */
  predicate Known(s: State, tok: Tok) {
    tok.grant in s.grants && tok.n <= s.grants[tok.grant].head
  }

  /** The token was in the host's block at some time. */
  predicate Stored(s: State, host: nat, tok: Tok) {
    tok in s.stored && tok.grant in s.grants && s.grants[tok.grant].host == host
  }

  /** What a config write may do to credentials: keep them or drop them. */
  ghost predicate KeepsOrDrops(raw: File, out: File) {
    forall h :: h in out.hosts && out.hosts[h].cred.Some? ==> out.hosts[h].cred == Load(raw, h)
  }

  ghost predicate Enabled(s: State, a: Action) {
    match a
    case Tick(now) => s.now <= now
    case Revoke(_) => true
    case EnsureCall(c, host, given) =>
      PhaseOf(s, c).Idle? && (given.Some? && given.value.cred.Some? ==> Stored(s, host, given.value.cred.value.tok))
    case ForceCall(c, _, _) => PhaseOf(s, c).Idle?
    case LoginCall(c, _, grant, _) => PhaseOf(s, c).Idle? && grant !in s.grants
    case WriteCall(c) => PhaseOf(s, c).Idle?
    case Lock(c, both) => Waiting(PhaseOf(s, c)) && c.process !in s.inLock && (both ==> s.fileLock.None?)
    case EnsureReread(c) => PhaseOf(s, c).EnsureLocked?
    case ForceReread(c) => PhaseOf(s, c).ForceLocked?
    case ReadStrict(c, _) => PhaseOf(s, c).Rotating?
    case Exchange(c, outcome) =>
      && PhaseOf(s, c).Exchanging?
      && (outcome.Rotated? ==>
            Current(s, PhaseOf(s, c).cred.tok) && PhaseOf(s, c).cred.tok.grant !in s.revoked)
      && (outcome.Transient? && outcome.again ==> !PhaseOf(s, c).retried)
    case AdoptOrMark(c) => PhaseOf(s, c).Rejected?
    case Persist(c) => PhaseOf(s, c).Persisting?
    case LoginRead(c, _) => PhaseOf(s, c).LoginLocked?
    case WriteRead(c) => PhaseOf(s, c).WriteLocked?
    case Write(c, out) => PhaseOf(s, c).Writing? && KeepsOrDrops(PhaseOf(s, c).raw, out)
    case Unlock(c) => PhaseOf(s, c).Leaving?
  }

  function Goto(s: State, c: Client, p: Phase): State {
    s.(phases := s.phases[c := p])
  }

  function EnsureRead(s: State, c: Client, host: nat, cred: Cred): State {
    var k := Key(c.process, host);
    var u := s.(expiry := s.expiry[k := cred]);
    if !Expired(cred, s.now) || InCooldown(s, k) then u else Goto(u, c, EnsureWaiting(host, cred, s.now))
  }

  /** `ensure_fresh_token` up to the locks. */
  function Ensure(s: State, c: Client, host: nat, given: Option<Block>): State {
    var k := Key(c.process, host);
    if given.None? && k in s.expiry && !Expired(s.expiry[k], s.now) then s
    else
      var cred := if given.Some? then given.value.cred else Load(s.file, host);
      if cred.None? then s.(expiry := s.expiry - {k}) else EnsureRead(s, c, host, cred.value)
  }

  /** Under the locks, `ensure_fresh_token` decides on a fresh read. */
  function Recheck(s: State, c: Client, host: nat, cred: Cred, at: int): State {
    var current := if Load(s.file, host).Some? then Load(s.file, host).value else cred;
    if !Expired(current, at) then Goto(s, c, Leaving)
    else if IsDead(s, Key(c.process, host), current) || InCooldown(s, Key(c.process, host)) then Goto(s, c, Leaving)
    else Goto(s, c, Rotating(host, current))
  }

  datatype Verdict = AdoptIt | LeaveIt | RotateIt

  /** What `force_refresh_token` makes of the credential it reads under the locks. */
  function ForceVerdict(s: State, k: Key, cred: Cred, failed: Option<Tok>, at: int): Verdict {
    var movedOffFailed := failed.Some? && cred.tok != failed.value;
    var movedOffCached := k in s.expiry && cred.tok != s.expiry[k].tok;
    if (movedOffFailed || movedOffCached) && !Expired(cred, at) then AdoptIt
    else if IsDead(s, k, cred) || InCooldown(s, k) then LeaveIt
    else RotateIt
  }

  /** The same for `force_refresh_token`. */
  function ForceRecheck(s: State, c: Client, host: nat, failed: Option<Tok>, at: int): State {
    var k, read := Key(c.process, host), Load(s.file, host);
    if read.None? then Goto(s.(expiry := s.expiry - {k}), c, Leaving)
    else match ForceVerdict(s, k, read.value, failed, at)
      case AdoptIt => Goto(s.(expiry := s.expiry[k := read.value]), c, Leaving)
      case LeaveIt => Goto(s, c, Leaving)
      case RotateIt => Goto(s, c, Rotating(host, read.value))
  }

  function Failed(s: State, c: Client, host: nat): State {
    Goto(s.(failedAt := s.failedAt[Key(c.process, host) := s.now]), c, Leaving)
  }

  function Answer(s: State, c: Client, p: Phase, outcome: Outcome): State
    requires p.Exchanging? && (outcome.Rotated? ==> Current(s, p.cred.tok))
  {
    var tok := p.cred.tok;
    match outcome
    case Rotated(expires) =>
      Goto(s.(grants := s.grants[tok.grant := s.grants[tok.grant].(head := tok.n + 1)]), c,
           Persisting(p.host, Cred(Tok(tok.grant, tok.n + 1), expires), p.raw))
    case Permanent => Goto(s.(rejected := s.rejected + {tok}), c, Rejected(p.host, p.cred))
    case Transient(again) => if again then Goto(s, c, p.(retried := true)) else Failed(s, c, p.host)
  }

  function Adopt(s: State, c: Client, host: nat, cred: Cred): State {
    var k, disk := Key(c.process, host), Load(s.file, host);
    if disk.Some? && disk.value.tok != cred.tok then
      Goto(s.(dead := s.dead - {k}, expiry := s.expiry[k := disk.value]), c, Leaving)
    else Goto(s.(dead := s.dead[k := cred.tok]), c, Leaving)
  }

  function WithCred(raw: File, host: nat, cred: Cred): File {
    raw.(hosts := raw.hosts[host := Block(Some(cred), if host in raw.hosts then raw.hosts[host].rest else 0)])
  }

  /** The login that stored a grant is over. */
  function Settled(s: State, grant: nat): map<nat, Grant> {
    if grant in s.grants then s.grants[grant := s.grants[grant].(login := None)] else s.grants
  }

  function Store(s: State, c: Client, host: nat, cred: Cred, raw: File): State {
    var k := Key(c.process, host);
    Goto(s.(file := WithCred(raw, host, cred), grants := Settled(s, cred.tok.grant), stored := s.stored + {cred.tok},
            expiry := s.expiry[k := cred], dead := s.dead - {k}, failedAt := s.failedAt - {k}), c, Leaving)
  }

  function Locked(p: Phase): Phase {
    match p
    case EnsureWaiting(host, cred, at) => EnsureLocked(host, cred, at)
    case ForceWaiting(host, failed, at) => ForceLocked(host, failed, at)
    case LoginWaiting(host, cred) => LoginLocked(host, cred)
    case _ => WriteLocked
  }

  function Next(s: State, a: Action): State
    requires Enabled(s, a)
  {
    match a
    case Tick(now) => s.(now := now)
    case Revoke(grant) => s.(revoked := s.revoked + {grant})
    case EnsureCall(c, host, given) => Ensure(s, c, host, given)
    case ForceCall(c, host, failed) => Goto(s, c, ForceWaiting(host, failed, s.now))
    case LoginCall(c, host, grant, expires) =>
      Goto(s.(grants := s.grants[grant := Grant(host, 0, Some(c))]), c, LoginWaiting(host, Cred(Tok(grant, 0), expires)))
    case WriteCall(c) => Goto(s, c, WriteWaiting)
    case Lock(c, both) =>
      Goto(s.(inLock := s.inLock[c.process := c], fileLock := if both then Some(c) else s.fileLock), c, Locked(s.phases[c]))
    case EnsureReread(c) => Recheck(s, c, s.phases[c].host, s.phases[c].cred, s.phases[c].at)
    case ForceReread(c) => ForceRecheck(s, c, s.phases[c].host, s.phases[c].failed, s.phases[c].at)
    case ReadStrict(c, readable) =>
      if readable then Goto(s, c, Exchanging(s.phases[c].host, s.phases[c].cred, s.file, false))
      else Failed(s, c, s.phases[c].host)
    case Exchange(c, outcome) => Answer(s, c, s.phases[c], outcome)
    case AdoptOrMark(c) => Adopt(s, c, s.phases[c].host, s.phases[c].cred)
    case Persist(c) => Store(s, c, s.phases[c].host, s.phases[c].cred, s.phases[c].raw)
    case LoginRead(c, root) => Goto(s, c, Persisting(s.phases[c].host, s.phases[c].cred, s.file.(root := root)))
    case WriteRead(c) => Goto(s, c, Writing(s.file))
    case Write(c, out) => Goto(s.(file := out), c, Leaving)
    case Unlock(c) =>
      Goto(s.(inLock := s.inLock - {c.process}, fileLock := if s.fileLock == Some(c) then None else s.fileLock), c, Idle)
  }

  function Initial(f: File): State {
    State(f, map[], {}, 0, map[], None, map[], map[], map[], map[], {}, {})
  }

  /** A file no login has written to yet. */
  ghost predicate NoCreds(f: File) {
    forall h :: h in f.hosts ==> f.hosts[h].cred.None?
  }

  ghost predicate IsRun(s: State, actions: seq<Action>)
    decreases |actions|
  {
    actions == [] || (Enabled(s, actions[0]) && IsRun(Next(s, actions[0]), actions[1..]))
  }

  function After(s: State, actions: seq<Action>): State
    requires IsRun(s, actions)
    decreases |actions|
  {
    if actions == [] then s else After(Next(s, actions[0]), actions[1..])
  }

  // ----- With the file lock -----

  /** The file lock is held wherever locks are. */
  ghost predicate AllLocked(actions: seq<Action>) {
    forall i :: 0 <= i < |actions| ==> TakesBoth(actions[i])
  }

  predicate TakesBoth(a: Action) {
    a.Lock? ==> a.both
  }

  /** Besides, no step finds the block deleted that it read before the lock. */
  predicate Guarded(s: State, a: Action) {
    match a
    case Lock(_, both) => both
    case EnsureReread(c) => PhaseOf(s, c).EnsureLocked? ==> Load(s.file, PhaseOf(s, c).host).Some?
    case _ => true
  }

  ghost predicate IsGuardedRun(s: State, actions: seq<Action>)
    decreases |actions|
  {
    actions == [] || (Enabled(s, actions[0]) && Guarded(s, actions[0]) && IsGuardedRun(Next(s, actions[0]), actions[1..]))
  }

  lemma {:induction false} GuardedIsRun(s: State, actions: seq<Action>)
    requires IsGuardedRun(s, actions)
    ensures IsRun(s, actions) && AllLocked(actions)
    decreases |actions|
  {
    if actions != [] {
      GuardedIsRun(Next(s, actions[0]), actions[1..]);
      assert forall i :: 0 < i < |actions| ==> actions[i] == actions[1..][i - 1];
    }
  }

  predicate InSection(p: Phase) {
    !p.Idle? && !Waiting(p)
  }

  /** The exchange is done and its result not yet on disk. */
  predicate Pending(s: State, host: nat, grant: nat) {
    s.fileLock.Some? && var p := PhaseOf(s, s.fileLock.value);
    p.Persisting? && p.host == host && p.cred.tok.grant == grant
  }

  /** The credential on disk is the host's own and current, or one exchange behind while that
      exchange's result waits to be stored. */
  ghost predicate DiskOk(s: State) {
    forall h :: h in s.file.hosts && s.file.hosts[h].cred.Some? ==> CredOk(s, h, s.file.hosts[h].cred.value.tok)
  }

  predicate CredOk(s: State, host: nat, tok: Tok) {
    && Stored(s, host, tok) && s.grants[tok.grant].login.None?
    && s.grants[tok.grant].head == (if Pending(s, host, tok.grant) then tok.n + 1 else tok.n)
  }

  predicate LoginOk(s: State, c: Client, host: nat, cred: Cred) {
    cred.tok.grant in s.grants && s.grants[cred.tok.grant] == Grant(host, 0, Some(c)) && cred.tok.n == 0
  }

  /** The new credential starts a grant, or follows the one on disk, if there is one, and one that was. */
  predicate PersistOk(s: State, c: Client, host: nat, cred: Cred) {
    if cred.tok.n == 0 then LoginOk(s, c, host, cred)
    else
      var before := Tok(cred.tok.grant, cred.tok.n - 1);
      && Current(s, cred.tok) && Stored(s, host, before)
      && (Load(s.file, host).Some? ==> Load(s.file, host).value.tok == before)
  }

  /** What is presented is on disk, or was, and the block has been deleted since. */
  predicate FromDisk(s: State, host: nat, cred: Cred) {
    Load(s.file, host) == Some(cred) || (Load(s.file, host).None? && Stored(s, host, cred.tok))
  }

  ghost predicate PhaseOk(s: State, c: Client, p: Phase) {
    match p
    case EnsureWaiting(host, cred, _) => Stored(s, host, cred.tok)
    case EnsureLocked(host, cred, _) => Stored(s, host, cred.tok)
    case Rotating(host, cred) => FromDisk(s, host, cred)
    case Exchanging(host, cred, raw, _) => raw == s.file && FromDisk(s, host, cred)
    case Persisting(host, cred, raw) => raw.hosts == s.file.hosts && PersistOk(s, c, host, cred)
    case LoginWaiting(host, cred) => LoginOk(s, c, host, cred)
    case LoginLocked(host, cred) => LoginOk(s, c, host, cred)
    case Writing(raw) => raw == s.file
    case _ => true
  }

  ghost predicate Inv(s: State) {
    && (forall c :: c in s.phases && InSection(s.phases[c]) ==> s.fileLock == Some(c))
    && (forall c :: c in s.phases ==> PhaseOk(s, c, s.phases[c]))
    && DiskOk(s)
    && (forall tok :: tok in s.stored ==> Known(s, tok) && s.grants[tok.grant].login.None?)
  }

  lemma SameCreds(s: State, u: State)
    requires DiskOk(s) && u.file == s.file && u.grants == s.grants && u.stored == s.stored
    requires forall h, g :: Pending(u, h, g) <==> Pending(s, h, g)
    ensures DiskOk(u)
  {
    forall h | h in u.file.hosts && u.file.hosts[h].cred.Some? ensures CredOk(u, h, u.file.hosts[h].cred.value.tok) {
      assert CredOk(s, h, s.file.hosts[h].cred.value.tok);
    }
  }

  /** Steps that touch neither the file nor the grants, and that no stored result waits for. */
  ghost predicate Quiet(s: State, c: Client, u: State) {
    && u.file == s.file && u.grants == s.grants && u.stored == s.stored && u.fileLock == s.fileLock
    && c in u.phases && u.phases == s.phases[c := u.phases[c]]
    && !PhaseOf(s, c).Persisting? && !u.phases[c].Persisting?
  }

  lemma QuietKeepsInv(s: State, c: Client, u: State)
    requires Inv(s) && Quiet(s, c, u) && PhaseOk(u, c, u.phases[c])
    requires InSection(u.phases[c]) ==> s.fileLock == Some(c)
    ensures Inv(u)
  {
    SameCreds(s, u);
    forall d | d in u.phases ensures PhaseOk(u, d, u.phases[d]) {
      if d != c {
        assert PhaseOk(s, d, s.phases[d]);
      }
    }
  }

  lemma StillKeepsInv(s: State, u: State)
    requires Inv(s) && u.file == s.file && u.grants == s.grants && u.stored == s.stored
    requires u.fileLock == s.fileLock && u.phases == s.phases
    ensures Inv(u)
  {
    SameCreds(s, u);
    forall d | d in u.phases ensures PhaseOk(u, d, u.phases[d]) {
      assert PhaseOk(s, d, s.phases[d]);
    }
  }

  /** What `ensure_fresh_token` does before the locks. */
  ghost predicate OnlyReads(s: State, c: Client, u: State) {
    && u == s.(expiry := u.expiry, phases := u.phases)
    && (u.phases == s.phases || (c in u.phases && u.phases[c].EnsureWaiting? && u.phases == s.phases[c := u.phases[c]]))
  }

  lemma EnsureReadIs(s: State, c: Client, host: nat, cred: Cred)
    ensures OnlyReads(s, c, EnsureRead(s, c, host, cred))
  {}

  lemma EnsureIs(s: State, c: Client, host: nat, given: Option<Block>)
    requires PhaseOf(s, c).Idle?
    ensures OnlyReads(s, c, Ensure(s, c, host, given))
  {
    var k, read := Key(c.process, host), if given.Some? then given.value.cred else Load(s.file, host);
    if read.Some? {
      EnsureReadIs(s, c, host, read.value);
    } else {
      assert OnlyReads(s, c, s) && OnlyReads(s, c, s.(expiry := s.expiry - {k}));
    }
  }

  lemma EnsureKeepsInv(s: State, c: Client, host: nat, given: Option<Block>)
    requires Inv(s) && Enabled(s, EnsureCall(c, host, given))
    ensures Inv(Ensure(s, c, host, given))
  {
    var u := Ensure(s, c, host, given);
    EnsureIs(s, c, host, given);
    if u.phases == s.phases {
      StillKeepsInv(s, u);
    } else {
      QuietKeepsInv(s, c, u);
    }
  }

  /** A decision under the locks: go, or rotate the credential read there unless it is marked dead. */
  ghost predicate Decides(s: State, c: Client, host: nat, u: State) {
    && c in u.phases && u == s.(expiry := u.expiry, phases := s.phases[c := u.phases[c]])
    && (u.phases[c].Leaving? ||
        (u.phases[c].Rotating? && u.phases[c].host == host && !IsDead(s, Key(c.process, host), u.phases[c].cred)))
  }

  lemma GotoDecides(s: State, c: Client, host: nat, expiry: map<Key, Cred>, p: Phase)
    requires p.Leaving? || (p.Rotating? && p.host == host && !IsDead(s, Key(c.process, host), p.cred))
    ensures Decides(s, c, host, Goto(s.(expiry := expiry), c, p))
    ensures Goto(s.(expiry := expiry), c, p).phases[c] == p
  {}

  lemma RecheckIs(s: State, c: Client, host: nat, cred: Cred, at: int)
    ensures var u := Recheck(s, c, host, cred, at);
      && Decides(s, c, host, u)
      && (u.phases[c].Rotating? ==>
            Some(u.phases[c].cred) == if Load(s.file, host).Some? then Load(s.file, host) else Some(cred))
  {}

  lemma ForceRecheckIs(s: State, c: Client, host: nat, failed: Option<Tok>, at: int)
    ensures var u := ForceRecheck(s, c, host, failed, at);
      Decides(s, c, host, u) && (u.phases[c].Rotating? ==> Load(s.file, host) == Some(u.phases[c].cred))
  {
    var k, read := Key(c.process, host), Load(s.file, host);
    if read.None? {
      GotoDecides(s, c, host, s.expiry - {k}, Leaving);
    } else if ForceVerdict(s, k, read.value, failed, at).AdoptIt? {
      GotoDecides(s, c, host, s.expiry[k := read.value], Leaving);
    } else if ForceVerdict(s, k, read.value, failed, at).LeaveIt? {
      GotoDecides(s, c, host, s.expiry, Leaving);
    } else {
      assert !IsDead(s, k, read.value);
      GotoDecides(s, c, host, s.expiry, Rotating(host, read.value));
    }
  }

  /** In full, with the numbers: the call before the locks. */
  lemma EnsureIff(s: State, c: Client, host: nat, given: Option<Block>)
    ensures var u, k := Ensure(s, c, host, given), Key(c.process, host);
      var read := if given.Some? then given.value.cred else Load(s.file, host);
      if given.None? && k in s.expiry && s.now < s.expiry[k].expires - 120 then u == s
      else if read.None? then u == s.(expiry := s.expiry - {k})
      else u == s.(expiry := s.expiry[k := read.value], phases :=
        if read.value.expires - 120 <= s.now && (k in s.failedAt ==> 30 <= s.now - s.failedAt[k])
        then s.phases[c := EnsureWaiting(host, read.value, s.now)] else s.phases)
  {
    var u, k := Ensure(s, c, host, given), Key(c.process, host);
    var read := if given.Some? then given.value.cred else Load(s.file, host);
    if read.Some? {
      EnsureReadIff(s, c, host, read.value);
    }
  }

  lemma EnsureReadIff(s: State, c: Client, host: nat, cred: Cred)
    ensures var k := Key(c.process, host);
      EnsureRead(s, c, host, cred) == s.(expiry := s.expiry[k := cred], phases :=
        if cred.expires - 120 <= s.now && (k in s.failedAt ==> 30 <= s.now - s.failedAt[k])
        then s.phases[c := EnsureWaiting(host, cred, s.now)] else s.phases)
  {}

  /** The reread under the locks: a credential that is still expired, not dead and clear of a failure is
      rotated, any other left. */
  lemma RecheckIff(s: State, c: Client, host: nat, cred: Cred, at: int)
    ensures var k, current := Key(c.process, host), if Load(s.file, host).Some? then Load(s.file, host).value else cred;
      Recheck(s, c, host, cred, at) == s.(phases := s.phases[c :=
        if current.expires - 120 <= at && (k in s.dead ==> s.dead[k] != current.tok)
           && (k in s.failedAt ==> 30 <= s.now - s.failedAt[k])
        then Rotating(host, current) else Leaving])
  {}

  /** The forced one: a credential that is not the failed or not the cached one is adopted if it is fresh;
      one that is dead or not clear of a failure is left; any other is rotated. */
  lemma ForceRecheckIff(s: State, c: Client, host: nat, failed: Option<Tok>, at: int)
    ensures var k, read := Key(c.process, host), Load(s.file, host);
      ForceRecheck(s, c, host, failed, at) ==
        if read.None? then s.(expiry := s.expiry - {k}, phases := s.phases[c := Leaving])
        else if at < read.value.expires - 120
             && ((failed.Some? && read.value.tok != failed.value) || (k in s.expiry && read.value.tok != s.expiry[k].tok))
        then s.(expiry := s.expiry[k := read.value], phases := s.phases[c := Leaving])
        else s.(phases := s.phases[c :=
          if (k in s.dead && s.dead[k] == read.value.tok) || (k in s.failedAt && s.now - s.failedAt[k] < 30)
          then Leaving else Rotating(host, read.value)])
  {
    var k, read := Key(c.process, host), Load(s.file, host);
    if read.Some? {
      ForceVerdictIff(s, k, read.value, failed, at);
    }
  }

  lemma ForceVerdictIff(s: State, k: Key, cred: Cred, failed: Option<Tok>, at: int)
    ensures ForceVerdict(s, k, cred, failed, at) ==
      if at < cred.expires - 120 && ((failed.Some? && cred.tok != failed.value) || (k in s.expiry && cred.tok != s.expiry[k].tok))
      then AdoptIt
      else if (k in s.dead && s.dead[k] == cred.tok) || (k in s.failedAt && s.now - s.failedAt[k] < 30) then LeaveIt
      else RotateIt
  {}

  /** After a rejection: another token on disk is adopted and revives the host, else the rejected one is
      marked. */
  lemma AdoptIff(s: State, c: Client, host: nat, cred: Cred)
    ensures var k, disk := Key(c.process, host), Load(s.file, host);
      Adopt(s, c, host, cred) ==
        if disk.Some? && disk.value.tok != cred.tok
        then s.(dead := s.dead - {k}, expiry := s.expiry[k := disk.value], phases := s.phases[c := Leaving])
        else s.(dead := s.dead[k := cred.tok], phases := s.phases[c := Leaving])
  {}

  lemma RecheckKeepsInv(s: State, c: Client)
    requires Inv(s) && Enabled(s, EnsureReread(c))
    ensures Inv(Next(s, EnsureReread(c)))
  {
    assert s.fileLock == Some(c) && PhaseOk(s, c, s.phases[c]);
    RecheckIs(s, c, s.phases[c].host, s.phases[c].cred, s.phases[c].at);
    QuietKeepsInv(s, c, Next(s, EnsureReread(c)));
  }

  lemma ForceKeepsInv(s: State, c: Client)
    requires Inv(s) && Enabled(s, ForceReread(c))
    ensures Inv(Next(s, ForceReread(c)))
  {
    assert s.fileLock == Some(c);
    ForceRecheckIs(s, c, s.phases[c].host, s.phases[c].failed, s.phases[c].at);
    QuietKeepsInv(s, c, Next(s, ForceReread(c)));
  }

  lemma ReadKeepsInv(s: State, c: Client, readable: bool)
    requires Inv(s) && Enabled(s, ReadStrict(c, readable))
    ensures Inv(Next(s, ReadStrict(c, readable)))
  {
    assert s.fileLock == Some(c) && PhaseOk(s, c, s.phases[c]);
    QuietKeepsInv(s, c, Next(s, ReadStrict(c, readable)));
  }

  lemma WriteReadKeepsInv(s: State, c: Client)
    requires Inv(s) && Enabled(s, WriteRead(c))
    ensures Inv(Next(s, WriteRead(c)))
  {
    assert s.fileLock == Some(c);
    QuietKeepsInv(s, c, Next(s, WriteRead(c)));
  }

  lemma AdoptIs(s: State, c: Client, host: nat, cred: Cred)
    ensures var u := Adopt(s, c, host, cred);
      && u == s.(dead := u.dead, expiry := u.expiry, phases := s.phases[c := Leaving])
      && (u.dead == s.dead - {Key(c.process, host)} || u.dead == s.dead[Key(c.process, host) := cred.tok])
  {}

  lemma MarkKeepsInv(s: State, c: Client)
    requires Inv(s) && Enabled(s, AdoptOrMark(c))
    ensures Inv(Next(s, AdoptOrMark(c)))
  {
    assert s.fileLock == Some(c);
    AdoptIs(s, c, s.phases[c].host, s.phases[c].cred);
    QuietKeepsInv(s, c, Next(s, AdoptOrMark(c)));
  }

  lemma ExchangeKeepsInv(s: State, c: Client, outcome: Outcome)
    requires Inv(s) && Enabled(s, Exchange(c, outcome))
    ensures Inv(Next(s, Exchange(c, outcome)))
  {
    assert s.fileLock == Some(c) && PhaseOk(s, c, s.phases[c]);
    if outcome.Rotated? {
      SuccessKeepsInv(s, c, outcome.expires);
    } else {
      QuietKeepsInv(s, c, Next(s, Exchange(c, outcome)));
    }
  }

  lemma SuccessKeepsInv(s: State, c: Client, expires: int)
    requires Inv(s) && Enabled(s, Exchange(c, Rotated(expires)))
    ensures Inv(Next(s, Exchange(c, Rotated(expires))))
  {
    var u, p := Next(s, Exchange(c, Rotated(expires))), s.phases[c];
    assert s.fileLock == Some(c) && PhaseOk(s, c, p);
    if Load(s.file, p.host).Some? {
      assert CredOk(s, p.host, p.cred.tok);
    }
    forall h | h in u.file.hosts && u.file.hosts[h].cred.Some? ensures CredOk(u, h, u.file.hosts[h].cred.value.tok) {
      assert CredOk(s, h, s.file.hosts[h].cred.value.tok);
    }
    forall d | d in u.phases ensures PhaseOk(u, d, u.phases[d]) {
      assert d != c ==> PhaseOk(s, d, s.phases[d]);
    }
  }

  lemma LockKeepsInv(s: State, c: Client)
    requires Inv(s) && Enabled(s, Lock(c, true))
    ensures Inv(Next(s, Lock(c, true)))
  {
    var u := Next(s, Lock(c, true));
    assert PhaseOk(s, c, s.phases[c]);
    SameCreds(s, u);
    forall d | d in u.phases ensures PhaseOk(u, d, u.phases[d]) {
      assert d != c ==> PhaseOk(s, d, s.phases[d]);
    }
  }

  lemma UnlockKeepsInv(s: State, c: Client)
    requires Inv(s) && Enabled(s, Unlock(c))
    ensures Inv(Next(s, Unlock(c)))
  {
    var u := Next(s, Unlock(c));
    assert s.fileLock == Some(c);
    SameCreds(s, u);
    forall d | d in u.phases ensures PhaseOk(u, d, u.phases[d]) {
      assert d != c ==> PhaseOk(s, d, s.phases[d]);
    }
  }

  lemma LoginCallKeepsInv(s: State, c: Client, host: nat, grant: nat, expires: int)
    requires Inv(s) && Enabled(s, LoginCall(c, host, grant, expires))
    ensures Inv(Next(s, LoginCall(c, host, grant, expires)))
  {
    var u := Next(s, LoginCall(c, host, grant, expires));
    forall h | h in u.file.hosts && u.file.hosts[h].cred.Some? ensures CredOk(u, h, u.file.hosts[h].cred.value.tok) {
      assert CredOk(s, h, s.file.hosts[h].cred.value.tok);
    }
    forall d | d in u.phases ensures PhaseOk(u, d, u.phases[d]) {
      assert d != c ==> PhaseOk(s, d, s.phases[d]);
    }
  }

  lemma LoginReadKeepsInv(s: State, c: Client, root: nat)
    requires Inv(s) && Enabled(s, LoginRead(c, root))
    ensures Inv(Next(s, LoginRead(c, root)))
  {
    var u := Next(s, LoginRead(c, root));
    assert s.fileLock == Some(c) && PhaseOk(s, c, s.phases[c]);
    forall h | h in u.file.hosts && u.file.hosts[h].cred.Some? ensures CredOk(u, h, u.file.hosts[h].cred.value.tok) {
      assert CredOk(s, h, s.file.hosts[h].cred.value.tok);
    }
    forall d | d in u.phases ensures PhaseOk(u, d, u.phases[d]) {
      assert d != c ==> PhaseOk(s, d, s.phases[d]);
    }
  }

  /** What a credential about to be stored is: the current token of a grant of this host. */
  lemma PersistedIsCurrent(s: State, c: Client)
    requires Inv(s) && Enabled(s, Persist(c))
    ensures var p := s.phases[c]; Current(s, p.cred.tok) && s.grants[p.cred.tok.grant].host == p.host
  {
    var p := s.phases[c];
    assert s.fileLock == Some(c) && PhaseOk(s, c, p);
  }

  lemma PersistKeepsInv(s: State, c: Client)
    requires Inv(s) && Enabled(s, Persist(c))
    ensures Inv(Next(s, Persist(c)))
  {
    PersistedIsCurrent(s, c);
    var u, p := Next(s, Persist(c)), s.phases[c];
    assert s.fileLock == Some(c) && PhaseOk(s, c, p);
    forall h | h in u.file.hosts && u.file.hosts[h].cred.Some? ensures CredOk(u, h, u.file.hosts[h].cred.value.tok) {
      assert h != p.host ==> CredOk(s, h, s.file.hosts[h].cred.value.tok);
    }
    forall d | d in u.phases ensures PhaseOk(u, d, u.phases[d]) {
      assert d != c ==> PhaseOk(s, d, s.phases[d]);
    }
  }

  lemma WriteKeepsInv(s: State, c: Client, out: File)
    requires Inv(s) && Enabled(s, Write(c, out))
    ensures Inv(Next(s, Write(c, out)))
  {
    var u := Next(s, Write(c, out));
    assert s.fileLock == Some(c) && PhaseOk(s, c, s.phases[c]);
    forall h | h in u.file.hosts && u.file.hosts[h].cred.Some? ensures CredOk(u, h, u.file.hosts[h].cred.value.tok) {
      assert Load(s.file, h) == u.file.hosts[h].cred;
      assert CredOk(s, h, s.file.hosts[h].cred.value.tok);
    }
    forall d | d in u.phases ensures PhaseOk(u, d, u.phases[d]) {
      assert d != c ==> PhaseOk(s, d, s.phases[d]);
    }
  }

  lemma StepKeepsInv(s: State, a: Action)
    requires Inv(s) && Enabled(s, a) && TakesBoth(a)
    ensures Inv(Next(s, a))
  {
    match a
    case Tick(_) => StillKeepsInv(s, Next(s, a));
    case Revoke(_) => StillKeepsInv(s, Next(s, a));
    case EnsureCall(c, host, given) => EnsureKeepsInv(s, c, host, given);
    case ForceCall(c, _, _) => QuietKeepsInv(s, c, Next(s, a));
    case LoginCall(c, host, grant, expires) => LoginCallKeepsInv(s, c, host, grant, expires);
    case WriteCall(c) => QuietKeepsInv(s, c, Next(s, a));
    case Lock(c, _) => LockKeepsInv(s, c);
    case Exchange(c, outcome) => ExchangeKeepsInv(s, c, outcome);
    case Persist(c) => PersistKeepsInv(s, c);
    case LoginRead(c, root) => LoginReadKeepsInv(s, c, root);
    case Write(c, out) => WriteKeepsInv(s, c, out);
    case Unlock(c) => UnlockKeepsInv(s, c);
    case EnsureReread(c) => RecheckKeepsInv(s, c);
    case ForceReread(c) => ForceKeepsInv(s, c);
    case AdoptOrMark(c) => MarkKeepsInv(s, c);
    case ReadStrict(c, readable) => ReadKeepsInv(s, c, readable);
    case WriteRead(c) => WriteReadKeepsInv(s, c);
  }

  lemma {:induction false} RunKeepsInv(s: State, actions: seq<Action>)
    requires Inv(s) && IsRun(s, actions) && AllLocked(actions)
    ensures Inv(After(s, actions))
    decreases |actions|
  {
    if actions != [] {
      StepKeepsInv(s, actions[0]);
      RunKeepsInv(Next(s, actions[0]), actions[1..]);
    }
  }

  /** A token in hand under the locks is still on disk there. */
  ghost predicate Attached(s: State) {
    forall c :: c in s.phases ==> OnDisk(s, s.phases[c])
  }

  predicate OnDisk(s: State, p: Phase) {
    p.Rotating? || p.Exchanging? || (p.Persisting? && 0 < p.cred.tok.n) ==> Load(s.file, p.host).Some?
  }

  /** Only the holder of the file lock has a token in hand, so only its own step matters. */
  lemma OneStaysAttached(s: State, c: Client, u: State)
    requires Inv(s) && Attached(s) && (u.file == s.file || s.fileLock == Some(c))
    requires u.phases == s.phases || (c in u.phases && u.phases == s.phases[c := u.phases[c]] && OnDisk(u, u.phases[c]))
    requires u.phases == s.phases ==> u.file == s.file
    ensures Attached(u)
  {
    forall d | d in u.phases ensures OnDisk(u, u.phases[d]) {
      assert d in s.phases ==> OnDisk(s, s.phases[d]);
    }
  }

  lemma CallStaysAttached(s: State, a: Action)
    requires Inv(s) && Attached(s) && Enabled(s, a)
    requires a.EnsureCall? || a.ForceCall? || a.LoginCall? || a.WriteCall? || a.Lock?
    ensures Attached(Next(s, a))
  {
    if a.EnsureCall? {
      EnsureIs(s, a.c, a.host, a.given);
    }
    OneStaysAttached(s, a.c, Next(s, a));
  }

  lemma DecisionStaysAttached(s: State, a: Action)
    requires Inv(s) && Attached(s) && Enabled(s, a) && Guarded(s, a) && (a.EnsureReread? || a.ForceReread?)
    ensures Attached(Next(s, a))
  {
    if a.EnsureReread? {
      RecheckIs(s, a.c, s.phases[a.c].host, s.phases[a.c].cred, s.phases[a.c].at);
    } else {
      ForceRecheckIs(s, a.c, s.phases[a.c].host, s.phases[a.c].failed, s.phases[a.c].at);
    }
    OneStaysAttached(s, a.c, Next(s, a));
  }

  lemma ReadStaysAttached(s: State, c: Client, readable: bool)
    requires Inv(s) && Attached(s) && Enabled(s, ReadStrict(c, readable))
    ensures Attached(Next(s, ReadStrict(c, readable)))
  {
    assert OnDisk(s, s.phases[c]);
    OneStaysAttached(s, c, Next(s, ReadStrict(c, readable)));
  }

  lemma ExchangeStaysAttached(s: State, c: Client, outcome: Outcome)
    requires Inv(s) && Attached(s) && Enabled(s, Exchange(c, outcome))
    ensures Attached(Next(s, Exchange(c, outcome)))
  {
    assert OnDisk(s, s.phases[c]);
    OneStaysAttached(s, c, Next(s, Exchange(c, outcome)));
  }

  lemma MarkStaysAttached(s: State, c: Client)
    requires Inv(s) && Attached(s) && Enabled(s, AdoptOrMark(c))
    ensures Attached(Next(s, AdoptOrMark(c)))
  {
    OneStaysAttached(s, c, Next(s, AdoptOrMark(c)));
  }

  lemma FileStaysAttached(s: State, a: Action)
    requires Inv(s) && Attached(s) && Enabled(s, a)
    requires a.Persist? || a.LoginRead? || a.WriteRead? || a.Write? || a.Unlock?
    ensures Attached(Next(s, a))
  {
    assert s.fileLock == Some(a.c) && PhaseOk(s, a.c, s.phases[a.c]);
    OneStaysAttached(s, a.c, Next(s, a));
  }

  lemma StepStaysAttached(s: State, a: Action)
    requires Inv(s) && Attached(s) && Enabled(s, a) && Guarded(s, a)
    ensures Attached(Next(s, a))
  {
    if a.EnsureCall? || a.ForceCall? || a.LoginCall? || a.WriteCall? || a.Lock? {
      CallStaysAttached(s, a);
    } else if a.EnsureReread? || a.ForceReread? {
      DecisionStaysAttached(s, a);
    } else if a.ReadStrict? {
      ReadStaysAttached(s, a.c, a.readable);
    } else if a.Exchange? {
      ExchangeStaysAttached(s, a.c, a.outcome);
    } else if a.AdoptOrMark? {
      MarkStaysAttached(s, a.c);
    } else if !a.Tick? && !a.Revoke? {
      FileStaysAttached(s, a);
    }
  }

  lemma {:induction false} RunStaysAttached(s: State, actions: seq<Action>)
    requires Inv(s) && Attached(s) && IsGuardedRun(s, actions)
    ensures IsRun(s, actions) && Inv(After(s, actions)) && Attached(After(s, actions))
    decreases |actions|
  {
    if actions != [] {
      StepKeepsInv(s, actions[0]);
      StepStaysAttached(s, actions[0]);
      RunStaysAttached(Next(s, actions[0]), actions[1..]);
    }
  }

  /** With the file lock, every exchange of every thread and process presents the server's current
      token, and never one whose successor was stored before. */
  lemma ExchangesPresentTheCurrentToken(f: File, actions: seq<Action>, c: Client)
    requires NoCreds(f) && IsGuardedRun(Initial(f), actions)
    requires IsRun(Initial(f), actions) && PhaseOf(After(Initial(f), actions), c).Exchanging?
    ensures var s := After(Initial(f), actions); var tok := s.phases[c].cred.tok;
      Current(s, tok) && Tok(tok.grant, tok.n + 1) !in s.stored
  {
    RunStaysAttached(Initial(f), actions);
    var s := After(Initial(f), actions);
    assert s.fileLock == Some(c) && PhaseOk(s, c, s.phases[c]) && OnDisk(s, s.phases[c]);
    assert CredOk(s, s.phases[c].host, s.phases[c].cred.tok);
  }

  /** What is stored follows the server's rotation chain: the next token of the grant on disk, or the
      first of a new one; and storing it leaves every other host's block as it is on disk. */
  lemma StoredTokensFollowTheChain(f: File, actions: seq<Action>, c: Client)
    requires NoCreds(f) && IsGuardedRun(Initial(f), actions) && IsRun(Initial(f), actions)
    requires Enabled(After(Initial(f), actions), Persist(c))
    ensures var s := After(Initial(f), actions); var u := Next(s, Persist(c)); var p := s.phases[c];
      && Load(u.file, p.host) == Some(p.cred) && Current(u, p.cred.tok)
      && (0 < p.cred.tok.n ==> Load(s.file, p.host).Some? && Load(s.file, p.host).value.tok == Tok(p.cred.tok.grant, p.cred.tok.n - 1))
      && u.file.hosts.Keys == s.file.hosts.Keys + {p.host}
      && (forall h :: h in s.file.hosts && h != p.host ==> u.file.hosts[h] == s.file.hosts[h])
      && (p.host in s.file.hosts ==> u.file.hosts[p.host].rest == s.file.hosts[p.host].rest)
  {
    RunStaysAttached(Initial(f), actions);
    var s := After(Initial(f), actions);
    PersistedIsCurrent(s, c);
    assert s.fileLock == Some(c) && PhaseOk(s, c, s.phases[c]) && OnDisk(s, s.phases[c]);
  }

  // ----- Without the file lock: verdicts about dead grants -----

  /** `reauth_required`: the grant on disk is the one this process marked dead. */
  predicate NeedsLogin(s: State, process: nat, host: nat) {
    Load(s.file, host).Some? && IsDead(s, Key(process, host), Load(s.file, host).value)
  }

  ghost predicate AllStored(s: State, f: File) {
    forall h :: h in f.hosts && f.hosts[h].cred.Some? ==> f.hosts[h].cred.value.tok in s.stored
  }

  /** A token the server issued to a client that has not stored it yet. */
  predicate Fresh(s: State, tok: Tok) {
    Known(s, tok) && tok !in s.stored
  }

  function PendingTok(p: Phase): Option<Tok> {
    if p.Persisting? || p.LoginWaiting? || p.LoginLocked? then Some(p.cred.tok) else None
  }

  ghost predicate TokensOk(s: State, c: Client, p: Phase) {
    match p
    case EnsureWaiting(_, cred, _) => cred.tok in s.stored
    case EnsureLocked(_, cred, _) => cred.tok in s.stored
    case Rotating(host, cred) => cred.tok in s.stored && !IsDead(s, Key(c.process, host), cred)
    case Exchanging(host, cred, raw, _) =>
      cred.tok in s.stored && !IsDead(s, Key(c.process, host), cred) && AllStored(s, raw)
    case Rejected(_, cred) => cred.tok in s.rejected
    case Persisting(_, cred, raw) => Fresh(s, cred.tok) && AllStored(s, raw)
    case LoginWaiting(_, cred) => Fresh(s, cred.tok)
    case LoginLocked(_, cred) => Fresh(s, cred.tok)
    case Writing(raw) => AllStored(s, raw)
    case _ => true
  }

  ghost predicate MarksOk(s: State) {
    && (forall k :: k in s.dead ==> s.dead[k] in s.rejected)
    && s.rejected <= s.stored && (forall tok :: tok in s.stored ==> Known(s, tok))
    && AllStored(s, s.file)
  }

  ghost predicate PendingDiffer(s: State) {
    forall c, d :: c in s.phases && d in s.phases && c != d && PendingTok(s.phases[c]).Some? ==>
      PendingTok(s.phases[c]) != PendingTok(s.phases[d])
  }

  ghost predicate OnePerProcess(s: State) {
    forall c :: c in s.phases && InSection(s.phases[c]) ==> c.process in s.inLock && s.inLock[c.process] == c
  }

  ghost predicate TokenInv(s: State) {
    && MarksOk(s) && PendingDiffer(s) && OnePerProcess(s)
    && forall c :: c in s.phases ==> TokensOk(s, c, s.phases[c])
  }

  /** A step of client `c` that changes no tokens in hand but its own, and no marks but its process's. */
  ghost predicate Local(s: State, c: Client, u: State) {
    && u.file == s.file && u.grants == s.grants && u.stored == s.stored && u.inLock == s.inLock
    && s.rejected <= u.rejected <= u.stored
    && (c in u.phases ==> u.phases == s.phases[c := u.phases[c]])
    && (c !in u.phases ==> u.phases == s.phases)
    && PendingTok(PhaseOf(u, c)) == PendingTok(PhaseOf(s, c))
    && (InSection(PhaseOf(u, c)) ==> InSection(PhaseOf(s, c)))
    && (forall k :: k in u.dead ==> u.dead[k] in u.rejected)
    && (u.dead != s.dead ==> InSection(PhaseOf(s, c)))
    && forall k :: k in u.dead && k.process != c.process ==> k in s.dead && s.dead[k] == u.dead[k]
  }

  /** What a client has in hand stays right while another takes a step. */
  lemma TokensStay(s: State, u: State, c: Client, p: Phase)
    requires TokensOk(s, c, p) && s.stored <= u.stored && s.rejected <= u.rejected
    requires forall tok :: Known(s, tok) ==> Known(u, tok)
    requires forall k :: k in u.dead ==> k in s.dead && s.dead[k] == u.dead[k]
    requires PendingTok(p).Some? ==> PendingTok(p).value !in u.stored
    ensures TokensOk(u, c, p)
  {}

  lemma LocalKeepsTokens(s: State, c: Client, u: State)
    requires TokenInv(s) && Local(s, c, u) && (c in u.phases ==> TokensOk(u, c, u.phases[c]))
    ensures TokenInv(u)
  {
    forall d | d in u.phases ensures TokensOk(u, d, u.phases[d]) {
      if d != c {
        assert TokensOk(s, d, s.phases[d]);
      }
    }
  }

  lemma EnsureKeepsTokens(s: State, c: Client, host: nat, given: Option<Block>)
    requires TokenInv(s) && Enabled(s, EnsureCall(c, host, given))
    ensures TokenInv(Ensure(s, c, host, given))
  {
    var u := Ensure(s, c, host, given);
    EnsureIs(s, c, host, given);
    LocalKeepsTokens(s, c, u);
  }

  lemma RecheckKeepsTokens(s: State, c: Client)
    requires TokenInv(s) && Enabled(s, EnsureReread(c))
    ensures TokenInv(Next(s, EnsureReread(c)))
  {
    assert TokensOk(s, c, s.phases[c]);
    RecheckIs(s, c, s.phases[c].host, s.phases[c].cred, s.phases[c].at);
    LocalKeepsTokens(s, c, Next(s, EnsureReread(c)));
  }

  lemma ForceKeepsTokens(s: State, c: Client)
    requires TokenInv(s) && Enabled(s, ForceReread(c))
    ensures TokenInv(Next(s, ForceReread(c)))
  {
    ForceRecheckIs(s, c, s.phases[c].host, s.phases[c].failed, s.phases[c].at);
    LocalKeepsTokens(s, c, Next(s, ForceReread(c)));
  }

  lemma ReadKeepsTokens(s: State, c: Client, readable: bool)
    requires TokenInv(s) && Enabled(s, ReadStrict(c, readable))
    ensures TokenInv(Next(s, ReadStrict(c, readable)))
  {
    assert TokensOk(s, c, s.phases[c]);
    LocalKeepsTokens(s, c, Next(s, ReadStrict(c, readable)));
  }

  lemma WriteReadKeepsTokens(s: State, c: Client)
    requires TokenInv(s) && Enabled(s, WriteRead(c))
    ensures TokenInv(Next(s, WriteRead(c)))
  {
    LocalKeepsTokens(s, c, Next(s, WriteRead(c)));
  }

  lemma MarkKeepsTokens(s: State, c: Client)
    requires TokenInv(s) && Enabled(s, AdoptOrMark(c))
    ensures TokenInv(Next(s, AdoptOrMark(c)))
  {
    assert TokensOk(s, c, s.phases[c]);
    AdoptIs(s, c, s.phases[c].host, s.phases[c].cred);
    LocalKeepsTokens(s, c, Next(s, AdoptOrMark(c)));
  }

  lemma ExchangeKeepsTokens(s: State, c: Client, outcome: Outcome)
    requires TokenInv(s) && Enabled(s, Exchange(c, outcome))
    ensures TokenInv(Next(s, Exchange(c, outcome)))
  {
    assert TokensOk(s, c, s.phases[c]);
    if outcome.Rotated? {
      RotationKeepsTokens(s, c, outcome.expires);
    } else {
      LocalKeepsTokens(s, c, Next(s, Exchange(c, outcome)));
    }
  }

  lemma RotationKeepsTokens(s: State, c: Client, expires: int)
    requires TokenInv(s) && Enabled(s, Exchange(c, Rotated(expires)))
    ensures TokenInv(Next(s, Exchange(c, Rotated(expires))))
  {
    var u := Next(s, Exchange(c, Rotated(expires)));
    assert TokensOk(s, c, s.phases[c]);
    forall d | d in u.phases ensures TokensOk(u, d, u.phases[d]) {
      assert d != c ==> TokensOk(s, d, s.phases[d]);
    }
    PendingAreKnown(s);
  }

  lemma PendingAreKnown(s: State)
    requires TokenInv(s)
    ensures forall d :: d in s.phases && PendingTok(s.phases[d]).Some? ==> Known(s, PendingTok(s.phases[d]).value)
  {
    forall d | d in s.phases && PendingTok(s.phases[d]).Some? ensures Known(s, PendingTok(s.phases[d]).value) {
      assert TokensOk(s, d, s.phases[d]);
    }
  }

  lemma LoginCallKeepsTokens(s: State, c: Client, host: nat, grant: nat, expires: int)
    requires TokenInv(s) && Enabled(s, LoginCall(c, host, grant, expires))
    ensures TokenInv(Next(s, LoginCall(c, host, grant, expires)))
  {
    var u := Next(s, LoginCall(c, host, grant, expires));
    forall d | d in u.phases ensures TokensOk(u, d, u.phases[d]) {
      assert d != c ==> TokensOk(s, d, s.phases[d]);
    }
    PendingAreKnown(s);
  }

  lemma LoginReadKeepsTokens(s: State, c: Client, root: nat)
    requires TokenInv(s) && Enabled(s, LoginRead(c, root))
    ensures TokenInv(Next(s, LoginRead(c, root)))
  {
    assert TokensOk(s, c, s.phases[c]);
    LocalKeepsTokens(s, c, Next(s, LoginRead(c, root)));
  }

  lemma LockKeepsTokens(s: State, c: Client, both: bool)
    requires TokenInv(s) && Enabled(s, Lock(c, both))
    ensures TokenInv(Next(s, Lock(c, both)))
  {
    var u := Next(s, Lock(c, both));
    assert TokensOk(s, c, s.phases[c]);
    forall d | d in u.phases ensures TokensOk(u, d, u.phases[d]) {
      assert d != c ==> TokensOk(s, d, s.phases[d]);
    }
  }

  lemma UnlockKeepsTokens(s: State, c: Client)
    requires TokenInv(s) && Enabled(s, Unlock(c))
    ensures TokenInv(Next(s, Unlock(c)))
  {
    var u := Next(s, Unlock(c));
    forall d | d in u.phases ensures TokensOk(u, d, u.phases[d]) {
      assert d != c ==> TokensOk(s, d, s.phases[d]);
    }
  }

  lemma WriteKeepsTokens(s: State, c: Client, out: File)
    requires TokenInv(s) && Enabled(s, Write(c, out))
    ensures TokenInv(Next(s, Write(c, out)))
  {
    var u := Next(s, Write(c, out));
    assert TokensOk(s, c, s.phases[c]);
    forall d | d in u.phases ensures TokensOk(u, d, u.phases[d]) {
      assert d != c ==> TokensOk(s, d, s.phases[d]);
    }
  }

  lemma PersistKeepsTokens(s: State, c: Client)
    requires TokenInv(s) && Enabled(s, Persist(c))
    ensures TokenInv(Next(s, Persist(c)))
  {
    var u := Next(s, Persist(c));
    assert TokensOk(s, c, s.phases[c]);
    forall d | d in u.phases ensures TokensOk(u, d, u.phases[d]) {
      if d != c {
        assert TokensOk(s, d, s.phases[d]);
        TokensStay(s, u, d, s.phases[d]);
      }
    }
  }

  lemma CallKeepsTokens(s: State, a: Action)
    requires TokenInv(s) && Enabled(s, a) && (a.Tick? || a.Revoke? || a.ForceCall? || a.WriteCall?)
    ensures TokenInv(Next(s, a))
  {
    LocalKeepsTokens(s, if a.ForceCall? || a.WriteCall? then a.c else Client(0, 0), Next(s, a));
  }

  lemma StepKeepsTokens(s: State, a: Action)
    requires TokenInv(s) && Enabled(s, a)
    ensures TokenInv(Next(s, a))
  {
    match a
    case Tick(_) => CallKeepsTokens(s, a);
    case Revoke(_) => CallKeepsTokens(s, a);
    case ForceCall(_, _, _) => CallKeepsTokens(s, a);
    case WriteCall(_) => CallKeepsTokens(s, a);
    case EnsureCall(c, host, given) => EnsureKeepsTokens(s, c, host, given);
    case LoginCall(c, host, grant, expires) => LoginCallKeepsTokens(s, c, host, grant, expires);
    case LoginRead(c, root) => LoginReadKeepsTokens(s, c, root);
    case Lock(c, both) => LockKeepsTokens(s, c, both);
    case Unlock(c) => UnlockKeepsTokens(s, c);
    case Write(c, out) => WriteKeepsTokens(s, c, out);
    case AdoptOrMark(c) => MarkKeepsTokens(s, c);
    case Exchange(c, outcome) => ExchangeKeepsTokens(s, c, outcome);
    case Persist(c) => PersistKeepsTokens(s, c);
    case EnsureReread(c) => RecheckKeepsTokens(s, c);
    case ForceReread(c) => ForceKeepsTokens(s, c);
    case ReadStrict(c, readable) => ReadKeepsTokens(s, c, readable);
    case WriteRead(c) => WriteReadKeepsTokens(s, c);
  }

  lemma {:induction false} RunKeepsTokens(s: State, actions: seq<Action>)
    requires TokenInv(s) && IsRun(s, actions)
    ensures TokenInv(After(s, actions))
    decreases |actions|
  {
    if actions != [] {
      StepKeepsTokens(s, actions[0]);
      RunKeepsTokens(Next(s, actions[0]), actions[1..]);
    }
  }

  /** Whatever the locks: a token is marked dead only if the server rejected it for good, and a client
      about to exchange a token never has it marked in its process. */
  lemma DeadVerdictsAreSound(f: File, actions: seq<Action>, process: nat, host: nat, c: Client)
    requires NoCreds(f) && IsRun(Initial(f), actions)
    ensures var s := After(Initial(f), actions);
      && (Key(process, host) in s.dead ==> s.dead[Key(process, host)] in s.rejected)
      && (NeedsLogin(s, process, host) ==> Load(s.file, host).value.tok in s.rejected)
      && (PhaseOf(s, c).Exchanging? ==>
            var k := Key(c.process, s.phases[c].host); k in s.dead ==> s.dead[k] != s.phases[c].cred.tok)
  {
    RunKeepsTokens(Initial(f), actions);
    var s := After(Initial(f), actions);
    if c in s.phases {
      assert TokensOk(s, c, s.phases[c]);
    }
  }

  /** Storing a rotation or a login clears the mark in its own process, and makes every process's mark
      for the host miss: none asks for a login until the server rejects the new token. */
  lemma StoringRevivesTheGrant(f: File, actions: seq<Action>, c: Client, process: nat)
    requires NoCreds(f) && IsRun(Initial(f), actions) && Enabled(After(Initial(f), actions), Persist(c))
    ensures var s := After(Initial(f), actions); var u := Next(s, Persist(c)); var p := s.phases[c];
      && Key(c.process, p.host) !in u.dead && p.cred.tok !in u.rejected
      && Load(u.file, p.host) == Some(p.cred) && !NeedsLogin(u, process, p.host)
  {
    RunKeepsTokens(Initial(f), actions);
    var s := After(Initial(f), actions);
    assert TokensOk(s, c, s.phases[c]);
  }

  // ----- A block deleted during a refresh -----

  /** An issued token that may not be stored yet: of a login that still waits to store it, or of the
      exchange whose result is being stored. */
  predicate Unsaved(s: State, tok: Tok) {
    (tok.grant in s.grants && s.grants[tok.grant].login.Some?)
    || (s.fileLock.Some? && PhaseOf(s, s.fileLock.value).Persisting? && PhaseOf(s, s.fileLock.value).cred.tok == tok)
  }

  /** With the file lock, every other token the server ever issued was stored. */
  ghost predicate IssuedOk(s: State) {
    forall tok :: Known(s, tok) ==> tok in s.stored || Unsaved(s, tok)
  }

  lemma QuietKeepsIssued(s: State, u: State)
    requires IssuedOk(s) && u.grants == s.grants && u.stored == s.stored
    requires forall tok :: Unsaved(s, tok) ==> Unsaved(u, tok)
    ensures IssuedOk(u)
  {
    forall tok | Known(u, tok) ensures tok in u.stored || Unsaved(u, tok) {
      assert Known(s, tok);
    }
  }

  lemma LoginKeepsIssued(s: State, c: Client, host: nat, grant: nat, expires: int)
    requires Inv(s) && IssuedOk(s) && Enabled(s, LoginCall(c, host, grant, expires))
    ensures IssuedOk(Next(s, LoginCall(c, host, grant, expires)))
  {
    var u := Next(s, LoginCall(c, host, grant, expires));
    forall tok | Known(u, tok) ensures tok in u.stored || Unsaved(u, tok) {
      if tok.grant != grant {
        assert Known(s, tok);
        assert s.fileLock != Some(c) || !PhaseOf(s, c).Persisting?;
      }
    }
  }

  lemma RotationKeepsIssued(s: State, c: Client, expires: int)
    requires Inv(s) && IssuedOk(s) && Enabled(s, Exchange(c, Rotated(expires)))
    ensures IssuedOk(Next(s, Exchange(c, Rotated(expires))))
  {
    var u, presented := Next(s, Exchange(c, Rotated(expires))), s.phases[c].cred.tok;
    assert s.fileLock == Some(c);
    forall tok | Known(u, tok) ensures tok in u.stored || Unsaved(u, tok) {
      assert Known(s, tok) || tok == Tok(presented.grant, presented.n + 1);
    }
  }

  lemma PersistKeepsIssued(s: State, c: Client)
    requires Inv(s) && IssuedOk(s) && Enabled(s, Persist(c))
    ensures IssuedOk(Next(s, Persist(c)))
  {
    PersistedIsCurrent(s, c);
    var u, p := Next(s, Persist(c)), s.phases[c];
    assert s.fileLock == Some(c) && PhaseOk(s, c, p);
    forall tok | Known(u, tok) ensures tok in u.stored || Unsaved(u, tok) {
      assert Known(s, tok);
    }
  }

  lemma DecisionKeepsIssued(s: State, a: Action)
    requires IssuedOk(s) && Enabled(s, a) && (a.EnsureCall? || a.EnsureReread? || a.ForceReread?)
    ensures IssuedOk(Next(s, a))
  {
    match a
    case EnsureCall(c, host, given) => EnsureIs(s, c, host, given);
    case EnsureReread(c) => RecheckIs(s, c, s.phases[c].host, s.phases[c].cred, s.phases[c].at);
    case ForceReread(c) => ForceRecheckIs(s, c, s.phases[c].host, s.phases[c].failed, s.phases[c].at);
    QuietKeepsIssued(s, Next(s, a));
  }

  lemma SectionKeepsIssued(s: State, a: Action)
    requires Inv(s) && IssuedOk(s) && Enabled(s, a) && TakesBoth(a)
    requires a.Lock? || a.Unlock? || a.Write? || a.WriteRead? || a.LoginRead?
    ensures IssuedOk(Next(s, a))
  {
    QuietKeepsIssued(s, Next(s, a));
  }

  lemma CallsKeepIssued(s: State, a: Action)
    requires IssuedOk(s) && Enabled(s, a) && (a.Tick? || a.Revoke? || a.ForceCall? || a.WriteCall?)
    ensures IssuedOk(Next(s, a))
  {
    QuietKeepsIssued(s, Next(s, a));
  }

  lemma FailureKeepsIssued(s: State, c: Client, outcome: Outcome)
    requires IssuedOk(s) && Enabled(s, Exchange(c, outcome)) && !outcome.Rotated?
    ensures IssuedOk(Next(s, Exchange(c, outcome)))
  {
    QuietKeepsIssued(s, Next(s, Exchange(c, outcome)));
  }

  lemma ReadKeepsIssued(s: State, c: Client, readable: bool)
    requires IssuedOk(s) && Enabled(s, ReadStrict(c, readable))
    ensures IssuedOk(Next(s, ReadStrict(c, readable)))
  {
    QuietKeepsIssued(s, Next(s, ReadStrict(c, readable)));
  }

  lemma MarkKeepsIssued(s: State, c: Client)
    requires IssuedOk(s) && Enabled(s, AdoptOrMark(c))
    ensures IssuedOk(Next(s, AdoptOrMark(c)))
  {
    QuietKeepsIssued(s, Next(s, AdoptOrMark(c)));
  }

  lemma StepKeepsIssued(s: State, a: Action)
    requires Inv(s) && IssuedOk(s) && Enabled(s, a) && TakesBoth(a)
    ensures IssuedOk(Next(s, a))
  {
    if a.LoginCall? {
      LoginKeepsIssued(s, a.c, a.host, a.grant, a.expires);
    } else if a.Persist? {
      PersistKeepsIssued(s, a.c);
    } else if a.Exchange? {
      if a.outcome.Rotated? {
        RotationKeepsIssued(s, a.c, a.outcome.expires);
      } else {
        FailureKeepsIssued(s, a.c, a.outcome);
      }
    } else if a.ReadStrict? {
      ReadKeepsIssued(s, a.c, a.readable);
    } else if a.AdoptOrMark? {
      MarkKeepsIssued(s, a.c);
    } else if a.EnsureCall? || a.EnsureReread? || a.ForceReread? {
      DecisionKeepsIssued(s, a);
    } else if a.Lock? || a.Unlock? || a.Write? || a.WriteRead? || a.LoginRead? {
      SectionKeepsIssued(s, a);
    } else {
      CallsKeepIssued(s, a);
    }
  }

  lemma {:induction false} RunKeepsIssued(s: State, actions: seq<Action>)
    requires Inv(s) && IssuedOk(s) && IsRun(s, actions) && AllLocked(actions)
    ensures Inv(After(s, actions)) && IssuedOk(After(s, actions))
    decreases |actions|
  {
    if actions != [] {
      StepKeepsInv(s, actions[0]);
      StepKeepsIssued(s, actions[0]);
      RunKeepsIssued(Next(s, actions[0]), actions[1..]);
    }
  }

  /** With the file lock, whatever blocks are deleted: an exchange presents the current token exactly
      when its host's block is there, or no successor of what was read before the locks was stored. */
  lemma ExchangeIsCurrentIff(f: File, actions: seq<Action>, c: Client)
    requires NoCreds(f) && IsRun(Initial(f), actions) && AllLocked(actions)
    requires PhaseOf(After(Initial(f), actions), c).Exchanging?
    ensures var s := After(Initial(f), actions); var p := s.phases[c];
      Current(s, p.cred.tok) <==> Load(s.file, p.host).Some? || Tok(p.cred.tok.grant, p.cred.tok.n + 1) !in s.stored
  {
    RunKeepsIssued(Initial(f), actions);
    var s := After(Initial(f), actions);
    assert s.fileLock == Some(c) && PhaseOk(s, c, s.phases[c]);
    CurrentUnlessHidden(s, s.phases[c].host, s.phases[c].cred);
  }

  lemma CurrentUnlessHidden(s: State, host: nat, cred: Cred)
    requires Inv(s) && IssuedOk(s) && FromDisk(s, host, cred)
    requires s.fileLock.Some? ==> !PhaseOf(s, s.fileLock.value).Persisting?
    ensures Current(s, cred.tok) <==> Load(s.file, host).Some? || Tok(cred.tok.grant, cred.tok.n + 1) !in s.stored
  {
    if Load(s.file, host).Some? {
      assert CredOk(s, host, cred.tok);
    } else {
      CurrentUnlessSucceeded(s, cred.tok);
    }
  }

  /** So it is decided at the reread, by what was read before the locks. */
  lemma RereadIsCurrentIff(f: File, actions: seq<Action>, c: Client)
    requires NoCreds(f) && IsRun(Initial(f), actions) && AllLocked(actions)
    requires Enabled(After(Initial(f), actions), EnsureReread(c))
    requires PhaseOf(Next(After(Initial(f), actions), EnsureReread(c)), c).Rotating?
    ensures var s := After(Initial(f), actions); var u := Next(s, EnsureReread(c));
      var read := s.phases[c].cred.tok;
      Current(u, u.phases[c].cred.tok) <==>
        Load(s.file, s.phases[c].host).Some? || Tok(read.grant, read.n + 1) !in s.stored
  {
    RunKeepsIssued(Initial(f), actions);
    var s := After(Initial(f), actions);
    var p := s.phases[c];
    assert s.fileLock == Some(c) && PhaseOk(s, c, p);
    RecheckIs(s, c, p.host, p.cred, p.at);
    CurrentUnlessHidden(s, p.host, if Load(s.file, p.host).Some? then Load(s.file, p.host).value else p.cred);
  }

  /** While nothing waits to be stored, a stored token is current unless its successor was stored. */
  lemma CurrentUnlessSucceeded(s: State, tok: Tok)
    requires Inv(s) && IssuedOk(s) && tok in s.stored
    requires s.fileLock.Some? ==> !PhaseOf(s, s.fileLock.value).Persisting?
    ensures Current(s, tok) <==> Tok(tok.grant, tok.n + 1) !in s.stored
  {
    assert Known(s, tok);
    if !Current(s, tok) {
      assert Known(s, Tok(tok.grant, tok.n + 1));
      assert !Unsaved(s, Tok(tok.grant, tok.n + 1));
    }
  }

  /** Reached from a file without credentials, the file lock held wherever locks are. */
  ghost predicate Reached(s: State) {
    exists actions :: IsRun(Initial(File(map[], 0)), actions) && AllLocked(actions)
                      && After(Initial(File(map[], 0)), actions) == s
  }

  lemma {:induction false} OneMore(s: State, actions: seq<Action>, a: Action)
    requires IsRun(s, actions) && Enabled(After(s, actions), a)
    ensures IsRun(s, actions + [a]) && After(s, actions + [a]) == Next(After(s, actions), a)
    decreases |actions|
  {
    if actions == [] {
      assert (actions + [a])[1..] == [];
    } else {
      OneMore(Next(s, actions[0]), actions[1..], a);
      assert (actions + [a])[1..] == actions[1..] + [a];
    }
  }

  lemma Step(s: State, a: Action) returns (u: State)
    requires Reached(s) && Enabled(s, a) && (a.Lock? ==> a.both)
    ensures Reached(u) && u == Next(s, a)
  {
    u := Next(s, a);
    var actions :| IsRun(Initial(File(map[], 0)), actions) && AllLocked(actions)
                   && After(Initial(File(map[], 0)), actions) == s;
    OneMore(Initial(File(map[], 0)), actions, a);
    assert AllLocked(actions + [a]);
  }

  /** Nothing failed so far, the locks are held by `holder` only, and the one grant has rotated `head` times. */
  ghost predicate Calm(s: State, head: nat, holder: Option<Client>) {
    && s.fileLock == holder && s.now == 0
    && (forall process :: process in s.inLock ==> holder.Some? && process == holder.value.process)
    && (forall g :: g !in s.revoked) && (forall k :: k !in s.dead && k !in s.failedAt)
    && 0 in s.grants && s.grants[0].host == 0 && s.grants[0].head == head
  }

  lemma LoginCallRun(c: Client, d: Client) returns (s: State)
    requires c != d
    ensures Reached(s) && Calm(s, 0, None) && PhaseOf(s, d).Idle?
    ensures PhaseOf(s, c) == LoginWaiting(0, Cred(Tok(0, 0), 0)) && s.file == File(map[], 0) && s.expiry == map[]
  {
    s := Initial(File(map[], 0));
    assert IsRun(s, []) && After(s, []) == s && AllLocked([]);
    s := Step(s, LoginCall(c, 0, 0, 0));
  }

  lemma LoginRun(c: Client, d: Client) returns (s: State)
    requires c != d
    ensures Reached(s) && Calm(s, 0, Some(c)) && PhaseOf(s, d).Idle?
    ensures PhaseOf(s, c) == Persisting(0, Cred(Tok(0, 0), 0), File(map[], 0)) && s.expiry == map[]
  {
    s := LoginCallRun(c, d);
    s := Step(s, Lock(c, true));
    s := Step(s, LoginRead(c, 0));
  }

  lemma StoreRun(c: Client, d: Client) returns (s: State)
    requires c.process != d.process
    ensures Reached(s) && Calm(s, 0, None) && PhaseOf(s, c).Idle? && PhaseOf(s, d).Idle?
    ensures Load(s.file, 0) == Some(Cred(Tok(0, 0), 0)) && s.expiry == map[Key(c.process, 0) := Cred(Tok(0, 0), 0)]
  {
    s := LoginRun(c, d);
    s := Step(s, Persist(c));
    s := Step(s, Unlock(c));
  }

  lemma WaitRun(c: Client, d: Client) returns (s: State)
    requires c.process != d.process
    ensures Reached(s) && Calm(s, 0, None) && PhaseOf(s, c).Idle? && PhaseOf(s, d) == EnsureWaiting(0, Cred(Tok(0, 0), 0), 0)
    ensures Load(s.file, 0) == Some(Cred(Tok(0, 0), 0)) && (forall k :: k in s.expiry ==> s.expiry[k].tok == Tok(0, 0))
  {
    s := StoreRun(c, d);
    assert Key(d.process, 0) !in s.expiry;
    s := Step(s, EnsureCall(d, 0, None));
  }

  lemma ForceLockRun(c: Client, d: Client) returns (s: State)
    requires c.process != d.process
    ensures Reached(s) && Calm(s, 0, Some(c)) && PhaseOf(s, d) == EnsureWaiting(0, Cred(Tok(0, 0), 0), 0)
    ensures PhaseOf(s, c) == ForceLocked(0, None, 0) && Load(s.file, 0) == Some(Cred(Tok(0, 0), 0))
    ensures forall k :: k in s.expiry ==> s.expiry[k].tok == Tok(0, 0)
  {
    s := WaitRun(c, d);
    s := Step(s, ForceCall(c, 0, None));
    s := Step(s, Lock(c, true));
  }

  /** While `d` waits with what it read, `c` goes on to rotate the token. */
  lemma ForceRun(c: Client, d: Client) returns (s: State)
    requires c.process != d.process
    ensures Reached(s) && Calm(s, 0, Some(c)) && PhaseOf(s, d) == EnsureWaiting(0, Cred(Tok(0, 0), 0), 0)
    ensures PhaseOf(s, c) == Rotating(0, Cred(Tok(0, 0), 0))
  {
    s := ForceLockRun(c, d);
    s := Step(s, ForceReread(c));
  }

  lemma ExchangeRun(c: Client, d: Client) returns (s: State)
    requires c.process != d.process
    ensures Reached(s) && Calm(s, 1, Some(c)) && PhaseOf(s, d) == EnsureWaiting(0, Cred(Tok(0, 0), 0), 0)
    ensures PhaseOf(s, c).Persisting? && s.phases[c].host == 0 && s.phases[c].cred.tok == Tok(0, 1)
  {
    s := ForceRun(c, d);
    s := Step(s, ReadStrict(c, true));
    s := Step(s, Exchange(c, Rotated(0)));
  }

  lemma RotationRun(c: Client, d: Client) returns (s: State)
    requires c.process != d.process
    ensures Reached(s) && Calm(s, 1, None) && PhaseOf(s, c).Idle? && PhaseOf(s, d) == EnsureWaiting(0, Cred(Tok(0, 0), 0), 0)
  {
    s := ExchangeRun(c, d);
    s := Step(s, Persist(c));
    s := Step(s, Unlock(c));
  }

  lemma DeletionLockRun(c: Client, d: Client) returns (s: State)
    requires c.process != d.process
    ensures Reached(s) && Calm(s, 1, Some(c)) && PhaseOf(s, d) == EnsureWaiting(0, Cred(Tok(0, 0), 0), 0)
    ensures PhaseOf(s, c).WriteLocked?
  {
    s := RotationRun(c, d);
    s := Step(s, WriteCall(c));
    s := Step(s, Lock(c, true));
  }

  lemma DeletionRun(c: Client, d: Client) returns (s: State)
    requires c.process != d.process
    ensures Reached(s) && Calm(s, 1, None) && PhaseOf(s, d) == EnsureWaiting(0, Cred(Tok(0, 0), 0), 0)
    ensures s.file == File(map[], 0)
  {
    s := DeletionLockRun(c, d);
    s := Step(s, WriteRead(c));
    s := Step(s, Write(c, File(map[], 0)));
    s := Step(s, Unlock(c));
  }

  /** A block deleted while a refresh waits for the locks makes it present a token already exchanged. */
  lemma DeletedBlockReplays(c: Client, d: Client) returns (s: State)
    requires c.process != d.process
    ensures Reached(s) && PhaseOf(s, d).Exchanging? && !Current(s, s.phases[d].cred.tok)
  {
    s := DeletionRun(c, d);
    s := Step(s, Lock(d, true));
    s := Step(s, EnsureReread(d));
    assert s.phases[d] == Rotating(0, Cred(Tok(0, 0), 0));
    s := Step(s, ReadStrict(d, true));
  }

  // ----- One refresh undisturbed -----

  /** Some run goes from the one state to the other. */
  ghost predicate Leads(s: State, u: State) {
    exists actions :: IsRun(s, actions) && After(s, actions) == u
  }

  lemma LeadsOn(s: State, u: State, a: Action) returns (v: State)
    requires Leads(s, u) && Enabled(u, a)
    ensures v == Next(u, a) && Leads(s, v)
  {
    v := Next(u, a);
    var actions :| IsRun(s, actions) && After(s, actions) == u;
    OneMore(s, actions, a);
  }

  /** Nobody holds a lock that the client needs, and the token is good for an exchange. */
  predicate Undisturbed(s: State, c: Client, tok: Tok) {
    && PhaseOf(s, c).Idle? && s.fileLock.None? && c.process !in s.inLock
    && Current(s, tok) && tok.grant !in s.revoked
  }

  /** What a client with both locks and the given phase has not touched. */
  predicate Holds(s: State, c: Client, p: Phase, u: State) {
    && u.file == s.file && u.grants == s.grants && u.revoked == s.revoked && u.now == s.now
    && u.inLock == s.inLock[c.process := c] && u.fileLock == Some(c) && u.phases == s.phases[c := p]
    && u.dead == s.dead && u.failedAt == s.failedAt && u.rejected == s.rejected && u.stored == s.stored
  }

  /** No failure is 30 seconds young, and the token is not marked dead. */
  predicate NothingHeld(s: State, k: Key, tok: Tok) {
    (k in s.dead ==> s.dead[k] != tok) && (k in s.failedAt ==> 30 <= s.now - s.failedAt[k])
  }

  lemma EnsureWaits(s: State, u: State, c: Client, host: nat, cred: Cred) returns (v: State)
    requires Leads(s, u) && PhaseOf(u, c).Idle? && Load(u.file, host) == Some(cred) && cred.expires - 120 <= u.now
    requires var k := Key(c.process, host); (k in u.expiry ==> u.expiry[k].expires - 120 <= u.now) && NothingHeld(u, k, cred.tok)
    ensures Leads(s, v)
    ensures v == u.(expiry := u.expiry[Key(c.process, host) := cred], phases := u.phases[c := EnsureWaiting(host, cred, u.now)])
  {
    v := LeadsOn(s, u, EnsureCall(c, host, None));
    EnsureIff(u, c, host, None);
  }

  lemma EnsureRereads(s: State, u: State, c: Client, host: nat, cred: Cred) returns (v: State)
    requires Leads(s, u) && PhaseOf(u, c) == EnsureLocked(host, cred, u.now) && Load(u.file, host) == Some(cred)
    requires cred.expires - 120 <= u.now && NothingHeld(u, Key(c.process, host), cred.tok)
    ensures Leads(s, v) && v == u.(phases := u.phases[c := Rotating(host, cred)])
  {
    v := LeadsOn(s, u, EnsureReread(c));
    RecheckIff(u, c, host, cred, u.now);
  }

  lemma LockedBoth(s: State, u: State, c: Client, host: nat, cred: Cred) returns (v: State)
    requires Leads(s, u) && PhaseOf(u, c) == EnsureWaiting(host, cred, u.now) && c.process !in u.inLock && u.fileLock.None?
    ensures Leads(s, v)
    ensures v == u.(inLock := u.inLock[c.process := c], fileLock := Some(c), phases := u.phases[c := EnsureLocked(host, cred, u.now)])
  {
    v := LeadsOn(s, u, Lock(c, true));
  }

  /** `ensure_fresh_token` goes on to rotate the credential on disk when neither the cached nor that one is
      clear of its expiry by 120 seconds, it is not marked dead and no failure is 30 seconds young. */
  lemma EnsureRotates(s: State, c: Client, host: nat, cred: Cred) returns (u: State)
    requires Undisturbed(s, c, cred.tok) && Load(s.file, host) == Some(cred)
    requires var k := Key(c.process, host);
      && (k in s.expiry ==> s.expiry[k].expires - 120 <= s.now) && cred.expires - 120 <= s.now
      && (k in s.dead ==> s.dead[k] != cred.tok) && (k in s.failedAt ==> 30 <= s.now - s.failedAt[k])
    ensures Leads(s, u) && Holds(s, c, Rotating(host, cred), u) && u.expiry == s.expiry[Key(c.process, host) := cred]
  {
    assert IsRun(s, []) && After(s, []) == s;
    u := EnsureWaits(s, s, c, host, cred);
    u := LockedBoth(s, u, c, host, cred);
    u := EnsureRereads(s, u, c, host, cred);
  }

  lemma ForceWaits(s: State, c: Client, host: nat, failed: Option<Tok>) returns (u: State)
    requires PhaseOf(s, c).Idle? && s.fileLock.None? && c.process !in s.inLock
    ensures Leads(s, u) && Holds(s, c, ForceLocked(host, failed, s.now), u) && u.expiry == s.expiry
  {
    assert IsRun(s, []) && After(s, []) == s;
    u := LeadsOn(s, s, ForceCall(c, host, failed));
    u := LeadsOn(s, u, Lock(c, true));
  }

  /** So does `force_refresh_token`, whatever the expiry, with a token that neither failed nor was seen
      before as another. */
  lemma ForceRotates(s: State, c: Client, host: nat, failed: Option<Tok>, cred: Cred) returns (u: State)
    requires Undisturbed(s, c, cred.tok) && Load(s.file, host) == Some(cred)
    requires var k := Key(c.process, host);
      && (k in s.expiry ==> s.expiry[k].tok == cred.tok) && (failed.Some? ==> failed.value == cred.tok)
      && (k in s.dead ==> s.dead[k] != cred.tok) && (k in s.failedAt ==> 30 <= s.now - s.failedAt[k])
    ensures Leads(s, u) && Holds(s, c, Rotating(host, cred), u)
  {
    u := ForceWaits(s, c, host, failed);
    u := LeadsOn(s, u, ForceReread(c));
  }

  lemma ReadForExchange(s: State, u: State, c: Client, host: nat, cred: Cred) returns (v: State)
    requires Leads(s, u) && Holds(s, c, Rotating(host, cred), u)
    ensures Leads(s, v) && Holds(s, c, Exchanging(host, cred, s.file, false), v) && v.expiry == u.expiry
  {
    v := LeadsOn(s, u, ReadStrict(c, true));
  }

  lemma ExchangeSucceeds(s: State, u: State, c: Client, host: nat, cred: Cred, expires: int) returns (v: State)
    requires Leads(s, u) && Holds(s, c, Exchanging(host, cred, s.file, false), u) && Undisturbed(s, c, cred.tok)
    ensures Leads(s, v)
    ensures var next := Cred(Tok(cred.tok.grant, cred.tok.n + 1), expires);
      Holds(s.(grants := v.grants), c, Persisting(host, next, s.file), v) && Current(v, next.tok)
  {
    v := LeadsOn(s, u, Exchange(c, Rotated(expires)));
  }

  lemma PersistedThere(s: State, u: State, c: Client, host: nat, next: Cred) returns (v: State)
    requires Leads(s, u) && PhaseOf(u, c) == Persisting(host, next, s.file) && Current(u, next.tok)
    ensures Leads(s, v) && Current(v, next.tok)
    ensures var k := Key(c.process, host);
      v == u.(file := WithCred(s.file, host, next), grants := v.grants, expiry := u.expiry[k := next], dead := u.dead - {k},
              failedAt := u.failedAt - {k}, stored := u.stored + {next.tok}, phases := u.phases[c := Leaving])
  {
    v := LeadsOn(s, u, Persist(c));
  }

  lemma Released(s: State, u: State, c: Client) returns (v: State)
    requires Leads(s, u) && PhaseOf(u, c).Leaving? && u.fileLock == Some(c)
    ensures Leads(s, v) && v == u.(inLock := u.inLock - {c.process}, fileLock := None, phases := u.phases[c := Idle])
  {
    v := LeadsOn(s, u, Unlock(c));
  }

  /** From there the exchange that succeeds ends with the successor on disk and in the cache, nothing held
      against the host, and both locks free. */
  lemma RotationStores(s: State, u: State, c: Client, host: nat, cred: Cred, expires: int) returns (v: State)
    requires Leads(s, u) && Holds(s, c, Rotating(host, cred), u) && Undisturbed(s, c, cred.tok)
    ensures Leads(s, v) && PhaseOf(v, c).Idle? && v.fileLock.None? && v.inLock == s.inLock
    ensures var k, next := Key(c.process, host), Cred(Tok(cred.tok.grant, cred.tok.n + 1), expires);
      && v.file == WithCred(s.file, host, next) && Current(v, next.tok)
      && k in v.expiry && v.expiry[k] == next && v.dead == s.dead - {k} && v.failedAt == s.failedAt - {k}
      && v.stored == s.stored + {next.tok} && v.rejected == s.rejected
  {
    v := ReadForExchange(s, u, c, host, cred);
    v := ExchangeSucceeds(s, v, c, host, cred, expires);
    v := PersistedThere(s, v, c, host, Cred(Tok(cred.tok.grant, cred.tok.n + 1), expires));
    v := Released(s, v, c);
  }

  lemma ExchangeRejected(s: State, u: State, c: Client, host: nat, cred: Cred) returns (v: State)
    requires Leads(s, u) && Holds(s, c, Rotating(host, cred), u)
    ensures Leads(s, v) && Holds(s.(rejected := s.rejected + {cred.tok}), c, Rejected(host, cred), v)
  {
    v := ReadForExchange(s, u, c, host, cred);
    v := LeadsOn(s, v, Exchange(c, Permanent));
  }

  /** One that is rejected for good marks the token dead, and a login is asked for. */
  lemma RejectionMarks(s: State, u: State, c: Client, host: nat, cred: Cred) returns (v: State)
    requires Leads(s, u) && Holds(s, c, Rotating(host, cred), u) && Undisturbed(s, c, cred.tok)
    requires Load(s.file, host) == Some(cred)
    ensures Leads(s, v) && PhaseOf(v, c).Idle? && v.fileLock.None? && v.inLock == s.inLock
    ensures v.file == s.file && v.grants == s.grants && v.failedAt == s.failedAt && v.rejected == s.rejected + {cred.tok}
    ensures v.dead == s.dead[Key(c.process, host) := cred.tok] && NeedsLogin(v, c.process, host)
  {
    v := ExchangeRejected(s, u, c, host, cred);
    v := LeadsOn(s, v, AdoptOrMark(c));
    v := Released(s, v, c);
  }

  lemma ExchangeFails(s: State, u: State, c: Client, host: nat, cred: Cred) returns (v: State)
    requires Leads(s, u) && Holds(s, c, Rotating(host, cred), u)
    ensures Leads(s, v) && Holds(s.(failedAt := s.failedAt[Key(c.process, host) := s.now]), c, Leaving, v)
  {
    v := ReadForExchange(s, u, c, host, cred);
    v := LeadsOn(s, v, Exchange(c, Transient(true)));
    v := LeadsOn(s, v, Exchange(c, Transient(false)));
  }

  /** One that fails twice otherwise, or that finds the file unreadable, starts the cooldown. */
  lemma FailureCools(s: State, u: State, c: Client, host: nat, cred: Cred, readable: bool) returns (v: State)
    requires Leads(s, u) && Holds(s, c, Rotating(host, cred), u) && Undisturbed(s, c, cred.tok)
    ensures Leads(s, v) && PhaseOf(v, c).Idle? && v.fileLock.None? && v.inLock == s.inLock
    ensures v.file == s.file && v.grants == s.grants && v.dead == s.dead && v.rejected == s.rejected
    ensures v.failedAt == s.failedAt[Key(c.process, host) := s.now]
  {
    if readable {
      v := ExchangeFails(s, u, c, host, cred);
    } else {
      v := LeadsOn(s, u, ReadStrict(c, false));
    }
    v := Released(s, v, c);
  }

  // ----- Without the file lock -----

  /** Two processes of which one could not get the file lock: both go to exchange the token they read, and
      the one that comes second presents it after it was exchanged. */
  lemma FileLockIsNeeded(s: State, c: Client, d: Client, host: nat, cred: Cred, expires: int) returns (u: State)
    requires Undisturbed(s, c, cred.tok) && Undisturbed(s, d, cred.tok) && c.process != d.process
    requires Load(s.file, host) == Some(cred) && Ready(s, c, host, cred) && Ready(s, d, host, cred)
    ensures Leads(s, u) && PhaseOf(u, d).Exchanging? && u.phases[d].cred == cred && !Current(u, cred.tok)
  {
    u := EnsureRotates(s, c, host, cred);
    u := ReadForExchange(s, u, c, host, cred);
    u := UnlockedRotates(s, u, d, host, cred);
    u := LeadsOn(s, u, ReadStrict(d, true));
    u := LeadsOn(s, u, Exchange(c, Rotated(expires)));
  }

  /** The credential is expired, and the client's process has nothing cached or held against it. */
  predicate Ready(s: State, c: Client, host: nat, cred: Cred) {
    var k := Key(c.process, host);
    cred.expires - 120 <= s.now && k !in s.expiry && k !in s.dead && k !in s.failedAt
  }

  lemma UnlockedRotates(s: State, u: State, d: Client, host: nat, cred: Cred) returns (v: State)
    requires Leads(s, u) && PhaseOf(u, d).Idle? && d.process !in u.inLock
    requires Load(u.file, host) == Some(cred) && Ready(u, d, host, cred)
    ensures Leads(s, v) && v == u.(expiry := v.expiry, inLock := u.inLock[d.process := d], phases := u.phases[d := Rotating(host, cred)])
  {
    v := EnsureWaits(s, u, d, host, cred);
    v := LockedAlone(s, v, d, host, cred);
    v := EnsureRereads(s, v, d, host, cred);
  }

  lemma LockedAlone(s: State, u: State, d: Client, host: nat, cred: Cred) returns (v: State)
    requires Leads(s, u) && PhaseOf(u, d) == EnsureWaiting(host, cred, u.now) && d.process !in u.inLock
    ensures Leads(s, v)
    ensures v == u.(inLock := u.inLock[d.process := d], phases := u.phases[d := EnsureLocked(host, cred, u.now)])
  {
    v := LeadsOn(s, u, Lock(d, false));
  }
}
