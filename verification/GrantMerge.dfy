/**
 Installing a login's grant into a config file (`_deep_merge`, `_persist_credential` and `install_grant`
 of hermes-plugin-honcho/oauth.py), on whole JSON trees.  `OAuthTables` has the tables beside the file,
 `OAuthRefresh` the locks.
 */
module GrantMerge {
  import opened Wrappers
  import opened HoistDefs

  /** `_deep_merge` of one value into what is at its place: two dicts are merged key by key, anything else
      is replaced. */
  function Merged(base: Option<Node>, overlay: Node): Node
    decreases overlay
  {
    match overlay
    case Obj(o) =>
      if base.Some? && base.value.Obj? then
        var b := base.value.fields;
        Obj(map k | k in b.Keys + o.Keys :: if k in o then Merged(At(b, k), o[k]) else b[k])
      else overlay
    case _ => overlay
  }

  function At(fields: map<string, Node>, k: string): Option<Node> {
    if k in fields then Some(fields[k]) else None
  }

  /** What is at a path of keys. */
  function Lookup(node: Node, path: seq<string>): Option<Node> {
    if path == [] then Some(node)
    else if node.Obj? && path[0] in node.fields then Lookup(node.fields[path[0]], path[1..])
    else None
  }

  function LookupIn(node: Option<Node>, path: seq<string>): Option<Node> {
    if node.Some? then Lookup(node.value, path) else None
  }

  /** What the overlay says about a path: a value that is no dict, a dict, nothing, or that a value which
      is no dict stands on the way. */
  datatype Said = Value(node: Node) | Part | Nothing | Blocked

  function SaidAt(overlay: Node, path: seq<string>): Said {
    if !overlay.Obj? then if path == [] then Value(overlay) else Blocked
    else if path == [] then Part
    else if path[0] in overlay.fields then SaidAt(overlay.fields[path[0]], path[1..])
    else Nothing
  }

  /** The overlay's values win, its dicts are dicts, and where it says nothing the base stays. */
  predicate MergesAt(base: Option<Node>, overlay: Node, merged: Node, path: seq<string>) {
    match SaidAt(overlay, path)
    case Value(v) => Lookup(merged, path) == Some(v)
    case Part => Lookup(merged, path).Some? && Lookup(merged, path).value.Obj?
    case Nothing => Lookup(merged, path) == LookupIn(base, path)
    case Blocked => Lookup(merged, path).None?
  }

  /** An overlay taken as it is says what it says. */
  lemma {:induction false} TakenAt(base: Option<Node>, overlay: Node, path: seq<string>)
    requires base.Some? ==> !base.value.Obj?
    ensures path != [] ==> LookupIn(base, path).None?
    ensures MergesAt(base, overlay, overlay, path)
    decreases |path|
  {
    if overlay.Obj? && path != [] && path[0] in overlay.fields {
      TakenAt(None, overlay.fields[path[0]], path[1..]);
    }
  }

  /** A deep merge is that at every path, however deep. */
  lemma {:induction false} MergedAt(base: Option<Node>, overlay: Node, path: seq<string>)
    ensures MergesAt(base, overlay, Merged(base, overlay), path)
    decreases |path|
  {
    if !overlay.Obj? || base.None? || !base.value.Obj? {
      TakenAt(if base.Some? && base.value.Obj? then None else base, overlay, path);
    } else if path != [] && path[0] in overlay.fields {
      MergedAt(At(base.value.fields, path[0]), overlay.fields[path[0]], path[1..]);
    }
  }

  lemma LookupNext(node: Node, k: string, path: seq<string>)
    ensures Lookup(node, [k] + path) == if node.Obj? && k in node.fields then Lookup(node.fields[k], path) else None
  {
    assert ([k] + path)[1..] == path;
  }

  /** The trees look the same from the path: both have a dict there, or the same value, or nothing. */
  predicate Alike(m: Node, n: Node, path: seq<string>) {
    var a, b := Lookup(m, path), Lookup(n, path);
    a == b || (a.Some? && b.Some? && a.value.Obj? && b.value.Obj?)
  }

  lemma AlikeBelow(m: Node, n: Node, k: string)
    requires m.Obj? && n.Obj? && forall path :: Alike(m, n, path)
    ensures k in m.fields <==> k in n.fields
    ensures k in m.fields && k in n.fields ==> forall path :: Alike(m.fields[k], n.fields[k], path)
  {
    assert Alike(m, n, [k]);
    assert [k] + [] == [k];
    LookupNext(m, k, []);
    LookupNext(n, k, []);
    if k in m.fields && k in n.fields {
      forall path ensures Alike(m.fields[k], n.fields[k], path) {
        assert Alike(m, n, [k] + path);
        LookupNext(m, k, path);
        LookupNext(n, k, path);
      }
    }
  }

  lemma {:induction false} AlikeIsEqual(m: Node, n: Node)
    requires forall path :: Alike(m, n, path)
    ensures m == n
    decreases m
  {
    assert Alike(m, n, []);
    if m.Obj? && n.Obj? {
      forall k ensures (k in m.fields <==> k in n.fields) && (k in m.fields ==> m.fields[k] == n.fields[k]) {
        AlikeBelow(m, n, k);
        if k in m.fields {
          AlikeIsEqual(m.fields[k], n.fields[k]);
        }
      }
      assert m.fields == n.fields;
    }
  }

  /** Nothing else is: what holds at every path determines the merge. */
  lemma MergeIsUnique(base: Option<Node>, overlay: Node, merged: Node)
    requires forall path :: MergesAt(base, overlay, merged, path)
    ensures merged == Merged(base, overlay)
  {
    forall path ensures Alike(merged, Merged(base, overlay), path) {
      MergedAt(base, overlay, path);
      assert MergesAt(base, overlay, merged, path);
    }
    AlikeIsEqual(merged, Merged(base, overlay));
  }

  lemma {:induction false} SaidIs(overlay: Node, path: seq<string>)
    ensures SaidAt(overlay, path).Nothing? || SaidAt(overlay, path).Blocked? <==> Lookup(overlay, path).None?
    ensures SaidAt(overlay, path).Value? ==> Lookup(overlay, path) == Some(SaidAt(overlay, path).node)
    decreases |path|
  {
    if overlay.Obj? && path != [] && path[0] in overlay.fields {
      SaidIs(overlay.fields[path[0]], path[1..]);
    }
  }

  /** Where the overlay has something, that is merged into what is there. */
  lemma {:induction false} MergedBelow(base: Option<Node>, overlay: Node, path: seq<string>)
    requires Lookup(overlay, path).Some?
    ensures Lookup(Merged(base, overlay), path) == Some(Merged(LookupIn(base, path), Lookup(overlay, path).value))
    decreases |path|
  {
    if path != [] {
      if base.Some? && base.value.Obj? {
        MergedBelow(At(base.value.fields, path[0]), overlay.fields[path[0]], path[1..]);
      } else {
        MergedBelow(None, overlay.fields[path[0]], path[1..]);
      }
    }
  }

  /** All that the overlay has is in the base already. */
  predicate Within(overlay: Node, base: Option<Node>) {
    if overlay.Obj? then
      base.Some? && base.value.Obj? && forall k :: k in overlay.fields ==> Within(overlay.fields[k], At(base.value.fields, k))
    else base == Some(overlay)
  }

  /** A merge changes nothing exactly when the overlay has nothing new. */
  lemma {:induction false} UnchangedIff(base: Option<Node>, overlay: Node)
    ensures Some(Merged(base, overlay)) == base <==> Within(overlay, base)
    decreases overlay
  {
    if overlay.Obj? && base.Some? && base.value.Obj? {
      var b, m := base.value.fields, Merged(base, overlay).fields;
      forall k | k in overlay.fields
        ensures m[k] == Merged(At(b, k), overlay.fields[k])
        ensures Some(m[k]) == At(b, k) <==> Within(overlay.fields[k], At(b, k))
      {
        UnchangedIff(At(b, k), overlay.fields[k]);
      }
      if Within(overlay, base) {
        assert m == b;
      }
    }
  }

  /** Installing the same config again changes nothing. */
  lemma MergedTwice(base: Option<Node>, overlay: Node)
    ensures Merged(Some(Merged(base, overlay)), overlay) == Merged(base, overlay)
  {
    var once := Merged(base, overlay);
    forall path ensures MergesAt(Some(once), overlay, once, path) {
      MergedAt(base, overlay, path);
    }
    MergeIsUnique(Some(once), overlay, once);
  }

  // ----- The loop -----

  /** The merge once the keys in `done` have been looked at. */
  function MergedOver(base: map<string, Node>, overlay: map<string, Node>, done: set<string>): map<string, Node>
    requires done <= overlay.Keys
  {
    map k | k in base.Keys + done :: if k in done then Merged(At(base, k), overlay[k]) else base[k]
  }

  /** `_deep_merge`.  The order of the keys is left open. */
  method DeepMerge(base: map<string, Node>, overlay: map<string, Node>) returns (merged: map<string, Node>)
    ensures Obj(merged) == Merged(Some(Obj(base)), Obj(overlay))
    decreases Obj(overlay)
  {
    merged := base;
    var todo := overlay.Keys;
    while todo != {}
      invariant todo <= overlay.Keys
      invariant merged == MergedOver(base, overlay, overlay.Keys - todo)
    {
      var k :| k in todo;
      var value := overlay[k];
      if value.Obj? && k in merged && merged[k].Obj? {
        var below := DeepMerge(merged[k].fields, value.fields);
        value := Obj(below);
      }
      assert value == Merged(At(base, k), overlay[k]);
      assert overlay.Keys - (todo - {k}) == (overlay.Keys - todo) + {k};
      merged, todo := merged[k := value], todo - {k};
    }
    assert overlay.Keys - todo == overlay.Keys;
  }

  // ----- Installing a grant -----

  const HOSTS := "hosts"
  const API_KEY := "apiKey"
  const OAUTH := "oauth"

  /** A config file: not there, not readable, or JSON of any kind. */
  datatype OnDisk = Missing | Unreadable | Json(node: Node)

  function BlockAt(hosts: Node, host: string): Node
    requires hosts.Obj?
  {
    if host in hosts.fields then hosts.fields[host] else Obj(map[])
  }

  function HostsOf(raw: map<string, Node>): Node {
    if HOSTS in raw then raw[HOSTS] else Obj(map[])
  }

  /** The hosts and the host's block are dicts, or not there yet. */
  predicate HasRoom(raw: map<string, Node>, host: string) {
    HostsOf(raw).Obj? && BlockAt(HostsOf(raw), host).Obj?
  }

  function WithGrant(raw: map<string, Node>, host: string, apiKey: Node, oauth: Node): map<string, Node>
    requires HasRoom(raw, host)
  {
    var hosts := HostsOf(raw).fields;
    raw[HOSTS := Obj(hosts[host := Obj(BlockAt(HostsOf(raw), host).fields[API_KEY := apiKey][OAUTH := oauth])])]
  }

  /** What the grant is written into: the file's content with the config of the grant, if that is a dict
      and to be applied. */
  function Configured(raw: map<string, Node>, config: Node, apply: bool): map<string, Node> {
    if apply && config.Obj? then Merged(Some(Obj(raw)), config).fields else raw
  }

  class ConfigFile {
    var content: OnDisk

    constructor (found: OnDisk)
      ensures content == found
    {
      content := found;
    }

    function Read(): Option<map<string, Node>>
      reads this
    {
      match content
      case Missing => Some(map[])
      case Unreadable => None
      case Json(node) => if node.Obj? then Some(node.fields) else None
    }

    /** `install_grant`: false stands for an exception. */
    method InstallGrant(host: string, apiKey: Node, oauth: Node, config: Node, apply: bool) returns (ok: bool)
      modifies this
      ensures var before := old(content);
        if before.Unreadable? || (before.Json? && !before.node.Obj?) then !ok && content == before
        else
          var raw := if before.Missing? then map[] else before.node.fields;
          if HasRoom(Configured(raw, config, apply), host) then
            ok && content == Json(Obj(WithGrant(Configured(raw, config, apply), host, apiKey, oauth)))
          else !ok && content == before
    {
      var read := Read();
      if read.None? {
        return false;
      }
      var raw := read.value;
      if config.Obj? && apply {
        raw := DeepMerge(raw, config.fields);
      }
      ok := HasRoom(raw, host);
      if ok {
        content := Json(Obj(WithGrant(raw, host, apiKey, oauth)));
      }
    }
  }

  /** The paths that storing the tokens of the host may touch: its two halves and what is below them, and
      the dicts above them. */
  predicate OfGrant(host: string, path: seq<string>) {
    || path <= [HOSTS, host]
    || [HOSTS, host, API_KEY] <= path || [HOSTS, host, OAUTH] <= path
  }

  /** Storing the tokens puts them where they are looked up, and changes nothing at any other path. */
  lemma WithGrantAt(raw: map<string, Node>, host: string, apiKey: Node, oauth: Node, path: seq<string>)
    requires HasRoom(raw, host)
    ensures var after := Obj(WithGrant(raw, host, apiKey, oauth));
      && Lookup(after, [HOSTS, host, API_KEY]) == Some(apiKey) && Lookup(after, [HOSTS, host, OAUTH]) == Some(oauth)
      && (!OfGrant(host, path) ==> Lookup(after, path) == Lookup(Obj(raw), path))
  {
    var after := Obj(WithGrant(raw, host, apiKey, oauth));
    LookupThree(after, host, API_KEY);
    LookupThree(after, host, OAUTH);
    if !OfGrant(host, path) {
      NotOfGrant(host, path);
      ElsewhereKept(raw, host, apiKey, oauth, path);
    }
  }

  lemma LookupThree(node: Node, host: string, k: string)
    requires node.Obj? && HOSTS in node.fields && node.fields[HOSTS].Obj? && host in node.fields[HOSTS].fields
    requires var block := node.fields[HOSTS].fields[host]; block.Obj? && k in block.fields
    ensures Lookup(node, [HOSTS, host, k]) == Some(node.fields[HOSTS].fields[host].fields[k])
  {
    assert [HOSTS, host, k] == [HOSTS] + ([host] + ([k] + []));
    LookupNext(node, HOSTS, [host] + ([k] + []));
    LookupNext(node.fields[HOSTS], host, [k] + []);
    LookupNext(node.fields[HOSTS].fields[host], k, []);
  }

  /** The path leaves the way to the grant at some key. */
  predicate Turns(host: string, path: seq<string>) {
    path != [] && (path[0] == HOSTS ==>
      1 < |path| && (path[1] == host ==> 2 < |path| && path[2] != API_KEY && path[2] != OAUTH))
  }

  lemma ElsewhereKept(raw: map<string, Node>, host: string, apiKey: Node, oauth: Node, path: seq<string>)
    requires HasRoom(raw, host) && Turns(host, path)
    ensures Lookup(Obj(WithGrant(raw, host, apiKey, oauth)), path) == Lookup(Obj(raw), path)
  {
    if path[0] == HOSTS {
      var hosts, below := Obj(WithGrant(raw, host, apiKey, oauth)).fields[HOSTS], path[1..];
      assert below[0] == path[1];
      if below[0] == host {
        assert below[1..][0] == path[2];
        assert Lookup(hosts, below) == Lookup(HostsOf(raw), below);
      }
    }
  }

  lemma NotOfGrant(host: string, path: seq<string>)
    requires !OfGrant(host, path)
    ensures Turns(host, path)
  {
    if path != [] && path[0] == HOSTS {
      assert |path| == 1 ==> path == [HOSTS];
      if 1 < |path| && path[1] == host {
        assert |path| == 2 ==> path == [HOSTS, host];
      }
    }
  }

  /** After a login every path but the grant's own is as the file had it, except where the granted config
      says otherwise. */
  lemma InstallKeeps(raw: map<string, Node>, host: string, apiKey: Node, oauth: Node, config: Node, path: seq<string>)
    requires config.Obj? && HasRoom(Configured(raw, config, true), host) && !OfGrant(host, path)
    ensures MergesAt(Some(Obj(raw)), config, Obj(WithGrant(Configured(raw, config, true), host, apiKey, oauth)), path)
  {
    WithGrantAt(Configured(raw, config, true), host, apiKey, oauth, path);
    MergedAt(Some(Obj(raw)), config, path);
    assert Obj(Configured(raw, config, true)) == Merged(Some(Obj(raw)), config);
  }

  /** The config has at the path nothing but what is there. */
  predicate SaysNothingNew(raw: map<string, Node>, config: Node, path: seq<string>) {
    match SaidAt(config, path)
    case Nothing => true
    case Blocked => Lookup(Obj(raw), path).None?
    case _ => Lookup(config, path).Some? && Within(Lookup(config, path).value, Lookup(Obj(raw), path))
  }

  /** What is at any path but the grant's own, the whole block of another host for one, survives a login
      exactly when the granted config says nothing new there. */
  lemma KeptIff(raw: map<string, Node>, host: string, apiKey: Node, oauth: Node, config: Node, path: seq<string>)
    requires config.Obj? && HasRoom(Configured(raw, config, true), host) && !OfGrant(host, path)
    ensures Lookup(Obj(WithGrant(Configured(raw, config, true), host, apiKey, oauth)), path) == Lookup(Obj(raw), path) <==>
      SaysNothingNew(raw, config, path)
  {
    WithGrantAt(Configured(raw, config, true), host, apiKey, oauth, path);
    assert Obj(Configured(raw, config, true)) == Merged(Some(Obj(raw)), config);
    MergedAt(Some(Obj(raw)), config, path);
    SaidIs(config, path);
    if Lookup(config, path).Some? {
      MergedBelow(Some(Obj(raw)), config, path);
      UnchangedIff(Lookup(Obj(raw), path), Lookup(config, path).value);
    }
  }

  /** A login whose config has another host's credential replaces it. */
  lemma OtherHostOverwritten(host: string, other: string, was: Node, apiKey: Node, oauth: Node, granted: Node)
    requires other != host && was != granted && !granted.Obj?
    ensures var raw, config := HostWith(other, was), HostWith(other, granted);
      && HasRoom(Configured(raw, Obj(config), true), host)
      && var after := Obj(WithGrant(Configured(raw, Obj(config), true), host, apiKey, oauth));
        && Lookup(Obj(raw), [HOSTS, other, API_KEY]) == Some(was)
        && Lookup(after, [HOSTS, other, API_KEY]) == Some(granted)
  {
    var raw, config := HostWith(other, was), HostWith(other, granted);
    var path := [HOSTS, other, API_KEY];
    LookupThree(Obj(raw), other, API_KEY);
    LookupThree(Obj(config), other, API_KEY);
    SaidIs(Obj(config), path);
    MergedOne(API_KEY, was, granted);
    MergedOne(other, Obj(map[API_KEY := was]), Obj(map[API_KEY := granted]));
    MergedOne(HOSTS, raw[HOSTS], config[HOSTS]);
    assert Configured(raw, Obj(config), true) == config;
    assert path[1] == other;
    InstallKeeps(raw, host, apiKey, oauth, Obj(config), path);
  }

  lemma MergedOne(k: string, was: Node, granted: Node)
    requires Merged(Some(was), granted) == granted
    ensures Merged(Some(Obj(map[k := was])), Obj(map[k := granted])) == Obj(map[k := granted])
  {}

  function HostWith(host: string, apiKey: Node): map<string, Node> {
    map[HOSTS := Obj(map[host := Obj(map[API_KEY := apiKey])])]
  }
}
