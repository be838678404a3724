/**
 The three-way merge behind every config write of the command line (`_ReadConfig`, `_apply_edits`,
 `_overlay_local`, `_write_config`, `_apply_grant_to_host` of hermes-plugin-honcho/cli.py).

 A config is its root keys and, under `hosts`, a block per host.  `Null` is JSON null, which `.get`
 cannot tell from a missing key; `Get` reads a dict that way.  `hosts` and the blocks in it are dicts
 wherever they are present.
 */
module ConfigMerge {
  import opened Wrappers

  datatype Key = ApiKey | OAuth | Other(name: string)
  datatype Value = Null | Val(n: nat)
  type Dict = map<Key, Value>
  type Hosts = map<string, Dict>
  datatype Config = Config(root: Dict, hosts: Option<Hosts>)

  function Get(d: Dict, k: Key): Value {
    if k in d then d[k] else Null
  }

  /** `cfg.get("hosts") or {}`. */
  function HostsOf(c: Config): Hosts {
    if c.hosts.Some? then c.hosts.value else map[]
  }

  function Block(hosts: Hosts, h: string): Dict {
    if h in hosts then hosts[h] else map[]
  }

  /** What the config says for a key of a host. */
  function HostGet(c: Config, h: string, k: Key): Value {
    Get(Block(HostsOf(c), h), k)
  }

  /** The two configs say the same: equal up to nulls and empty host blocks. */
  ghost predicate Same(a: Config, b: Config) {
    && (forall k :: Get(a.root, k) == Get(b.root, k))
    && (forall h, k :: HostGet(a, h, k) == HostGet(b, h, k))
  }

  // ----- The merge -----

  predicate Changed(base: Dict, edited: Dict, k: Key) {
    k in edited && edited[k] != Get(base, k)
  }

  predicate Dropped(base: Dict, edited: Dict, k: Key) {
    k !in edited && k in base
  }

  predicate Touched(base: Dict, edited: Dict, k: Key) {
    Changed(base, edited, k) || Dropped(base, edited, k)
  }

  function EditDict(base: Dict, edited: Dict, current: Dict): Dict {
    map k | k in current.Keys + edited.Keys && (k in current || Changed(base, edited, k)) && !Dropped(base, edited, k) ::
      if Changed(base, edited, k) then edited[k] else current[k]
  }

  function EditHosts(base: Hosts, edited: Hosts, current: Hosts): Hosts {
    map h | h in current.Keys + edited.Keys && (h in edited || h !in base) ::
      if h in edited then EditDict(Block(base, h), edited[h], Block(current, h)) else current[h]
  }

  function ApplyEdits(base: Config, edited: Config, current: Config): Config {
    Config(EditDict(base.root, edited.root, current.root),
           if HostsOf(base) == map[] && HostsOf(edited) == map[] && current.hosts.None? then None
           else Some(EditHosts(HostsOf(base), HostsOf(edited), HostsOf(current))))
  }

  function Overlay(seed: Config, local: Config): Config {
    Config(seed.root + local.root,
           if HostsOf(local) == map[] then seed.hosts else Some(OverlayHosts(HostsOf(seed), HostsOf(local))))
  }

  function OverlayHosts(seed: Hosts, local: Hosts): Hosts {
    map h | h in seed.Keys + local.Keys :: Block(seed, h) + Block(local, h)
  }

  // ----- Laws -----

  predicate TouchedInHost(base: Config, edited: Config, h: string, k: Key) {
    if h in HostsOf(edited) then Touched(Block(HostsOf(base), h), HostsOf(edited)[h], k)
    else h in HostsOf(base)
  }

  lemma EditedKey(base: Dict, edited: Dict, current: Dict, k: Key)
    ensures Get(EditDict(base, edited, current), k) == Get(if Touched(base, edited, k) then edited else current, k)
  {}

  /** A key the command touched takes the edited value, and every other key keeps the one on disk. */
  lemma MergedKey(base: Config, edited: Config, current: Config, h: string, k: Key)
    ensures var out := ApplyEdits(base, edited, current);
      && Get(out.root, k) == Get(if Touched(base.root, edited.root, k) then edited.root else current.root, k)
      && HostGet(out, h, k) == HostGet(if TouchedInHost(base, edited, h, k) then edited else current, h, k)
      && (out.hosts.None? <==> HostsOf(base) == map[] && HostsOf(edited) == map[] && current.hosts.None?)
  {
    EditedKey(base.root, edited.root, current.root, k);
    if h in HostsOf(edited) {
      EditedKey(Block(HostsOf(base), h), HostsOf(edited)[h], Block(HostsOf(current), h), k);
    }
  }

  /** A command touches a key exactly when it changed what the config says for it, or removed an
      explicit null, or removed the host. */
  lemma TouchedIff(base: Config, edited: Config, h: string, k: Key)
    ensures TouchedInHost(base, edited, h, k) <==>
              HostGet(edited, h, k) != HostGet(base, h, k)
              || (h in HostsOf(base) && (h !in HostsOf(edited) ||
                    (k in HostsOf(base)[h] && k !in HostsOf(edited)[h])))
    ensures Touched(base.root, edited.root, k) <==>
              Get(edited.root, k) != Get(base.root, k) || (k in base.root && k !in edited.root)
  {}

  /** Onto an unchanged disk the merge yields the edited config. */
  lemma UnchangedDiskTakesEdits(base: Config, edited: Config, current: Config)
    requires Same(current, base)
    ensures Same(ApplyEdits(base, edited, current), edited)
  {
    var out := ApplyEdits(base, edited, current);
    forall k ensures Get(out.root, k) == Get(edited.root, k) {
      MergedKey(base, edited, current, "", k);
    }
    forall h, k ensures HostGet(out, h, k) == HostGet(edited, h, k) {
      MergedKey(base, edited, current, h, k);
      TouchedIff(base, edited, h, k);
    }
  }

  /** Without edits the merge yields what is on disk. */
  lemma NoEditsKeepDisk(base: Config, current: Config)
    ensures Same(ApplyEdits(base, base, current), current) && ApplyEdits(base, base, current).root == current.root
  {
    var out := ApplyEdits(base, base, current);
    forall h, k ensures HostGet(out, h, k) == HostGet(current, h, k) {
      MergedKey(base, base, current, h, k);
      assert !TouchedInHost(base, base, h, k);
    }
    assert out.root == current.root;
  }

  /** The two commands touch no key in common. */
  ghost predicate Disjoint(base: Config, edited: Config, base2: Config, edited2: Config) {
    && (forall k :: !(Touched(base.root, edited.root, k) && Touched(base2.root, edited2.root, k)))
    && (forall h, k :: !(TouchedInHost(base, edited, h, k) && TouchedInHost(base2, edited2, h, k)))
  }

  /** Two commands with disjoint edits commute. */
  lemma DisjointEditsCommute(base: Config, edited: Config, base2: Config, edited2: Config, current: Config)
    requires Disjoint(base, edited, base2, edited2)
    ensures Same(ApplyEdits(base2, edited2, ApplyEdits(base, edited, current)),
                 ApplyEdits(base, edited, ApplyEdits(base2, edited2, current)))
  {
    var first, second := ApplyEdits(base, edited, current), ApplyEdits(base2, edited2, current);
    forall k ensures Get(ApplyEdits(base2, edited2, first).root, k) == Get(ApplyEdits(base, edited, second).root, k) {
      MergedKey(base, edited, current, "", k);
      MergedKey(base2, edited2, first, "", k);
      MergedKey(base2, edited2, current, "", k);
      MergedKey(base, edited, second, "", k);
    }
    forall h, k
      ensures HostGet(ApplyEdits(base2, edited2, first), h, k) == HostGet(ApplyEdits(base, edited, second), h, k)
    {
      MergedKey(base, edited, current, h, k);
      MergedKey(base2, edited2, first, h, k);
      MergedKey(base2, edited2, current, h, k);
      MergedKey(base, edited, second, h, k);
    }
  }

  /** The local file wins key by key. */
  lemma OverlaidKey(seed: Config, local: Config, h: string, k: Key)
    ensures HostGet(Overlay(seed, local), h, k)
         == HostGet(if k in Block(HostsOf(local), h) then local else seed, h, k)
    ensures Get(Overlay(seed, local).root, k) == Get(if k in local.root then local.root else seed.root, k)
    ensures HostsOf(local) == map[] ==> Overlay(seed, local).hosts == seed.hosts
  {}

  // ----- The code -----

  predicate SameAt<K, V(==)>(a: map<K, V>, b: map<K, V>, k: K) {
    if k in a then k in b && a[k] == b[k] else k !in b
  }

  /** A dict between `current` and `target`: the keys in `todo` are still to be done. */
  ghost predicate Halfway<K(!new), V>(out: map<K, V>, current: map<K, V>, target: map<K, V>, todo: set<K>) {
    && (forall k :: k in todo ==> SameAt(out, current, k))
    && (forall k :: k !in todo ==> SameAt(out, target, k))
  }

  lemma OnePut<K(!new), V>(out: map<K, V>, current: map<K, V>, target: map<K, V>, todo: set<K>, k: K, v: V)
    requires Halfway(out, current, target, todo) && k in target && target[k] == v
    ensures Halfway(out[k := v], current, target, todo - {k})
  {
    var next := out[k := v];
    forall j ensures SameAt(next, if j in todo - {k} then current else target, j) {
      assert SameAt(out, if j in todo then current else target, j);
    }
  }

  lemma OneDrop<K(!new), V>(out: map<K, V>, current: map<K, V>, target: map<K, V>, todo: set<K>, k: K)
    requires Halfway(out, current, target, todo) && k !in target
    ensures Halfway(out - {k}, current, target, todo - {k})
  {
    var next := out - {k};
    forall j ensures SameAt(next, if j in todo - {k} then current else target, j) {
      assert SameAt(out, if j in todo then current else target, j);
    }
  }

  lemma OneKept<K(!new), V>(out: map<K, V>, current: map<K, V>, target: map<K, V>, todo: set<K>, k: K)
    requires Halfway(out, current, target, todo) && SameAt(target, current, k)
    ensures Halfway(out, current, target, todo - {k})
  {
    assert SameAt(out, if k in todo then current else target, k);
  }

  lemma AllDone<K(!new), V>(out: map<K, V>, current: map<K, V>, target: map<K, V>)
    requires Halfway(out, current, target, {})
    ensures out == target
  {
    assert forall k :: k in out ==> SameAt(out, target, k);
    assert forall k :: k in target ==> SameAt(out, target, k);
  }

  /** The keys edited so far, of a dict that began as `current`. */
  ghost predicate KeysDone(base: Dict, edited: Dict, current: Dict, out: Dict, todo: set<Key>) {
    Halfway(out, current, EditDict(base, edited, current), todo)
  }

  lemma KeysBegin(base: Dict, edited: Dict, current: Dict)
    ensures KeysDone(base, edited, current, current, base.Keys + edited.Keys)
  {}

  lemma KeysEnd(base: Dict, edited: Dict, current: Dict, out: Dict)
    requires KeysDone(base, edited, current, out, {})
    ensures out == EditDict(base, edited, current)
  {
    AllDone(out, current, EditDict(base, edited, current));
  }

  lemma KeysStep(base: Dict, edited: Dict, current: Dict, out: Dict, todo: set<Key>, k: Key)
    requires KeysDone(base, edited, current, out, todo) && k in todo && k in base.Keys + edited.Keys
    ensures KeysDone(base, edited, current,
      if Changed(base, edited, k) then out[k := edited[k]] else if Dropped(base, edited, k) then out - {k} else out,
      todo - {k})
  {
    var target := EditDict(base, edited, current);
    if Changed(base, edited, k) {
      OnePut(out, current, target, todo, k, edited[k]);
    } else if Dropped(base, edited, k) {
      OneDrop(out, current, target, todo, k);
    } else {
      OneKept(out, current, target, todo, k);
    }
  }

  /** The loop over keys, at the root and in each block. */
  method EditKeys(base: Dict, edited: Dict, current: Dict) returns (out: Dict)
    ensures out == EditDict(base, edited, current)
  {
    out := current;
    var todo := base.Keys + edited.Keys;
    KeysBegin(base, edited, current);
    while todo != {}
      invariant KeysDone(base, edited, current, out, todo) && todo <= base.Keys + edited.Keys
      decreases |todo|
    {
      var k :| k in todo;
      KeysStep(base, edited, current, out, todo, k);
      if k in edited && edited[k] != Get(base, k) {
        out := out[k := edited[k]];
      } else if k !in edited && k in base {
        out := out - {k};
      }
      todo := todo - {k};
    }
    KeysEnd(base, edited, current, out);
  }

  /** The same for hosts. */
  ghost predicate HostsDone(base: Hosts, edited: Hosts, current: Hosts, out: Hosts, todo: set<string>) {
    Halfway(out, current, EditHosts(base, edited, current), todo)
  }

  lemma HostsBegin(base: Hosts, edited: Hosts, current: Hosts)
    ensures HostsDone(base, edited, current, current, base.Keys + edited.Keys)
  {}

  lemma HostsEnd(base: Hosts, edited: Hosts, current: Hosts, out: Hosts)
    requires HostsDone(base, edited, current, out, {})
    ensures out == EditHosts(base, edited, current)
  {
    AllDone(out, current, EditHosts(base, edited, current));
  }

  lemma HostsStep(base: Hosts, edited: Hosts, current: Hosts, out: Hosts, todo: set<string>, h: string)
    requires HostsDone(base, edited, current, out, todo) && h in todo && h in base.Keys + edited.Keys
    ensures HostsDone(base, edited, current,
      if h in edited then out[h := EditDict(Block(base, h), edited[h], Block(out, h))] else out - {h}, todo - {h})
  {
    var target := EditHosts(base, edited, current);
    if h in edited {
      assert SameAt(out, current, h);
      OnePut(out, current, target, todo, h, EditDict(Block(base, h), edited[h], Block(current, h)));
    } else {
      OneDrop(out, current, target, todo, h);
    }
  }

  /** The loop over hosts. */
  method EditHostBlocks(base: Hosts, edited: Hosts, current: Hosts) returns (out: Hosts)
    ensures out == EditHosts(base, edited, current)
  {
    out := current;
    var todo := base.Keys + edited.Keys;
    HostsBegin(base, edited, current);
    while todo != {}
      invariant HostsDone(base, edited, current, out, todo) && todo <= base.Keys + edited.Keys
      decreases |todo|
    {
      var h :| h in todo;
      HostsStep(base, edited, current, out, todo, h);
      if h !in edited {
        out := out - {h};
      } else {
        var block := EditKeys(Block(base, h), edited[h], Block(out, h));
        out := out[h := block];
      }
      todo := todo - {h};
    }
    HostsEnd(base, edited, current, out);
  }

  /** `_apply_edits`. */
  method MergeEdits(base: Config, edited: Config, current: Config) returns (out: Config)
    ensures out == ApplyEdits(base, edited, current)
  {
    var root := EditKeys(base.root, edited.root, current.root);
    if HostsOf(base) == map[] && HostsOf(edited) == map[] && current.hosts.None? {
      return Config(root, None);
    }
    var hosts := EditHostBlocks(HostsOf(base), HostsOf(edited), HostsOf(current));
    out := Config(root, Some(hosts));
  }

  ghost predicate OverlayDone(seed: Hosts, local: Hosts, out: Hosts, todo: set<string>) {
    Halfway(out, seed, OverlayHosts(seed, local), todo)
  }

  lemma OverlayBegin(seed: Hosts, local: Hosts)
    ensures OverlayDone(seed, local, seed, local.Keys)
  {
    var target := OverlayHosts(seed, local);
    forall h | h !in local ensures SameAt(seed, target, h) {
      assert h in seed ==> seed[h] + map[] == seed[h];
    }
  }

  lemma OverlayStep(seed: Hosts, local: Hosts, out: Hosts, todo: set<string>, h: string)
    requires OverlayDone(seed, local, out, todo) && h in todo && h in local
    ensures OverlayDone(seed, local, out[h := Block(out, h) + local[h]], todo - {h})
  {
    assert SameAt(out, seed, h);
    OnePut(out, seed, OverlayHosts(seed, local), todo, h, Block(seed, h) + local[h]);
  }

  lemma OverlayEnd(seed: Hosts, local: Hosts, out: Hosts)
    requires OverlayDone(seed, local, out, {})
    ensures out == OverlayHosts(seed, local)
  {
    AllDone(out, seed, OverlayHosts(seed, local));
  }

  /** `_overlay_local`. */
  method OverlayLocal(seed: Config, local: Config) returns (out: Config)
    ensures out == Overlay(seed, local)
  {
    var blocks := HostsOf(local);
    var todo, hosts := blocks.Keys, HostsOf(seed);
    OverlayBegin(hosts, blocks);
    while todo != {}
      invariant OverlayDone(HostsOf(seed), blocks, hosts, todo) && todo <= blocks.Keys
      decreases |todo|
    {
      var h :| h in todo;
      OverlayStep(HostsOf(seed), blocks, hosts, todo, h);
      hosts := hosts[h := Block(hosts, h) + blocks[h]];
      todo := todo - {h};
    }
    OverlayEnd(HostsOf(seed), blocks, hosts);
    out := Config(seed.root + local.root, if blocks == map[] then seed.hosts else Some(hosts));
  }
}
