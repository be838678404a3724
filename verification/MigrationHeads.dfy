/**
 The heads of the migration graph (scripts/release_manifest.py).
 A revision is a head when no other revision names it as its `down_revision`.
 */
module MigrationHeads {
  import opened Wrappers

  /** A top-level assignment of a literal in a migration module. */
  datatype Literal = NoneLit | StrLit(s: string) | TupleLit(items: seq<string>)

  datatype Assignment = Assignment(target: string, value: Literal)

  /** A module's revision and the revisions it follows. */
  datatype Module = Module(revision: Option<string>, down: seq<string>)

  /** `_module_revisions`: later assignments win, but a `down_revision = None` leaves an earlier value. */
  method ModuleRevisions(body: seq<Assignment>) returns (m: Module)
    ensures (forall i :: 0 <= i < |body| ==> body[i].target != "revision") ==> m.revision.None?
    ensures forall i :: (0 <= i < |body| && body[i].target == "revision"
        && forall j :: i < j < |body| ==> body[j].target != "revision") ==>
      m.revision == if body[i].value.StrLit? then Some(body[i].value.s) else None
    ensures (forall i :: 0 <= i < |body| ==> body[i].target != "down_revision" || body[i].value.NoneLit?) ==> m.down == []
    ensures forall i :: (0 <= i < |body| && body[i].target == "down_revision" && !body[i].value.NoneLit?
        && forall j :: i < j < |body| ==> body[j].target != "down_revision" || body[j].value.NoneLit?) ==>
      m.down == if body[i].value.StrLit? then [body[i].value.s] else body[i].value.items
  {
    var revision, down: seq<string> := None, [];
    for i := 0 to |body|
      invariant revision == AsRevision(Latest(body, i, "revision", true))
      invariant down == AsDown(Latest(body, i, "down_revision", false))
    {
      var a := body[i];
      if a.target == "revision" {
        revision := if a.value.StrLit? then Some(a.value.s) else None;
      } else if a.target == "down_revision" {
        match a.value
        case StrLit(s) => down := [s];
        case TupleLit(items) => down := items;
        case NoneLit =>
      }
    }
    m := Module(revision, down);
    LatestRevision(body);
    LatestDown(body);
  }

  /** The last of the first `n` assignments to the target, None not counting where that is so. */
  function Latest(body: seq<Assignment>, n: nat, target: string, noneCounts: bool): Option<Literal>
    requires n <= |body|
  {
    if n == 0 then None
    else if Sets(body[n - 1], target, noneCounts) then Some(body[n - 1].value)
    else Latest(body, n - 1, target, noneCounts)
  }

  predicate Sets(a: Assignment, target: string, noneCounts: bool) {
    a.target == target && (noneCounts || !a.value.NoneLit?)
  }

  function AsRevision(value: Option<Literal>): Option<string> {
    if value.Some? && value.value.StrLit? then Some(value.value.s) else None
  }

  function AsDown(value: Option<Literal>): seq<string> {
    match value
    case Some(StrLit(s)) => [s]
    case Some(TupleLit(items)) => items
    case _ => []
  }

  lemma {:induction false} NoneLatest(body: seq<Assignment>, n: nat, target: string, noneCounts: bool)
    requires n <= |body| && forall i :: 0 <= i < n ==> !Sets(body[i], target, noneCounts)
    ensures Latest(body, n, target, noneCounts).None?
  {
    if 0 < n {
      NoneLatest(body, n - 1, target, noneCounts);
    }
  }

  lemma {:induction false} LatestAt(body: seq<Assignment>, n: nat, target: string, noneCounts: bool, i: nat)
    requires i < n <= |body| && Sets(body[i], target, noneCounts)
    requires forall j :: i < j < n ==> !Sets(body[j], target, noneCounts)
    ensures Latest(body, n, target, noneCounts) == Some(body[i].value)
  {
    if i < n - 1 {
      LatestAt(body, n - 1, target, noneCounts, i);
    }
  }

  lemma LatestRevision(body: seq<Assignment>)
    ensures var revision := AsRevision(Latest(body, |body|, "revision", true));
      && ((forall i :: 0 <= i < |body| ==> body[i].target != "revision") ==> revision.None?)
      && forall i :: (0 <= i < |body| && body[i].target == "revision"
             && forall j :: i < j < |body| ==> body[j].target != "revision") ==>
           revision == if body[i].value.StrLit? then Some(body[i].value.s) else None
  {
    if forall i :: 0 <= i < |body| ==> body[i].target != "revision" {
      NoneLatest(body, |body|, "revision", true);
    }
    forall i | 0 <= i < |body| && body[i].target == "revision" && forall j :: i < j < |body| ==> body[j].target != "revision"
      ensures Latest(body, |body|, "revision", true) == Some(body[i].value)
    {
      LatestAt(body, |body|, "revision", true, i);
    }
  }

  lemma LatestDown(body: seq<Assignment>)
    ensures var down := AsDown(Latest(body, |body|, "down_revision", false));
      && ((forall i :: 0 <= i < |body| ==> body[i].target != "down_revision" || body[i].value.NoneLit?) ==> down == [])
      && forall i :: (0 <= i < |body| && body[i].target == "down_revision" && !body[i].value.NoneLit?
             && forall j :: i < j < |body| ==> body[j].target != "down_revision" || body[j].value.NoneLit?) ==>
           down == if body[i].value.StrLit? then [body[i].value.s] else body[i].value.items
  {
    if forall i :: 0 <= i < |body| ==> body[i].target != "down_revision" || body[i].value.NoneLit? {
      NoneLatest(body, |body|, "down_revision", false);
    }
    forall i | 0 <= i < |body| && body[i].target == "down_revision" && !body[i].value.NoneLit?
               && forall j :: i < j < |body| ==> body[j].target != "down_revision" || body[j].value.NoneLit?
      ensures Latest(body, |body|, "down_revision", false) == Some(body[i].value)
    {
      LatestAt(body, |body|, "down_revision", false, i);
    }
  }

  // ----- The graph -----

  ghost predicate IsRevision(modules: seq<Module>, r: string) {
    exists i :: 0 <= i < |modules| && modules[i].revision == Some(r)
  }

  /** Some module with revision `child` names `parent`. */
  ghost predicate Follows(modules: seq<Module>, child: string, parent: string) {
    exists i :: 0 <= i < |modules| && modules[i].revision == Some(child) && parent in modules[i].down
  }

  /** A path from a revision to revisions that build on it, parent first. */
  ghost predicate IsPath(modules: seq<Module>, path: seq<string>) {
    && path != []
    && forall i :: 0 < i < |path| ==> Follows(modules, path[i], path[i - 1])
  }

  ghost predicate Acyclic(modules: seq<Module>) {
    forall path :: IsPath(modules, path) && 1 < |path| ==> path[0] != path[|path| - 1]
  }

  ghost predicate IsHead(modules: seq<Module>, r: string) {
    IsRevision(modules, r) && forall child :: !Follows(modules, child, r)
  }

  /** `ancestor` is `r` itself or lies below it. */
  ghost predicate IsAncestor(modules: seq<Module>, ancestor: string, r: string) {
    exists path :: IsPath(modules, path) && path[0] == ancestor && path[|path| - 1] == r
  }

  /** `alembic_heads`, before the final sort. */
  method AlembicHeads(modules: seq<Module>) returns (heads: set<string>)
    ensures forall r :: r in heads <==> IsHead(modules, r)
  {
    var revisions: set<string>, parents: set<string> := {}, {};
    for i := 0 to |modules|
      invariant forall r :: r in revisions <==> IsRevision(modules[..i], r)
      invariant forall r :: r in parents ==> exists child :: Follows(modules[..i], child, r)
      invariant forall child, r :: Follows(modules[..i], child, r) ==> r in parents
    {
      var m := modules[i];
      NextModule(modules, i);
      ghost var before, next := parents, modules[..i + 1];
      if m.revision.Some? {
        revisions := revisions + {m.revision.value};
        parents := parents + set p | p in m.down;
      }
      forall r | r in parents ensures exists child :: Follows(next, child, r) {
        if r in before {
          var child :| Follows(modules[..i], child, r);
          assert Follows(next, child, r);
        } else {
          assert Follows(next, m.revision.value, r);
        }
      }
      forall child, r | Follows(next, child, r) ensures r in parents {
        assert Follows(modules[..i], child, r) || (m.revision == Some(child) && r in m.down);
      }
    }
    assert modules[..|modules|] == modules;
    heads := revisions - parents;
  }

  lemma NextModule(modules: seq<Module>, i: nat)
    requires i < |modules|
    ensures forall r :: IsRevision(modules[..i + 1], r) <==> IsRevision(modules[..i], r) || modules[i].revision == Some(r)
    ensures forall child, r :: Follows(modules[..i + 1], child, r) <==>
      Follows(modules[..i], child, r) || (modules[i].revision == Some(child) && r in modules[i].down)
  {
    var more, fewer := modules[..i + 1], modules[..i];
    assert more[i] == modules[i] && forall j :: 0 <= j < i ==> more[j] == fewer[j];
  }

  // ----- Every revision reaches a head -----

  function Revisions(modules: seq<Module>): set<string> {
    set i | 0 <= i < |modules| && modules[i].revision.Some? :: modules[i].revision.value
  }

  lemma {:induction false} Pigeonhole(p: seq<string>, s: set<string>)
    requires |s| < |p| && forall i :: 0 <= i < |p| ==> p[i] in s
    ensures exists i, j :: 0 <= i < j < |p| && p[i] == p[j]
    decreases |p|
  {
    var last, front := p[|p| - 1], p[..|p| - 1];
    if last in front {
      var i :| 0 <= i < |front| && front[i] == last;
      assert p[i] == p[|p| - 1];
    } else {
      Pigeonhole(front, s - {last});
      var i, j :| 0 <= i < j < |front| && front[i] == front[j];
      assert p[i] == p[j];
    }
  }

  lemma PartOfPath(modules: seq<Module>, path: seq<string>, i: nat, j: nat)
    requires IsPath(modules, path) && i <= j < |path|
    ensures IsPath(modules, path[i..j + 1])
  {
    var part := path[i..j + 1];
    forall k | 0 < k < |part| ensures Follows(modules, part[k], part[k - 1]) {
      assert part[k] == path[i + k] && part[k - 1] == path[i + k - 1];
    }
  }

  /** In an acyclic graph the revisions on a path differ. */
  lemma PathVisitsOnce(modules: seq<Module>, path: seq<string>, i: nat, j: nat)
    requires Acyclic(modules) && IsPath(modules, path) && i < j < |path|
    ensures path[i] != path[j]
  {
    PartOfPath(modules, path, i, j);
    var part := path[i..j + 1];
    assert part[0] == path[i] && part[|part| - 1] == path[j];
  }

  /** In an acyclic graph no path is longer than the number of revisions. */
  lemma PathIsShort(modules: seq<Module>, path: seq<string>)
    requires Acyclic(modules) && IsPath(modules, path)
    requires forall i :: 0 <= i < |path| ==> path[i] in Revisions(modules)
    ensures |path| <= |Revisions(modules)|
  {
    forall i, j | 0 <= i < j < |path| ensures path[i] != path[j] {
      PathVisitsOnce(modules, path, i, j);
    }
    if |Revisions(modules)| < |path| {
      Pigeonhole(path, Revisions(modules));
    }
  }

  /** A path can be followed upwards until it ends in a head. */
  lemma {:induction false} FollowToHead(modules: seq<Module>, path: seq<string>) returns (head: string)
    requires Acyclic(modules) && IsPath(modules, path)
    requires forall i :: 0 <= i < |path| ==> path[i] in Revisions(modules)
    ensures IsHead(modules, head) && IsAncestor(modules, path[0], head)
    decreases |Revisions(modules)| + 1 - |path|
  {
    PathIsShort(modules, path);
    var last := path[|path| - 1];
    if exists child :: Follows(modules, child, last) {
      var child :| Follows(modules, child, last);
      var longer := path + [child];
      assert child in Revisions(modules);
      assert IsPath(modules, longer);
      PathIsShort(modules, longer);
      head := FollowToHead(modules, longer);
    } else {
      var i :| 0 <= i < |modules| && modules[i].revision.Some? && modules[i].revision.value == last;
      assert modules[i].revision == Some(last);
      head := last;
    }
  }

  /** Every revision of an acyclic graph is an ancestor of some head. */
  lemma EveryRevisionReachesAHead(modules: seq<Module>, r: string)
    requires Acyclic(modules) && IsRevision(modules, r)
    ensures exists head :: IsHead(modules, head) && IsAncestor(modules, r, head)
  {
    var i :| 0 <= i < |modules| && modules[i].revision == Some(r);
    assert modules[i].revision.value in Revisions(modules);
    var head := FollowToHead(modules, [r]);
  }

  /** A graph with revisions has a head, and a single head has every revision among its ancestors. */
  lemma HeadsCoverTheGraph(modules: seq<Module>, heads: set<string>)
    requires Acyclic(modules) && forall r :: r in heads <==> IsHead(modules, r)
    ensures heads == {} <==> forall r :: !IsRevision(modules, r)
    ensures forall head :: heads == {head} ==> forall r :: IsRevision(modules, r) ==> IsAncestor(modules, r, head)
  {
    forall r | IsRevision(modules, r)
      ensures heads != {} && forall head :: heads == {head} ==> IsAncestor(modules, r, head)
    {
      EveryRevisionReachesAHead(modules, r);
      var h :| IsHead(modules, h) && IsAncestor(modules, r, h);
      assert h in heads;
    }
    if heads != {} {
      var h :| h in heads;
      assert IsRevision(modules, h);
    }
  }

  /** Acyclicity is needed: two revisions that follow each other have no head. */
  lemma CycleHasNoHead(a: string, b: string)
    ensures var modules := [Module(Some(a), [b]), Module(Some(b), [a])];
      IsRevision(modules, a) && forall r :: !IsHead(modules, r)
  {
    var modules := [Module(Some(a), [b]), Module(Some(b), [a])];
    assert modules[0].revision == Some(a) && b in modules[0].down;
    assert modules[1].revision == Some(b) && a in modules[1].down;
    assert Follows(modules, a, b) && Follows(modules, b, a);
  }
}
