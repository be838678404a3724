/**
 What a reference in an OpenAPI document means, and why hoisting does not change it.
 `Unfold` replaces references by the schemas they name, down to a given depth; a name is
 looked up in the enclosing `$defs` blocks, innermost first.
 */
module HoistMeaning {
  import opened Wrappers
  import opened HoistDefs

  /** The `$defs` blocks around a node, outermost first. */
  type Scope = seq<map<string, Node>>

  function Push(scope: Scope, f: map<string, Node>): Scope {
    if HasBlock(f) then scope + [f[DEFS_KEY].fields] else scope
  }

  datatype Target = Local(name: string) | Component(name: string) | Outside

  function TargetOf(ref: string): Target {
    if DEFS_PREFIX <= ref then Local(ref[|DEFS_PREFIX|..])
    else if COMPONENTS_PREFIX <= ref then Component(ref[|COMPONENTS_PREFIX|..])
    else Outside
  }

  function Repointed(target: Target): Target {
    if target.Local? then Component(target.name) else target
  }

  lemma RepointedTarget(ref: string)
    ensures TargetOf(RepointedRef(ref)) == Repointed(TargetOf(ref))
    ensures TargetOf(ref).Outside? ==> RepointedRef(ref) == ref
  {
    if DEFS_PREFIX <= ref {
      var moved := RepointedRef(ref);
      assert moved[2] == 'c' && DEFS_PREFIX[2] == '$';
      assert moved[|COMPONENTS_PREFIX|..] == ref[|DEFS_PREFIX|..];
    }
  }

  /** The index of the innermost block that defines `name`, or -1. */
  function Innermost(scope: Scope, name: string): (i: int)
    ensures -1 <= i < |scope|
    ensures 0 <= i ==> name in scope[i]
    ensures forall j :: i < j < |scope| ==> name !in scope[j]
  {
    if scope == [] then -1
    else if name in scope[|scope| - 1] then |scope| - 1
    else Innermost(scope[..|scope| - 1], name)
  }

  /** The blocks around the entries of `components/schemas`. */
  function ComponentScope(root: Node): Scope {
    if Components(root) == map[] then []
    else
      var components := root.fields["components"].fields;
      Push(Push(Push([], root.fields), components), components["schemas"].fields)
  }

  /** `node` with its references replaced, `depth` of them on any path; a null stands for
      whatever lies deeper.  A reference that leaves the document stays as it is. */
  ghost function Unfold(root: Node, scope: Scope, node: Node, depth: nat): Node
    decreases depth, node, 0
  {
    match node
    case Obj(f) =>
      Obj(map k | k in f && k != DEFS_KEY :: UnfoldEntry(root, Push(scope, f), k, f[k], depth))
    case Arr(items) => Arr(seq(|items|, i requires 0 <= i < |items| => Unfold(root, scope, items[i], depth)))
    case _ => node
  }

  ghost function UnfoldEntry(root: Node, scope: Scope, key: string, value: Node, depth: nat): Node
    decreases depth, value, 1
  {
    if key == REF_KEY && value.Str? then UnfoldRef(root, Resolve(root, scope, TargetOf(value.s)), value, depth)
    else Unfold(root, scope, value, depth)
  }

  ghost function UnfoldRef(root: Node, found: Option<(Scope, Node)>, ref: Node, depth: nat): Node
    decreases depth, ref, 0
  {
    match found
    case None => ref
    case Some((s, d)) => if depth == 0 then Null else Unfold(root, s, d, depth - 1)
  }

  /** The schema a reference names, with the blocks around it. */
  ghost function Resolve(root: Node, scope: Scope, target: Target): Option<(Scope, Node)> {
    match target
    case Local(name) =>
      var i := Innermost(scope, name);
      if i < 0 then None else Some((scope[..i + 1], scope[i][name]))
    case Component(name) =>
      if name in Components(root) then Some((ComponentScope(root), Components(root)[name])) else None
    case Outside => None
  }

  /** A local reference means the definition of its name in the innermost block around it that has one. */
  lemma InnermostWins(root: Node, scope: Scope, f: map<string, Node>, name: string, depth: nat)
    ensures TargetOf("#/$defs/" + name) == Local(name) && TargetOf("#/components/schemas/" + name) == Component(name)
    ensures DEFS_KEY in f && f[DEFS_KEY].Obj? && name in f[DEFS_KEY].fields ==>
      Push(scope, f) == scope + [f[DEFS_KEY].fields]
      && UnfoldEntry(root, Push(scope, f), REF_KEY, Str("#/$defs/" + name), depth + 1)
           == Unfold(root, Push(scope, f), f[DEFS_KEY].fields[name], depth)
    ensures !(DEFS_KEY in f && f[DEFS_KEY].Obj? && name in f[DEFS_KEY].fields) ==>
      Resolve(root, Push(scope, f), Local(name)) == Resolve(root, scope, Local(name))
  {
    assert ("#/$defs/" + name)[|DEFS_PREFIX|..] == name;
    assert ("#/components/schemas/" + name)[2] == 'c' && DEFS_PREFIX[2] == '$';
    assert ("#/components/schemas/" + name)[|COMPONENTS_PREFIX|..] == name;
    if HasBlock(f) {
      var inner := Push(scope, f);
      assert inner[..|scope|] == scope && inner[..|inner|] == inner;
      if name !in f[DEFS_KEY].fields {
        OuterResolves(scope, inner, name);
      }
    }
  }

  lemma OuterResolves(scope: Scope, inner: Scope, name: string)
    requires |inner| == |scope| + 1 && inner[..|scope|] == scope && name !in inner[|scope|]
    ensures Innermost(inner, name) == Innermost(scope, name)
    ensures forall i :: 0 <= i < |scope| ==> inner[..i + 1] == scope[..i + 1] && inner[i] == scope[i]
  {}

  /** A local reference names a schema that exists where it stands. */
  ghost predicate TargetInScope(root: Node, scope: Scope, target: Target) {
    !target.Outside? ==> Resolve(root, scope, target).Some?
  }

  /** Every local reference in `node`, definitions included, is in scope. */
  ghost predicate RefsInScope(root: Node, scope: Scope, node: Node)
    decreases node, 0
  {
    match node
    case Obj(f) =>
      && (forall k :: k in f && k != DEFS_KEY ==> EntryInScope(root, Push(scope, f), k, f[k]))
      && (HasBlock(f) ==> forall name :: name in f[DEFS_KEY].fields ==>
            RefsInScope(root, Push(scope, f), f[DEFS_KEY].fields[name]))
    case Arr(items) => forall i :: 0 <= i < |items| ==> RefsInScope(root, scope, items[i])
    case _ => true
  }

  ghost predicate EntryInScope(root: Node, scope: Scope, key: string, value: Node)
    decreases value, 1
  {
    if key == REF_KEY && value.Str? then TargetInScope(root, scope, TargetOf(value.s)) else RefsInScope(root, scope, value)
  }

  /** No name is given to both a null and something else. */
  ghost predicate NoNullMixed(pairs: set<(string, Node)>) {
    forall name, d :: (name, d) in pairs && (name, Null) in pairs ==> d == Null
  }

  // ----- The induction -----

  ghost predicate Consistent(defs: map<string, Node>, pairs: set<(string, Node)>) {
    forall p :: p in pairs ==> p.0 in defs && defs[p.0] == p.1
  }

  ghost predicate DefinitionOk(root: Node, defs: map<string, Node>, scope: Scope, name: string, d: Node) {
    && name in defs && defs[name] == StripDefs(d)
    && RefsInScope(root, scope, d) && Consistent(defs, DefPairs(d))
  }

  ghost predicate BlockOk(root: Node, defs: map<string, Node>, scope: Scope, block: map<string, Node>) {
    forall name :: name in block ==> DefinitionOk(root, defs, scope, name, block[name])
  }

  ghost predicate ScopeOk(root: Node, defs: map<string, Node>, scope: Scope) {
    forall i :: 0 <= i < |scope| ==> BlockOk(root, defs, scope[..i + 1], scope[i])
  }

  ghost predicate NodeOk(root: Node, defs: map<string, Node>, scope: Scope, node: Node) {
    ScopeOk(root, defs, scope) && RefsInScope(root, scope, node) && Consistent(defs, DefPairs(node))
  }

  /** How `out` must provide for the references of `root`. */
  ghost predicate Provides(root: Node, defs: map<string, Node>, out: Node) {
    && ComponentScope(out) == []
    && (forall name :: name in Components(root) ==> NodeOk(root, defs, ComponentScope(root), Components(root)[name]))
    && (forall name :: name in Components(root) ==>
          name in Components(out) && Components(out)[name] == Published(Components(root)[name]))
    && (forall name :: name in defs ==>
          name in Components(out) && Components(out)[name] == RewriteRefs(defs[name]))
  }

  lemma FieldPairsOf(f: map<string, Node>, k: string)
    requires k in f && k != DEFS_KEY
    ensures DefPairs(f[k]) <= DefPairs(Obj(f))
  {}

  lemma ItemPairsOf(items: seq<Node>, i: nat)
    requires i < |items|
    ensures DefPairs(items[i]) <= DefPairs(Arr(items))
  {}

  lemma PushOk(root: Node, defs: map<string, Node>, scope: Scope, f: map<string, Node>)
    requires NodeOk(root, defs, scope, Obj(f))
    ensures ScopeOk(root, defs, Push(scope, f))
  {
    if HasBlock(f) {
      var g, inner := f[DEFS_KEY].fields, Push(scope, f);
      forall i | 0 <= i < |inner| ensures BlockOk(root, defs, inner[..i + 1], inner[i]) {
        if i < |scope| {
          assert inner[..i + 1] == scope[..i + 1] && inner[i] == scope[i];
        } else {
          assert inner[..i + 1] == inner;
          BlockInside(f);
        }
      }
    }
  }

  lemma BlockInside(f: map<string, Node>)
    requires HasBlock(f)
    ensures forall name :: name in f[DEFS_KEY].fields ==>
      (name, StripDefs(f[DEFS_KEY].fields[name])) in DefPairs(Obj(f)) && DefPairs(f[DEFS_KEY].fields[name]) <= DefPairs(Obj(f))
  {
    var g := f[DEFS_KEY].fields;
    assert BlockPairs(g, g.Keys) <= DefPairs(Obj(f));
    forall name | name in g ensures DefPairs(g[name]) <= DefPairs(Obj(f)) {
      assert DefPairs(g[name]) <= FieldPairs(g, g.Keys);
    }
  }

  lemma OuterOk(root: Node, defs: map<string, Node>, scope: Scope, i: nat)
    requires i < |scope| && ScopeOk(root, defs, scope)
    ensures ScopeOk(root, defs, scope[..i + 1])
  {
    var outer := scope[..i + 1];
    forall j | 0 <= j < |outer| ensures BlockOk(root, defs, outer[..j + 1], outer[j]) {
      assert outer[..j + 1] == scope[..j + 1] && outer[j] == scope[j];
    }
  }

  lemma PublishedFields(f: map<string, Node>)
    ensures Published(Obj(f)).Obj? && Published(Obj(f)).fields.Keys == f.Keys - {DEFS_KEY}
    ensures forall k :: k in f && k != DEFS_KEY ==>
      Published(Obj(f)).fields[k] == if k == REF_KEY && f[k].Str? then Str(RepointedRef(f[k].s)) else Published(f[k])
  {
    StrippedFields(f);
  }

  /** A node means in `out` what it meant in `root`. */
  lemma {:induction false} UnfoldPreserved(root: Node, defs: map<string, Node>, out: Node,
                                           scope: Scope, node: Node, depth: nat)
    requires Provides(root, defs, out) && NodeOk(root, defs, scope, node)
    ensures Unfold(root, scope, node, depth) == Unfold(out, [], Published(node), depth)
    decreases depth, node, 0
  {
    match node
    case Obj(f) =>
      PublishedFields(f);
      PushOk(root, defs, scope, f);
      var g := Published(Obj(f)).fields;
      forall k | k in g
        ensures UnfoldEntry(root, Push(scope, f), k, f[k], depth) == UnfoldEntry(out, [], k, g[k], depth)
      {
        FieldPairsOf(f, k);
        EntryPreserved(root, defs, out, Push(scope, f), k, f[k], depth);
      }
      SameObject(root, scope, f, out, g, depth);
    case Arr(items) =>
      forall i | 0 <= i < |items|
        ensures Unfold(root, scope, items[i], depth) == Unfold(out, [], Published(items[i]), depth)
      {
        ItemPairsOf(items, i);
        UnfoldPreserved(root, defs, out, scope, items[i], depth);
      }
      SameArray(root, scope, items, out, depth);
    case _ =>
  }

  lemma SameObject(root: Node, scope: Scope, f: map<string, Node>, out: Node, g: map<string, Node>, depth: nat)
    requires g.Keys == f.Keys - {DEFS_KEY}
    requires forall k :: k in g ==> UnfoldEntry(root, Push(scope, f), k, f[k], depth) == UnfoldEntry(out, [], k, g[k], depth)
    ensures Unfold(root, scope, Obj(f), depth) == Unfold(out, [], Obj(g), depth)
  {
    assert Push([], g) == [];
  }

  lemma SameArray(root: Node, scope: Scope, items: seq<Node>, out: Node, depth: nat)
    requires forall i :: 0 <= i < |items| ==> Unfold(root, scope, items[i], depth) == Unfold(out, [], Published(items[i]), depth)
    ensures Unfold(root, scope, Arr(items), depth) == Unfold(out, [], Published(Arr(items)), depth)
  {
    var mine := seq(|items|, i requires 0 <= i < |items| => Published(items[i]));
    assert Published(Arr(items)) == Arr(mine);
  }

  lemma {:induction false} EntryPreserved(root: Node, defs: map<string, Node>, out: Node,
                                          scope: Scope, key: string, value: Node, depth: nat)
    requires Provides(root, defs, out) && ScopeOk(root, defs, scope)
    requires EntryInScope(root, scope, key, value) && Consistent(defs, DefPairs(value))
    ensures UnfoldEntry(root, scope, key, value, depth)
         == UnfoldEntry(out, [], key, if key == REF_KEY && value.Str? then Str(RepointedRef(value.s)) else Published(value), depth)
    decreases depth, value, 2
  {
    if key == REF_KEY && value.Str? {
      RefPreserved(root, defs, out, scope, value, depth);
    } else {
      UnfoldPreserved(root, defs, out, scope, value, depth);
      assert Published(value).Str? ==> value.Str?;
    }
  }

  lemma {:induction false} RefPreserved(root: Node, defs: map<string, Node>, out: Node, scope: Scope, ref: Node, depth: nat)
    requires Provides(root, defs, out) && ScopeOk(root, defs, scope)
    requires ref.Str? && TargetInScope(root, scope, TargetOf(ref.s))
    ensures UnfoldEntry(root, scope, REF_KEY, ref, depth) == UnfoldEntry(out, [], REF_KEY, Str(RepointedRef(ref.s)), depth)
    decreases depth, ref, 1
  {
    RepointedTarget(ref.s);
    FoundPreserved(root, defs, out, scope, TargetOf(ref.s), ref, Str(RepointedRef(ref.s)), depth);
  }

  lemma {:induction false} FoundPreserved(root: Node, defs: map<string, Node>, out: Node,
                                          scope: Scope, target: Target, ref: Node, moved: Node, depth: nat)
    requires Provides(root, defs, out) && ScopeOk(root, defs, scope)
    requires TargetInScope(root, scope, target) && (target.Outside? ==> moved == ref)
    ensures UnfoldRef(root, Resolve(root, scope, target), ref, depth)
         == UnfoldRef(out, Resolve(out, [], Repointed(target)), moved, depth)
    decreases depth, ref, 0
  {
    if !target.Outside? {
      TargetPreserved(root, defs, out, scope, target);
      var (s, d) := Resolve(root, scope, target).value;
      if depth > 0 {
        ResolvedOk(root, defs, out, scope, target, s, d);
        UnfoldPreserved(root, defs, out, s, d, depth - 1);
      }
      SameFound(root, s, d, ref, out, moved, depth);
    }
  }

  lemma SameFound(root: Node, s: Scope, d: Node, ref: Node, out: Node, moved: Node, depth: nat)
    requires 0 < depth ==> Unfold(root, s, d, depth - 1) == Unfold(out, [], Published(d), depth - 1)
    ensures UnfoldRef(root, Some((s, d)), ref, depth) == UnfoldRef(out, Some(([], Published(d))), moved, depth)
  {}

  lemma InnermostOk(root: Node, defs: map<string, Node>, scope: Scope, name: string, i: nat)
    requires ScopeOk(root, defs, scope) && i < |scope| && name in scope[i]
    ensures NodeOk(root, defs, scope[..i + 1], scope[i][name])
    ensures name in defs && defs[name] == StripDefs(scope[i][name])
  {
    OuterOk(root, defs, scope, i);
    assert BlockOk(root, defs, scope[..i + 1], scope[i]);
  }

  lemma ResolvedOk(root: Node, defs: map<string, Node>, out: Node, scope: Scope, target: Target, s: Scope, d: Node)
    requires Provides(root, defs, out) && ScopeOk(root, defs, scope) && Resolve(root, scope, target) == Some((s, d))
    ensures NodeOk(root, defs, s, d)
  {
    match target
    case Local(name) =>
      var i := Innermost(scope, name);
      assert s == scope[..i + 1] && d == scope[i][name];
      InnermostOk(root, defs, scope, name, i);
    case Component(name) =>
      assert s == ComponentScope(root) && d == Components(root)[name];
  }

  lemma ComponentResolves(out: Node, name: string)
    requires ComponentScope(out) == [] && name in Components(out)
    ensures Resolve(out, [], Component(name)) == Some(([], Components(out)[name]))
  {}

  /** A repointed reference resolves to the published form of what it named. */
  lemma TargetPreserved(root: Node, defs: map<string, Node>, out: Node, scope: Scope, target: Target)
    requires Provides(root, defs, out) && ScopeOk(root, defs, scope) && Resolve(root, scope, target).Some?
    ensures Resolve(out, [], Repointed(target)) == Some(([], Published(Resolve(root, scope, target).value.1)))
  {
    if target.Local? {
      InnermostOk(root, defs, scope, target.name, Innermost(scope, target.name));
    }
    ComponentResolves(out, target.name);
  }

  // ----- What a successful call guarantees -----

  ghost function AllPairs(spec: Node): set<(string, Node)> {
    DefPairs(spec) + ComponentPairs(spec)
  }

  /** Local references are in scope, and no schema is called `$defs` or `$ref`. */
  ghost predicate Wellformed(spec: Node) {
    && spec.Obj? && RefsInScope(spec, [], spec)
    && (forall d :: (DEFS_KEY, d) !in AllPairs(spec) && (REF_KEY, d) !in AllPairs(spec))
  }

  lemma DefinitionsConsistent(spec: Node, defs: map<string, Node>)
    requires Gathered(defs, DefPairs(spec)) && NoNullMixed(AllPairs(spec))
    ensures Consistent(defs, DefPairs(spec))
  {
    forall p | p in DefPairs(spec) ensures p.0 in defs && defs[p.0] == p.1 {
      assert (p.0, p.1) in AllPairs(spec) && (p.0, defs[p.0]) in AllPairs(spec);
    }
  }

  /** The schemas of the published document, before its references are repointed. */
  function AllSchemas(spec: Node, defs: map<string, Node>): map<string, Node>
    requires Expandable(StripDefs(spec))
  {
    ExistingSchemas(StripDefs(spec)) + defs
  }

  lemma PublishedComponents(spec: Node, defs: map<string, Node>, out: Node)
    requires spec.Obj? && Hoists(spec, defs, out) && DEFS_KEY !in defs
    ensures ComponentScope(out) == [] && Components(out).Keys == AllSchemas(spec, defs).Keys
    ensures forall name :: name in Components(out) && name != REF_KEY ==>
      Components(out)[name] == RewriteRefs(AllSchemas(spec, defs)[name])
  {
    var all := AllSchemas(spec, defs);
    ExistingAreComponents(spec);
    NoBlockKey(all);
    var stored := AddSchemas(StripDefs(spec), defs);
    var full := WithSchemas(StripDefs(spec)).fields;
    assert DEFS_KEY !in full && DEFS_KEY !in full["components"].fields;
    assert out == RewriteRefs(Obj(stored.fields));
    assert out.fields["components"] == RewriteRefs(stored.fields["components"]);
    var schemas := stored.fields["components"].fields["schemas"];
    assert out.fields["components"].fields["schemas"] == RewriteRefs(schemas);
    if schemas.Obj? {
      assert schemas == Obj(all);
      NoBlockKey(RewriteRefs(schemas).fields);
    }
  }

  lemma ComponentsOk(spec: Node, defs: map<string, Node>, name: string)
    requires spec.Obj? && NodeOk(spec, defs, [], spec) && name in Components(spec)
    ensures NodeOk(spec, defs, ComponentScope(spec), Components(spec)[name])
  {
    var components := spec.fields["components"];
    FieldOk(spec, defs, [], spec.fields, "components");
    var inner := Push([], spec.fields);
    FieldOk(spec, defs, inner, components.fields, "schemas");
    var schemas := components.fields["schemas"].fields;
    PushOk(spec, defs, Push(inner, components.fields), schemas);
    FieldPairsOf(schemas, name);
    assert EntryInScope(spec, ComponentScope(spec), name, schemas[name]);
  }

  lemma FieldOk(root: Node, defs: map<string, Node>, scope: Scope, f: map<string, Node>, k: string)
    requires NodeOk(root, defs, scope, Obj(f)) && k in f && k != DEFS_KEY && k != REF_KEY
    ensures NodeOk(root, defs, Push(scope, f), f[k])
  {
    PushOk(root, defs, scope, f);
    FieldPairsOf(f, k);
    assert EntryInScope(root, Push(scope, f), k, f[k]);
  }

  lemma ExistingPublished(spec: Node, defs: map<string, Node>, out: Node, name: string)
    requires spec.Obj? && NoNullMixed(AllPairs(spec)) && Hoists(spec, defs, out) && DEFS_KEY !in defs
    requires name in Components(spec) && name != REF_KEY
    ensures name in Components(out) && Components(out)[name] == Published(Components(spec)[name])
  {
    PublishedComponents(spec, defs, out);
    ExistingAreComponents(spec);
    StrippedComponents(spec);
    if name in defs {
      assert Fits(ExistingSchemas(StripDefs(spec)), name, defs[name]);
      assert (name, defs[name]) in AllPairs(spec);
      assert (name, StripDefs(Components(spec)[name])) in AllPairs(spec);
    }
  }

  lemma HoistProvides(spec: Node, defs: map<string, Node>, out: Node)
    requires Wellformed(spec) && NoNullMixed(AllPairs(spec)) && Hoists(spec, defs, out)
    ensures NodeOk(spec, defs, [], spec) && Provides(spec, defs, out)
  {
    DefinitionsConsistent(spec, defs);
    PublishedComponents(spec, defs, out);
    forall name | name in Components(spec)
      ensures NodeOk(spec, defs, ComponentScope(spec), Components(spec)[name])
    {
      ComponentsOk(spec, defs, name);
    }
    forall name | name in Components(spec) && name != REF_KEY
      ensures name in Components(out) && Components(out)[name] == Published(Components(spec)[name])
    {
      ExistingPublished(spec, defs, out, name);
    }
  }

  /** Everything outside `components` means what it meant, to any depth. */
  lemma HoistPreservesDocument(spec: Node, defs: map<string, Node>, out: Node, depth: nat)
    requires Wellformed(spec) && NoNullMixed(AllPairs(spec)) && Hoists(spec, defs, out)
    ensures out.Obj?
    ensures Unfold(spec, [], Obj(spec.fields - {"components"}), depth) == Unfold(out, [], Obj(out.fields - {"components"}), depth)
  {
    HoistProvides(spec, defs, out);
    var f, g := spec.fields, out.fields - {"components"};
    PublishedFields(f);
    assert Push([], f - {"components"}) == Push([], f);
    assert g.Keys == (f - {"components"}).Keys - {DEFS_KEY};
    PushOk(spec, defs, [], f);
    forall k | k in g
      ensures UnfoldEntry(spec, Push([], f), k, f[k], depth) == UnfoldEntry(out, [], k, g[k], depth)
    {
      FieldPairsOf(f, k);
      EntryPreserved(spec, defs, out, Push([], f), k, f[k], depth);
    }
    SameObject(spec, [], f - {"components"}, out, g, depth);
  }

  /** The definition `d` of `name` stands somewhere in `node`, inside the blocks `s`. */
  ghost predicate DefinedAt(node: Node, scope: Scope, name: string, d: Node, s: Scope)
    decreases node
  {
    match node
    case Obj(f) =>
      || (HasBlock(f) && name in f[DEFS_KEY].fields && d == f[DEFS_KEY].fields[name] && s == Push(scope, f))
      || (HasBlock(f) && exists k :: k in f[DEFS_KEY].fields && DefinedAt(f[DEFS_KEY].fields[k], Push(scope, f), name, d, s))
      || exists k :: k in f && k != DEFS_KEY && DefinedAt(f[k], Push(scope, f), name, d, s)
    case Arr(items) => exists i :: 0 <= i < |items| && DefinedAt(items[i], scope, name, d, s)
    case _ => false
  }

  lemma {:induction false} DefinedIsCollected(node: Node, scope: Scope, name: string, d: Node, s: Scope)
    requires DefinedAt(node, scope, name, d, s)
    ensures (name, StripDefs(d)) in DefPairs(node)
    decreases node
  {
    match node
    case Obj(f) =>
      if HasBlock(f) {
        BlockInside(f);
      }
      if exists k :: k in f && k != DEFS_KEY && DefinedAt(f[k], Push(scope, f), name, d, s) {
        var k :| k in f && k != DEFS_KEY && DefinedAt(f[k], Push(scope, f), name, d, s);
        DefinedIsCollected(f[k], Push(scope, f), name, d, s);
        FieldPairsOf(f, k);
      } else if !(name in f[DEFS_KEY].fields && d == f[DEFS_KEY].fields[name]) {
        var k :| k in f[DEFS_KEY].fields && DefinedAt(f[DEFS_KEY].fields[k], Push(scope, f), name, d, s);
        DefinedIsCollected(f[DEFS_KEY].fields[k], Push(scope, f), name, d, s);
      }
    case Arr(items) =>
      var i :| 0 <= i < |items| && DefinedAt(items[i], scope, name, d, s);
      DefinedIsCollected(items[i], scope, name, d, s);
      ItemPairsOf(items, i);
  }

  lemma {:induction false} CollectedIsDefined(node: Node, scope: Scope, name: string, x: Node) returns (d: Node, s: Scope)
    requires (name, x) in DefPairs(node)
    ensures DefinedAt(node, scope, name, d, s) && x == StripDefs(d)
    decreases node
  {
    match node
    case Obj(f) =>
      if (name, x) in FieldPairs(f, f.Keys - {DEFS_KEY}) {
        var k :| k in f && k != DEFS_KEY && (name, x) in DefPairs(f[k]);
        d, s := CollectedIsDefined(f[k], Push(scope, f), name, x);
      } else {
        var g := f[DEFS_KEY].fields;
        if (name, x) in FieldPairs(g, g.Keys) {
          var k :| k in g && (name, x) in DefPairs(g[k]);
          d, s := CollectedIsDefined(g[k], Push(scope, f), name, x);
        } else {
          d, s := g[name], Push(scope, f);
        }
      }
    case Arr(items) =>
      var i :| 0 <= i < |items| && (name, x) in DefPairs(items[i]);
      d, s := CollectedIsDefined(items[i], scope, name, x);
  }

  lemma {:induction false} DefinedOk(root: Node, defs: map<string, Node>, node: Node, scope: Scope, name: string, d: Node, s: Scope)
    requires NodeOk(root, defs, scope, node) && DefinedAt(node, scope, name, d, s)
    ensures NodeOk(root, defs, s, d)
    decreases node
  {
    match node
    case Obj(f) =>
      PushOk(root, defs, scope, f);
      if HasBlock(f) {
        BlockInside(f);
      }
      if exists k :: k in f && k != DEFS_KEY && DefinedAt(f[k], Push(scope, f), name, d, s) {
        var k :| k in f && k != DEFS_KEY && DefinedAt(f[k], Push(scope, f), name, d, s);
        assert EntryInScope(root, Push(scope, f), k, f[k]);
        FieldPairsOf(f, k);
        DefinedOk(root, defs, f[k], Push(scope, f), name, d, s);
      } else if !(name in f[DEFS_KEY].fields && d == f[DEFS_KEY].fields[name] && s == Push(scope, f)) {
        var k :| k in f[DEFS_KEY].fields && DefinedAt(f[DEFS_KEY].fields[k], Push(scope, f), name, d, s);
        DefinedOk(root, defs, f[DEFS_KEY].fields[k], Push(scope, f), name, d, s);
      }
    case Arr(items) =>
      var i :| 0 <= i < |items| && DefinedAt(items[i], scope, name, d, s);
      ItemPairsOf(items, i);
      DefinedOk(root, defs, items[i], scope, name, d, s);
  }

  /** Every definition means what the component of its name means in `out`. */
  ghost predicate DefinitionsKept(spec: Node, out: Node, depth: nat) {
    forall name, d, s :: DefinedAt(spec, [], name, d, s) ==>
      name in Components(out) && Unfold(spec, s, d, depth) == Unfold(out, [], Components(out)[name], depth)
  }

  /** Every component that was there means what it meant. */
  ghost predicate ComponentsKept(spec: Node, out: Node, depth: nat) {
    forall name :: name in Components(spec) ==>
      name in Components(out)
      && Unfold(spec, ComponentScope(spec), Components(spec)[name], depth) == Unfold(out, [], Components(out)[name], depth)
  }

  lemma HoistPreservesSchemas(spec: Node, defs: map<string, Node>, out: Node, depth: nat)
    requires Wellformed(spec) && NoNullMixed(AllPairs(spec)) && Hoists(spec, defs, out)
    ensures DefinitionsKept(spec, out, depth) && ComponentsKept(spec, out, depth)
  {
    HoistProvides(spec, defs, out);
    forall name, d, s | DefinedAt(spec, [], name, d, s)
      ensures name in Components(out) && Unfold(spec, s, d, depth) == Unfold(out, [], Components(out)[name], depth)
    {
      DefinedIsCollected(spec, [], name, d, s);
      DefinedOk(spec, defs, spec, [], name, d, s);
      UnfoldPreserved(spec, defs, out, s, d, depth);
    }
    forall name | name in Components(spec)
      ensures name in Components(out)
      ensures Unfold(spec, ComponentScope(spec), Components(spec)[name], depth) == Unfold(out, [], Components(out)[name], depth)
    {
      UnfoldPreserved(spec, defs, out, ComponentScope(spec), Components(spec)[name], depth);
    }
  }

  lemma NullStaysNull(root: Node, scope: Scope, node: Node, depth: nat)
    ensures Unfold(root, scope, node, depth) == Null <==> node == Null
    ensures RewriteRefs(node) == Null <==> node == Null
    ensures StripDefs(node) == Null <==> node == Null
  {}

  /** A name given to both a null and another schema loses one of the two meanings. */
  lemma MixedNullIsLost(spec: Node, defs: map<string, Node>, out: Node, depth: nat)
    requires Wellformed(spec) && Hoists(spec, defs, out) && !NoNullMixed(AllPairs(spec))
    ensures !DefinitionsKept(spec, out, depth) || !ComponentsKept(spec, out, depth)
  {
    var name, x :| (name, x) in AllPairs(spec) && (name, Null) in AllPairs(spec) && x != Null;
    PublishedComponents(spec, defs, out);
    ExistingAreComponents(spec);
    StrippedComponents(spec);
    assert name in Components(out) ==> Components(out)[name] != Null by {
      if name in defs {
        assert (name, defs[name]) in DefPairs(spec);
        assert Fits(ExistingSchemas(StripDefs(spec)), name, defs[name]);
        assert (name, x) in DefPairs(spec) ==> defs[name] == x;
        NullStaysNull(out, [], defs[name], depth);
      }
      if name in Components(out) {
        NullStaysNull(out, [], AllSchemas(spec, defs)[name], depth);
      }
    }
    if name in Components(out) {
      NullStaysNull(out, [], Components(out)[name], depth);
    }
    if (name, Null) in DefPairs(spec) {
      var d, s := CollectedIsDefined(spec, [], name, Null);
      NullStaysNull(spec, s, d, depth);
    } else {
      NullStaysNull(spec, ComponentScope(spec), Components(spec)[name], depth);
    }
  }

  /** Hoisting keeps every schema's meaning exactly when no name is given to both a null and
      another schema: the script's `is not None` tests let such a null be overwritten. */
  lemma HoistKeepsMeaningIff(spec: Node, defs: map<string, Node>, out: Node, depth: nat)
    requires Wellformed(spec) && Hoists(spec, defs, out)
    ensures DefinitionsKept(spec, out, depth) && ComponentsKept(spec, out, depth) <==> NoNullMixed(AllPairs(spec))
  {
    if NoNullMixed(AllPairs(spec)) {
      HoistPreservesSchemas(spec, defs, out, depth);
    } else {
      MixedNullIsLost(spec, defs, out, depth);
    }
  }

  // ----- Nothing is left behind -----

  predicate HasDefsKey(node: Node) {
    match node
    case Obj(f) => DEFS_KEY in f || exists k :: k in f && HasDefsKey(f[k])
    case Arr(items) => exists i :: 0 <= i < |items| && HasDefsKey(items[i])
    case _ => false
  }

  predicate HasLocalRef(node: Node) {
    match node
    case Obj(f) =>
      || (REF_KEY in f && f[REF_KEY].Str? && TargetOf(f[REF_KEY].s).Local?)
      || exists k :: k in f && HasLocalRef(f[k])
    case Arr(items) => exists i :: 0 <= i < |items| && HasLocalRef(items[i])
    case _ => false
  }

  /** A way down a tree: by the key of an object or the index of a list. */
  datatype Hop = Key(k: string) | Index(i: nat)

  function Below(node: Node, hops: seq<Hop>): Option<Node> {
    if hops == [] then Some(node)
    else if hops[0].Key? && node.Obj? && hops[0].k in node.fields then Below(node.fields[hops[0].k], hops[1..])
    else if hops[0].Index? && node.Arr? && hops[0].i < |node.items| then Below(node.items[hops[0].i], hops[1..])
    else None
  }

  /** There is an object with a reference into `$defs`. */
  predicate LocalRefAt(node: Node, hops: seq<Hop>) {
    match Below(node, hops)
    case Some(Obj(f)) => REF_KEY in f && f[REF_KEY].Str? && "#/$defs/" <= f[REF_KEY].s
    case _ => false
  }

  predicate DefsKeyAt(node: Node, hops: seq<Hop>) {
    match Below(node, hops)
    case Some(Obj(f)) => "$defs" in f
    case _ => false
  }

  lemma BelowNext(node: Node, hop: Hop, hops: seq<Hop>)
    ensures Below(node, [hop] + hops) ==
      if hop.Key? && node.Obj? && hop.k in node.fields then Below(node.fields[hop.k], hops)
      else if hop.Index? && node.Arr? && hop.i < |node.items| then Below(node.items[hop.i], hops)
      else None
  {
    assert ([hop] + hops)[1..] == hops;
  }

  /** Local references and definitions keys are what stands somewhere down the tree. */
  lemma {:induction false} LocalRefIff(node: Node)
    ensures HasLocalRef(node) <==> exists hops :: LocalRefAt(node, hops)
    decreases node
  {
    if HasLocalRef(node) {
      var hops := LocalRefThere(node);
    }
    if hops :| LocalRefAt(node, hops) {
      LocalRefHere(node, hops);
    }
  }

  lemma {:induction false} LocalRefThere(node: Node) returns (hops: seq<Hop>)
    requires HasLocalRef(node)
    ensures LocalRefAt(node, hops)
    decreases node
  {
    hops := [];
    if node.Obj? && !LocalRefAt(node, []) {
      var k :| k in node.fields && HasLocalRef(node.fields[k]);
      hops := LocalRefThere(node.fields[k]);
      BelowNext(node, Key(k), hops);
      hops := [Key(k)] + hops;
    } else if node.Arr? {
      var i :| 0 <= i < |node.items| && HasLocalRef(node.items[i]);
      hops := LocalRefThere(node.items[i]);
      BelowNext(node, Index(i), hops);
      hops := [Index(i)] + hops;
    }
  }

  lemma {:induction false} LocalRefHere(node: Node, hops: seq<Hop>)
    requires LocalRefAt(node, hops)
    ensures HasLocalRef(node)
    decreases |hops|
  {
    if hops != [] {
      LocalRefHere(if hops[0].Key? then node.fields[hops[0].k] else node.items[hops[0].i], hops[1..]);
    }
  }

  lemma {:induction false} DefsKeyIff(node: Node)
    ensures HasDefsKey(node) <==> exists hops :: DefsKeyAt(node, hops)
    decreases node
  {
    if HasDefsKey(node) {
      var hops := DefsKeyThere(node);
    }
    if hops :| DefsKeyAt(node, hops) {
      DefsKeyHere(node, hops);
    }
  }

  lemma {:induction false} DefsKeyThere(node: Node) returns (hops: seq<Hop>)
    requires HasDefsKey(node)
    ensures DefsKeyAt(node, hops)
    decreases node
  {
    hops := [];
    if node.Obj? && DEFS_KEY !in node.fields {
      var k :| k in node.fields && HasDefsKey(node.fields[k]);
      hops := DefsKeyThere(node.fields[k]);
      BelowNext(node, Key(k), hops);
      hops := [Key(k)] + hops;
    } else if node.Arr? {
      var i :| 0 <= i < |node.items| && HasDefsKey(node.items[i]);
      hops := DefsKeyThere(node.items[i]);
      BelowNext(node, Index(i), hops);
      hops := [Index(i)] + hops;
    }
  }

  lemma {:induction false} DefsKeyHere(node: Node, hops: seq<Hop>)
    requires DefsKeyAt(node, hops)
    ensures HasDefsKey(node)
    decreases |hops|
  {
    if hops != [] {
      DefsKeyHere(if hops[0].Key? then node.fields[hops[0].k] else node.items[hops[0].i], hops[1..]);
    }
  }

  lemma {:induction false} StripLeavesNoKey(node: Node)
    ensures !HasDefsKey(StripDefs(node))
  {
    match node
    case Obj(f) =>
      forall k | k in f && k != DEFS_KEY ensures !HasDefsKey(StripDefs(f[k])) { StripLeavesNoKey(f[k]); }
    case Arr(items) =>
      forall i | 0 <= i < |items| ensures !HasDefsKey(StripDefs(items[i])) { StripLeavesNoKey(items[i]); }
    case _ =>
  }

  lemma {:induction false} RewriteKeepsKeys(node: Node)
    ensures HasDefsKey(RewriteRefs(node)) <==> HasDefsKey(node)
  {
    match node
    case Obj(f) =>
      forall k | k in f ensures HasDefsKey(RewriteRefs(f[k])) <==> HasDefsKey(f[k]) { RewriteKeepsKeys(f[k]); }
      var g := RewriteRefs(node).fields;
      forall k | k in f ensures HasDefsKey(g[k]) <==> HasDefsKey(f[k]) {}
    case Arr(items) =>
      forall i | 0 <= i < |items| ensures HasDefsKey(RewriteRefs(items[i])) <==> HasDefsKey(items[i]) { RewriteKeepsKeys(items[i]); }
      forall i | 0 <= i < |items| ensures HasDefsKey(RewriteRefs(node).items[i]) <==> HasDefsKey(items[i]) {}
    case _ =>
  }

  lemma {:induction false} RewriteLeavesNoRef(node: Node)
    ensures !HasLocalRef(RewriteRefs(node))
  {
    match node
    case Obj(f) =>
      forall k | k in f ensures !HasLocalRef(RewriteRefs(f[k])) { RewriteLeavesNoRef(f[k]); }
      if REF_KEY in f && f[REF_KEY].Str? { RepointedTarget(f[REF_KEY].s); }
    case Arr(items) =>
      forall i | 0 <= i < |items| ensures !HasLocalRef(RewriteRefs(items[i])) { RewriteLeavesNoRef(items[i]); }
    case _ =>
  }

  lemma StoredFields(root: Node, defs: map<string, Node>)
    requires Expandable(root) && (HasSchemasPath(root) || defs == map[])
    ensures var full := AddSchemas(root, defs);
      full.Obj? && full.fields.Keys == root.fields.Keys + {"components"} && full.fields["components"].Obj?
      && forall k :: k in full.fields && k != "components" ==> full.fields[k] == root.fields[k]
    ensures var before := if "components" in root.fields then root.fields["components"].fields else map[];
      var after := AddSchemas(root, defs).fields["components"].fields;
      && after.Keys == before.Keys + {"schemas"}
      && (forall k :: k in after && k != "schemas" ==> after[k] == before[k])
      && if after["schemas"].Obj? then after["schemas"].fields == ExistingSchemas(root) + defs
         else "schemas" in before && after["schemas"] == before["schemas"] && defs == map[]
  {}

  lemma StoredKeys(spec: Node, defs: map<string, Node>)
    requires spec.Obj? && Expandable(StripDefs(spec)) && (HasSchemasPath(StripDefs(spec)) || defs == map[])
    requires Gathered(defs, DefPairs(spec))
    ensures HasDefsKey(AddSchemas(StripDefs(spec), defs)) <==> DEFS_KEY in defs
  {
    var root := StripDefs(spec);
    StripLeavesNoKey(spec);
    forall name | name in defs ensures !HasDefsKey(defs[name]) {
      var d, s := CollectedIsDefined(spec, [], name, defs[name]);
      StripLeavesNoKey(d);
    }
    AddedKeys(root, defs);
  }

  lemma AddedKeys(root: Node, defs: map<string, Node>)
    requires Expandable(root) && (HasSchemasPath(root) || defs == map[])
    requires !HasDefsKey(root) && forall name :: name in defs ==> !HasDefsKey(defs[name])
    ensures HasDefsKey(AddSchemas(root, defs)) <==> DEFS_KEY in defs
  {
    StoredFields(root, defs);
    var full := AddSchemas(root, defs);
    var components := full.fields["components"];
    AddedSchemaKeys(root, defs);
    assert HasDefsKey(components) <==> HasDefsKey(components.fields["schemas"]);
    assert HasDefsKey(full) <==> HasDefsKey(components);
  }

  lemma AddedSchemaKeys(root: Node, defs: map<string, Node>)
    requires Expandable(root) && (HasSchemasPath(root) || defs == map[])
    requires !HasDefsKey(root) && forall name :: name in defs ==> !HasDefsKey(defs[name])
    ensures var full := AddSchemas(root, defs);
      full.Obj? && "components" in full.fields && full.fields["components"].Obj? && "schemas" in full.fields["components"].fields
      && (HasDefsKey(full.fields["components"].fields["schemas"]) <==> DEFS_KEY in defs)
  {
    StoredFields(root, defs);
    ExistingClean(root);
    assert DEFS_KEY in defs ==> AddSchemas(root, defs).fields["components"].fields["schemas"].Obj?;
  }

  lemma ExistingClean(root: Node)
    requires Expandable(root) && !HasDefsKey(root)
    ensures !HasDefsKey(Obj(ExistingSchemas(root)))
    ensures forall name :: name in ExistingSchemas(root) ==> !HasDefsKey(ExistingSchemas(root)[name])
  {
    if "components" in root.fields {
      var components := root.fields["components"];
      assert !HasDefsKey(components);
      if "schemas" in components.fields {
        assert !HasDefsKey(components.fields["schemas"]);
      }
    }
  }

  /** Said of the tree itself: no reference into `$defs` stands anywhere in the published document. */
  lemma NoLocalRefAnywhere(spec: Node, defs: map<string, Node>, out: Node, hops: seq<Hop>)
    requires spec.Obj? && Hoists(spec, defs, out)
    ensures !LocalRefAt(out, hops)
    ensures DefsKeyAt(out, hops) ==> exists d :: (DEFS_KEY, d) in DefPairs(spec)
  {
    PublishedIsClean(spec, defs, out);
    LocalRefIff(out);
    DefsKeyIff(out);
  }

  /** The published document has no `#/$defs/` reference, and no `$defs` key unless a definition
      was itself called `$defs`. */
  lemma PublishedIsClean(spec: Node, defs: map<string, Node>, out: Node)
    requires spec.Obj? && Hoists(spec, defs, out)
    ensures !HasLocalRef(out)
    ensures HasDefsKey(out) <==> exists d :: (DEFS_KEY, d) in DefPairs(spec)
  {
    assert DEFS_KEY in defs <==> exists d :: (DEFS_KEY, d) in DefPairs(spec) by {
      if DEFS_KEY in defs {
        assert (DEFS_KEY, defs[DEFS_KEY]) in DefPairs(spec);
      }
    }
    StoredKeys(spec, defs);
    RewriteKeepsKeys(AddSchemas(StripDefs(spec), defs));
    RewriteLeavesNoRef(AddSchemas(StripDefs(spec), defs));
  }

  /** The rest of the `components` object means what it meant. */
  lemma HoistPreservesComponents(spec: Node, defs: map<string, Node>, out: Node, depth: nat)
    requires Wellformed(spec) && NoNullMixed(AllPairs(spec)) && Hoists(spec, defs, out)
    requires "components" in spec.fields
    ensures out.Obj? && "components" in out.fields && out.fields["components"].Obj? && spec.fields["components"].Obj?
    ensures Unfold(spec, Push([], spec.fields), Obj(spec.fields["components"].fields - {"schemas"}), depth)
         == Unfold(out, [], Obj(out.fields["components"].fields - {"schemas"}), depth)
  {
    HoistProvides(spec, defs, out);
    FieldOk(spec, defs, [], spec.fields, "components");
    StrippedFields(spec.fields);
    RestOfComponents(spec, defs, out);
    var scope, f := Push([], spec.fields), spec.fields["components"].fields;
    PublishedFields(f);
    PushOk(spec, defs, scope, f);
    var g := out.fields["components"].fields - {"schemas"};
    assert Push(scope, f - {"schemas"}) == Push(scope, f);
    forall k | k in g
      ensures UnfoldEntry(spec, Push(scope, f), k, f[k], depth) == UnfoldEntry(out, [], k, g[k], depth)
    {
      FieldPairsOf(f, k);
      EntryPreserved(spec, defs, out, Push(scope, f), k, f[k], depth);
    }
    SameObject(spec, scope, f - {"schemas"}, out, g, depth);
  }

  lemma RewrittenFields(f: map<string, Node>)
    ensures RewriteRefs(Obj(f)).Obj? && RewriteRefs(Obj(f)).fields.Keys == f.Keys
    ensures forall k :: k in f && k != REF_KEY ==> RewriteRefs(Obj(f)).fields[k] == RewriteRefs(f[k])
  {}

  lemma SameRewritten(f: map<string, Node>, g: map<string, Node>, k: string)
    requires k != REF_KEY && f - {k} == g - {k}
    ensures RewriteRefs(Obj(f)).fields - {k} == RewriteRefs(Obj(g)).fields - {k}
  {
    var x, y := RewriteRefs(Obj(f)).fields - {k}, RewriteRefs(Obj(g)).fields - {k};
    assert x.Keys == (f - {k}).Keys && y.Keys == (g - {k}).Keys;
    forall j | j in x ensures x[j] == y[j] {
      assert f[j] == (f - {k})[j] && g[j] == (g - {k})[j];
    }
  }

  lemma RewrittenField(f: map<string, Node>, k: string)
    requires k in f && k != REF_KEY && f[k].Obj?
    ensures RewriteRefs(Obj(f)).Obj? && k in RewriteRefs(Obj(f)).fields
    ensures RewriteRefs(Obj(f)).fields[k] == RewriteRefs(f[k]) && RewriteRefs(f[k]).Obj?
  {
    RewrittenFields(f);
  }

  lemma StrippedField(f: map<string, Node>, k: string)
    requires k in f && k != DEFS_KEY && f[k].Obj?
    ensures StripDefs(Obj(f)).Obj? && k in StripDefs(Obj(f)).fields
    ensures StripDefs(Obj(f)).fields[k] == StripDefs(f[k]) && StripDefs(f[k]).Obj?
  {
    StrippedFields(f);
  }

  /** Storing the definitions changes nothing in `components` but the schemas. */
  lemma StoredRest(root: Node, defs: map<string, Node>)
    requires Expandable(root) && (HasSchemasPath(root) || defs == map[])
    requires "components" in root.fields && root.fields["components"].Obj?
    ensures AddSchemas(root, defs).Obj? && "components" in AddSchemas(root, defs).fields
    ensures AddSchemas(root, defs).fields["components"].Obj?
    ensures root.fields["components"].fields - {"schemas"} == AddSchemas(root, defs).fields["components"].fields - {"schemas"}
  {
    StoredFields(root, defs);
  }

  lemma RestOfComponents(spec: Node, defs: map<string, Node>, out: Node)
    requires spec.Obj? && Hoists(spec, defs, out)
    requires "components" in spec.fields && spec.fields["components"].Obj?
    ensures out.Obj? && "components" in out.fields && out.fields["components"].Obj?
    ensures out.fields["components"].fields - {"schemas"} == Published(spec.fields["components"]).fields - {"schemas"}
  {
    var root := StripDefs(spec);
    StrippedField(spec.fields, "components");
    StoredRest(root, defs);
    var full := AddSchemas(root, defs);
    RewrittenField(full.fields, "components");
    SameRewritten(root.fields["components"].fields, full.fields["components"].fields, "schemas");
  }

  /** An object with a `$defs` block that gives one definition. */
  function BlockOf(name: string, d: Node): Node {
    Obj(map[DEFS_KEY := Obj(map[name := d])])
  }

  /** Two `$defs` blocks, the first defining `A` as null, the second as something else. */
  function Example(): Node {
    Obj(map["paths" := Arr([BlockOf("A", Null), BlockOf("A", Atom(1))])])
  }

  /** The call on it can succeed, and then keeps only the second. */
  lemma NullOverwritten()
    ensures Wellformed(Example()) && !NoNullMixed(AllPairs(Example()))
    ensures exists out :: Hoists(Example(), map["A" := Atom(1)], out)
  {
    ExampleIsMixed();
    ExampleHoists();
  }

  lemma ExampleIsMixed()
    ensures Wellformed(Example()) && !NoNullMixed(AllPairs(Example()))
  {
    ExamplePairs();
    ExampleRefs(Example());
    assert ("A", Null) in AllPairs(Example()) && ("A", Atom(1)) in AllPairs(Example());
  }

  lemma ExampleHoists()
    ensures exists out :: Hoists(Example(), map["A" := Atom(1)], out)
  {
    var defs, stripped := map["A" := Atom(1)], StripDefs(Example());
    StrippedFields(Example().fields);
    NothingStored(stripped);
    assert Gathered(defs, DefPairs(Example())) by {
      ExamplePairs();
    }
    assert Hoists(Example(), defs, RewriteRefs(AddSchemas(stripped, defs)));
  }

  /** A document whose one definition is called `$defs` is published with that key. */
  lemma DefsKeyStays()
    ensures var spec := BlockOf(DEFS_KEY, Atom(1));
      exists out :: Hoists(spec, map[DEFS_KEY := Atom(1)], out) && HasDefsKey(out)
  {
    var spec, defs := BlockOf(DEFS_KEY, Atom(1)), map[DEFS_KEY := Atom(1)];
    var stripped := StripDefs(spec);
    StrippedFields(spec.fields);
    NothingStored(stripped);
    BlockOfPairs(DEFS_KEY, Atom(1));
    assert (DEFS_KEY, Atom(1)) in DefPairs(spec);
    assert Gathered(defs, DefPairs(spec));
    var out := RewriteRefs(AddSchemas(stripped, defs));
    assert Hoists(spec, defs, out);
    PublishedIsClean(spec, defs, out);
  }

  lemma ExampleRefs(root: Node)
    ensures RefsInScope(root, [], Example())
  {
    var paths := Arr([BlockOf("A", Null), BlockOf("A", Atom(1))]);
    BlockOfPairs("A", Null);
    BlockOfPairs("A", Atom(1));
    assert paths.items[0] == BlockOf("A", Null) && paths.items[1] == BlockOf("A", Atom(1));
    assert EntryInScope(root, [], "paths", paths);
  }

  lemma NothingStored(root: Node)
    requires root.Obj? && "components" !in root.fields
    ensures Expandable(root) && HasSchemasPath(root) && ExistingSchemas(root) == map[]
  {}

  lemma ExamplePairs()
    ensures DefPairs(Example()) == {("A", Null), ("A", Atom(1))} && ComponentPairs(Example()) == {}
  {
    var paths := Arr([BlockOf("A", Null), BlockOf("A", Atom(1))]);
    var f := map["paths" := paths];
    BlockOfPairs("A", Null);
    BlockOfPairs("A", Atom(1));
    assert paths.items[0] == BlockOf("A", Null) && paths.items[1] == BlockOf("A", Atom(1));
    assert DefPairs(paths) == {("A", Null), ("A", Atom(1))};
    FieldPairsStep(f, {}, "paths");
    assert f.Keys - {DEFS_KEY} == {} + {"paths"};
    assert FieldPairs(f, {}) == {};
  }

  lemma BlockOfPairs(name: string, d: Node)
    requires d == Null || d.Atom?
    ensures DefPairs(BlockOf(name, d)) == {(name, d)}
    ensures forall root :: RefsInScope(root, [], BlockOf(name, d))
  {
    var f := BlockOf(name, d).fields;
    var g := f[DEFS_KEY].fields;
    assert f.Keys - {DEFS_KEY} == {} && FieldPairs(f, {}) == {};
    assert g.Keys == {name} && FieldPairs(g, g.Keys) == {};
    assert BlockPairs(g, g.Keys) == {(name, d)};
  }
}
