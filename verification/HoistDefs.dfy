/**
 Moving local `$defs` blocks of an OpenAPI document into `components/schemas`
 (scripts/generate_openapi.py).

 `StripDefs`, `DefPairs` and `RewriteRefs` say what the three walks of the script do to
 a tree; the class `Hoister` performs them with loops.  What
 hoisting does to the meaning of a document is the subject of `HoistMeaning`.
 */
module HoistDefs {
  import opened Wrappers

  /** A JSON tree.  Scalars other than null and strings are `Atom`s, one per class of
      Python's `==`. */
  datatype Node =
    | Null
    | Atom(id: int)
    | Str(s: string)
    | Arr(items: seq<Node>)
    | Obj(fields: map<string, Node>)

  const DEFS_KEY := "$defs"
  const REF_KEY := "$ref"
  const DEFS_PREFIX := "#/$defs/"
  const COMPONENTS_PREFIX := "#/components/schemas/"

  // ----- What the walks compute -----

  predicate HasBlock(f: map<string, Node>) {
    DEFS_KEY in f && f[DEFS_KEY].Obj?
  }

  /** The tree with every `$defs` key removed, at every level. */
  function StripDefs(node: Node): Node {
    match node
    case Obj(f) => Obj(map k | k in f && k != DEFS_KEY :: StripDefs(f[k]))
    case Arr(items) => Arr(seq(|items|, i requires 0 <= i < |items| => StripDefs(items[i])))
    case _ => node
  }

  /** Every (name, stripped definition) of every `$defs` block, nested blocks included. */
  ghost function DefPairs(node: Node): set<(string, Node)>
    decreases node, 1
  {
    match node
    case Obj(f) =>
      (if HasBlock(f) then BlockPairs(f[DEFS_KEY].fields, f[DEFS_KEY].fields.Keys) else {})
      + FieldPairs(f, f.Keys - {DEFS_KEY})
    case Arr(items) => ItemPairs(items)
    case _ => {}
  }

  ghost function FieldPairs(f: map<string, Node>, keys: set<string>): set<(string, Node)>
    requires keys <= f.Keys
    decreases Obj(f), 0
  {
    set k, p | k in keys && p in DefPairs(f[k]) :: p
  }

  ghost function BlockPairs(g: map<string, Node>, names: set<string>): set<(string, Node)>
    requires names <= g.Keys
    decreases Obj(g), 1
  {
    (set name | name in names :: (name, StripDefs(g[name]))) + FieldPairs(g, names)
  }

  ghost function ItemPairs(items: seq<Node>): set<(string, Node)>
    decreases Arr(items), 0
  {
    set i, p | 0 <= i < |items| && p in DefPairs(items[i]) :: p
  }

  function RepointedRef(r: string): string {
    if DEFS_PREFIX <= r then COMPONENTS_PREFIX + r[|DEFS_PREFIX|..] else r
  }

  /** The tree with every `#/$defs/` reference repointed at `#/components/schemas/`. */
  function RewriteRefs(node: Node): Node {
    match node
    case Obj(f) =>
      Obj(map k | k in f ::
            if k == REF_KEY && f[k].Str? then Str(RepointedRef(f[k].s)) else RewriteRefs(f[k]))
    case Arr(items) => Arr(seq(|items|, i requires 0 <= i < |items| => RewriteRefs(items[i])))
    case _ => node
  }

  function Published(node: Node): Node {
    RewriteRefs(StripDefs(node))
  }

  /** `defs` holds one definition of every name in `pairs`, and only nulls have been left out. */
  ghost predicate Gathered(defs: map<string, Node>, pairs: set<(string, Node)>) {
    && (forall p :: p in pairs ==> p.0 in defs && (p.1 != Null ==> defs[p.0] == p.1))
    && (forall name :: name in defs ==> (name, defs[name]) in pairs)
  }

  /** Two different schemas share a name, one of them not null. */
  ghost predicate Conflicting(pairs: set<(string, Node)>) {
    exists name, d, e :: d != e && d != Null && (name, d) in pairs && (name, e) in pairs
  }

  lemma ConflictGrows(p: set<(string, Node)>, q: set<(string, Node)>)
    requires Conflicting(p) && p <= q
    ensures Conflicting(q)
  {
    var name, d, e :| d != e && d != Null && (name, d) in p && (name, e) in p;
    assert (name, d) in q && (name, e) in q;
  }

  lemma FieldPairsStep(f: map<string, Node>, keys: set<string>, k: string)
    requires keys <= f.Keys && k in f
    ensures FieldPairs(f, keys + {k}) == FieldPairs(f, keys) + DefPairs(f[k])
  {}

  lemma BlockPairsStep(g: map<string, Node>, names: set<string>, name: string)
    requires names <= g.Keys && name in g
    ensures BlockPairs(g, names + {name}) == BlockPairs(g, names) + DefPairs(g[name]) + {(name, StripDefs(g[name]))}
  {
    FieldPairsStep(g, names, name);
  }

  lemma FieldPairsPart(f: map<string, Node>, part: set<string>, keys: set<string>)
    requires part <= keys <= f.Keys
    ensures FieldPairs(f, part) <= FieldPairs(f, keys)
  {}

  lemma BlockPairsPart(g: map<string, Node>, part: set<string>)
    requires part <= g.Keys
    ensures BlockPairs(g, part) <= BlockPairs(g, g.Keys)
  {
    FieldPairsPart(g, part, g.Keys);
  }

  lemma ItemPairsStep(items: seq<Node>, i: nat)
    requires i < |items|
    ensures ItemPairs(items[..i + 1]) == ItemPairs(items[..i]) + DefPairs(items[i])
  {
    assert items[..i + 1] == items[..i] + [items[i]];
    forall p | p in DefPairs(items[i]) ensures p in ItemPairs(items[..i + 1]) {
      assert items[..i + 1][i] == items[i];
    }
    forall p | p in ItemPairs(items[..i]) ensures p in ItemPairs(items[..i + 1]) {
      var j :| 0 <= j < i && p in DefPairs(items[..i][j]);
      assert items[..i + 1][j] == items[..i][j];
    }
    forall p | p in ItemPairs(items[..i + 1]) && p !in DefPairs(items[i]) ensures p in ItemPairs(items[..i]) {
      var j :| 0 <= j < i + 1 && p in DefPairs(items[..i + 1][j]);
      assert items[..i + 1][j] == items[..i][j];
    }
  }

  lemma ItemPairsPart(items: seq<Node>, i: nat)
    requires i <= |items|
    ensures ItemPairs(items[..i]) <= ItemPairs(items)
  {
    forall p | p in ItemPairs(items[..i]) ensures p in ItemPairs(items) {
      var j :| 0 <= j < i && p in DefPairs(items[..i][j]);
      assert items[..i][j] == items[j];
    }
  }

  // ----- The script's walks -----

  datatype HoistError =
    | DuplicateDefinition
    | ComponentCollision
    | NotAnObject

  class Hoister {
    var collected: map<string, Node>
    /** Every definition met so far. */
    ghost var met: set<(string, Node)>

    ghost predicate Valid()
      reads this
    {
      Gathered(collected, met)
    }

    constructor ()
      ensures Valid() && collected == map[] && met == {}
    {
      collected, met := map[], {};
    }

    /** The nested function `collect`.  The order in which it visits the keys of an object is left open. */
    method Collect(node: Node) returns (ok: bool, stripped: Node)
      requires Valid()
      modifies this
      ensures ok ==> stripped == StripDefs(node)
      ensures ok ==> Valid() && met == old(met) + DefPairs(node)
      ensures !ok ==> Conflicting(old(met) + DefPairs(node))
      decreases node, 1
    {
      match node
      case Obj(f) =>
        if HasBlock(f) {
          ok := CollectBlock(f[DEFS_KEY].fields);
          if !ok {
            stripped := node;
            ConflictGrows(old(met) + BlockPairs(f[DEFS_KEY].fields, f[DEFS_KEY].fields.Keys), old(met) + DefPairs(node));
            return;
          }
        }
        ghost var blockMet := met;
        ok, stripped := CollectFields(f);
        if !ok {
          ConflictGrows(blockMet + FieldPairs(f, f.Keys - {DEFS_KEY}), old(met) + DefPairs(node));
        }
      case Arr(items) =>
        ok, stripped := CollectItems(items);
      case _ =>
        ok, stripped := true, node;
    }

    /** Store one definition, unless a different one that is not null holds its name. */
    method Record(name: string, d: Node) returns (ok: bool)
      requires Valid()
      modifies this
      ensures met == old(met) + {(name, d)}
      ensures ok ==> Valid() && collected == old(collected)[name := d]
      ensures !ok ==> Conflicting(met)
    {
      met := met + {(name, d)};
      if name in collected && collected[name] != Null && collected[name] != d {
        assert (name, collected[name]) in met && (name, d) in met;
        return false;
      }
      collected := collected[name := d];
      ok := true;
    }

    /** The loop of `collect` over one `$defs` block. */
    method CollectBlock(g: map<string, Node>) returns (ok: bool)
      requires Valid()
      modifies this
      ensures ok ==> Valid() && met == old(met) + BlockPairs(g, g.Keys)
      ensures !ok ==> Conflicting(old(met) + BlockPairs(g, g.Keys))
      decreases Obj(g), 0
    {
      var todo := g.Keys;
      while todo != {}
        invariant todo <= g.Keys
        invariant Valid() && met == old(met) + BlockPairs(g, g.Keys - todo)
      {
        var name :| name in todo;
        ghost var before, done := met, g.Keys - todo;
        BlockPairsStep(g, done, name);
        todo := todo - {name};
        assert done + {name} == g.Keys - todo;
        BlockPairsPart(g, done + {name});
        var sub;
        ok, sub := Collect(g[name]);
        if !ok {
          ConflictGrows(before + DefPairs(g[name]), old(met) + BlockPairs(g, g.Keys));
          return;
        }
        ok := Record(name, sub);
        if !ok {
          ConflictGrows(before + DefPairs(g[name]) + {(name, sub)}, old(met) + BlockPairs(g, g.Keys));
          return;
        }
      }
      assert g.Keys - {} == g.Keys;
      ok := true;
    }

    /** The loop of `collect` over the remaining values of an object. */
    method CollectFields(f: map<string, Node>) returns (ok: bool, stripped: Node)
      requires Valid()
      modifies this
      ensures ok ==> stripped == StripDefs(Obj(f))
      ensures ok ==> Valid() && met == old(met) + FieldPairs(f, f.Keys - {DEFS_KEY})
      ensures !ok ==> Conflicting(old(met) + FieldPairs(f, f.Keys - {DEFS_KEY}))
      decreases Obj(f), 0
    {
      var out: map<string, Node> := map[];
      ghost var all := f.Keys - {DEFS_KEY};
      var todo := f.Keys - {DEFS_KEY};
      while todo != {}
        invariant todo <= all
        invariant out.Keys == all - todo && forall k :: k in out ==> out[k] == StripDefs(f[k])
        invariant Valid() && met == old(met) + FieldPairs(f, all - todo)
      {
        var k :| k in todo;
        ghost var before, done := met, all - todo;
        FieldPairsStep(f, done, k);
        todo := todo - {k};
        assert done + {k} == all - todo;
        var sub;
        ok, sub := Collect(f[k]);
        if !ok {
          FieldPairsPart(f, done + {k}, all);
          ConflictGrows(before + DefPairs(f[k]), old(met) + FieldPairs(f, all));
          return ok, sub;
        }
        out := out[k := sub];
      }
      assert all - {} == all;
      ok, stripped := true, Obj(out);
    }

    /** The loop of `collect` over an array. */
    method CollectItems(items: seq<Node>) returns (ok: bool, stripped: Node)
      requires Valid()
      modifies this
      ensures ok ==> stripped == StripDefs(Arr(items))
      ensures ok ==> Valid() && met == old(met) + ItemPairs(items)
      ensures !ok ==> Conflicting(old(met) + ItemPairs(items))
      decreases Arr(items), 0
    {
      var out: seq<Node> := [];
      for i := 0 to |items|
        invariant |out| == i && forall j :: 0 <= j < i ==> out[j] == StripDefs(items[j])
        invariant Valid() && met == old(met) + ItemPairs(items[..i])
      {
        ghost var before := met;
        ItemPairsStep(items, i);
        var sub;
        ok, sub := Collect(items[i]);
        if !ok {
          ItemPairsPart(items, i + 1);
          ConflictGrows(before + DefPairs(items[i]), old(met) + ItemPairs(items));
          return ok, sub;
        }
        out := out + [sub];
      }
      assert items[..|items|] == items;
      ok, stripped := true, Arr(out);
    }

    /** The loop of `_hoist_defs` that stores the collected definitions. */
    method Store(schemas: map<string, Node>) returns (r: Option<map<string, Node>>)
      ensures r.Some? ==> r.value == schemas + collected
      ensures r.Some? <==> forall name :: name in collected ==> Fits(schemas, name, collected[name])
    {
      var out := schemas;
      var todo := collected.Keys;
      while todo != {}
        invariant todo <= collected.Keys
        invariant out.Keys == schemas.Keys + (collected.Keys - todo)
        invariant forall name :: name in out ==>
          out[name] == if name in collected && name !in todo then collected[name] else schemas[name]
        invariant forall name :: name in collected && name !in todo ==> Fits(schemas, name, collected[name])
      {
        var name :| name in todo;
        if name in out && out[name] != Null && out[name] != collected[name] {
          assert !Fits(schemas, name, collected[name]);
          return None;
        }
        out := out[name := collected[name]];
        todo := todo - {name};
      }
      assert out == schemas + collected;
      r := Some(out);
    }

    /** `_hoist_defs`: the published document and the hoisted names. */
    method Hoist(spec: Node) returns (r: Result<(Node, set<string>), HoistError>)
      requires spec.Obj? && Valid() && met == {}
      modifies this
      ensures r.Success? ==> Hoists(spec, collected, r.value.0) && r.value.1 == collected.Keys
      ensures r.Failure? ==> match r.error
                             case DuplicateDefinition => Conflicting(DefPairs(spec))
                             case ComponentCollision => Conflicting(DefPairs(spec) + ComponentPairs(spec))
                             case NotAnObject => !HasSchemasPath(StripDefs(spec))
    {
      var ok, stripped := Collect(spec);
      assert {} + DefPairs(spec) == DefPairs(spec);
      if !ok { return Failure(DuplicateDefinition); }
      if !Expandable(stripped) { return Failure(NotAnObject); }
      var full := WithSchemas(stripped).fields;
      var components := full["components"].fields;
      if components["schemas"].Obj? {
        var stored := Store(components["schemas"].fields);
        if stored.None? {
          CollisionConflicts(spec, collected);
          return Failure(ComponentCollision);
        }
        full := full["components" := Obj(components["schemas" := Obj(stored.value)])];
      } else if collected != map[] {
        return Failure(NotAnObject);
      }
      var out := RewriteAll(Obj(full));
      r := Success((out, collected.Keys));
    }

    /** `_rewrite_refs`. */
    static method RewriteAll(node: Node) returns (out: Node)
      ensures out == RewriteRefs(node)
    {
      match node
      case Obj(f) =>
        var fields: map<string, Node> := map[];
        var todo := f.Keys;
        while todo != {}
          invariant todo <= f.Keys
          invariant Obj(fields) == RewriteRefs(Obj(f - todo))
        {
          var k :| k in todo;
          var value;
          if k == REF_KEY && f[k].Str? {
            value := Str(RepointedRef(f[k].s));
          } else {
            value := RewriteAll(f[k]);
          }
          todo := todo - {k};
          fields := fields[k := value];
        }
        assert f - {} == f;
        out := Obj(fields);
      case Arr(items) =>
        var seen: seq<Node> := [];
        while |seen| < |items|
          invariant |seen| <= |items|
          invariant forall i :: 0 <= i < |seen| ==> seen[i] == RewriteRefs(items[i])
        {
          var item := RewriteAll(items[|seen|]);
          seen := seen + [item];
        }
        out := Arr(seen);
      case _ => out := node;
    }
  }

  // ----- The result of a successful call -----

  /** `components` and `components.schemas`, where present, are objects. */
  predicate HasSchemasPath(root: Node) {
    root.Obj? && ("components" in root.fields ==>
      root.fields["components"].Obj? &&
      ("schemas" in root.fields["components"].fields ==> root.fields["components"].fields["schemas"].Obj?))
  }

  /** `setdefault` can be called on `components`. */
  predicate Expandable(root: Node) {
    root.Obj? && ("components" in root.fields ==> root.fields["components"].Obj?)
  }

  /** The two `setdefault` calls. */
  function WithSchemas(root: Node): (r: Node)
    requires Expandable(root)
    ensures r.Obj? && "components" in r.fields && r.fields["components"].Obj?
    ensures "schemas" in r.fields["components"].fields
    ensures HasSchemasPath(root) ==> r.fields["components"].fields["schemas"].Obj?
  {
    var components := if "components" in root.fields then root.fields["components"].fields else map[];
    var filled := if "schemas" in components then components else components["schemas" := Obj(map[])];
    Obj(root.fields["components" := Obj(filled)])
  }

  predicate Fits(schemas: map<string, Node>, name: string, d: Node) {
    name in schemas ==> schemas[name] == Null || schemas[name] == d
  }

  function AddSchemas(root: Node, defs: map<string, Node>): Node
    requires Expandable(root) && (HasSchemasPath(root) || defs == map[])
  {
    var full := WithSchemas(root).fields;
    var components := full["components"].fields;
    if !components["schemas"].Obj? then Obj(full)
    else Obj(full["components" := Obj(components["schemas" := Obj(components["schemas"].fields + defs)])])
  }

  /** The schemas a `#/components/schemas/` reference can name. */
  function Components(root: Node): map<string, Node> {
    if root.Obj? && "components" in root.fields && root.fields["components"].Obj?
       && "schemas" in root.fields["components"].fields && root.fields["components"].fields["schemas"].Obj?
    then root.fields["components"].fields["schemas"].fields - {DEFS_KEY}
    else map[]
  }

  ghost function ComponentPairs(root: Node): set<(string, Node)> {
    set name | name in Components(root) :: (name, StripDefs(Components(root)[name]))
  }

  /** What a call that does not raise has done: `defs` are the collected definitions, `out` the document. */
  ghost predicate Hoists(spec: Node, defs: map<string, Node>, out: Node) {
    && Expandable(StripDefs(spec)) && (HasSchemasPath(StripDefs(spec)) || defs == map[])
    && Gathered(defs, DefPairs(spec))
    && (forall name :: name in defs ==> Fits(ExistingSchemas(StripDefs(spec)), name, defs[name]))
    && out == RewriteRefs(AddSchemas(StripDefs(spec), defs))
  }

  /** The `existing` of the script's second loop. */
  function ExistingSchemas(root: Node): map<string, Node>
    requires Expandable(root)
  {
    var schemas := WithSchemas(root).fields["components"].fields["schemas"];
    if schemas.Obj? then schemas.fields else map[]
  }

  lemma StrippedFields(f: map<string, Node>)
    ensures StripDefs(Obj(f)).Obj? && StripDefs(Obj(f)).fields.Keys == f.Keys - {DEFS_KEY}
    ensures forall k :: k in f && k != DEFS_KEY ==> StripDefs(Obj(f)).fields[k] == StripDefs(f[k])
  {}

  lemma StrippedComponents(spec: Node)
    requires spec.Obj?
    ensures Components(StripDefs(spec)).Keys == Components(spec).Keys
    ensures forall name :: name in Components(spec) ==> Components(StripDefs(spec))[name] == StripDefs(Components(spec)[name])
  {
    StrippedFields(spec.fields);
    if "components" in spec.fields && spec.fields["components"].Obj? {
      var components := spec.fields["components"].fields;
      StrippedFields(components);
      if "schemas" in components && components["schemas"].Obj? {
        StrippedFields(components["schemas"].fields);
      }
    }
  }

  lemma ExistingAreComponents(spec: Node)
    requires spec.Obj? && Expandable(StripDefs(spec))
    ensures ExistingSchemas(StripDefs(spec)) == Components(StripDefs(spec))
  {
    var root := StripDefs(spec);
    StrippedFields(spec.fields);
    if "components" in root.fields {
      var components := root.fields["components"].fields;
      StrippedFields(spec.fields["components"].fields);
      if "schemas" in components && components["schemas"].Obj? {
        StrippedFields(spec.fields["components"].fields["schemas"].fields);
        NoBlockKey(components["schemas"].fields);
      }
    }
  }

  lemma NoBlockKey(f: map<string, Node>)
    requires DEFS_KEY !in f
    ensures f - {DEFS_KEY} == f
  {}

  lemma CollisionConflicts(spec: Node, defs: map<string, Node>)
    requires spec.Obj? && Expandable(StripDefs(spec)) && Gathered(defs, DefPairs(spec))
    requires exists name :: name in defs && !Fits(ExistingSchemas(StripDefs(spec)), name, defs[name])
    ensures Conflicting(DefPairs(spec) + ComponentPairs(spec))
  {
    var name :| name in defs && !Fits(ExistingSchemas(StripDefs(spec)), name, defs[name]);
    ExistingAreComponents(spec);
    StrippedComponents(spec);
    var d := Components(StripDefs(spec))[name];
    assert (name, d) in DefPairs(spec) + ComponentPairs(spec) && (name, defs[name]) in DefPairs(spec) + ComponentPairs(spec);
  }
}
