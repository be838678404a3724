/**
 Comparing the committed document with the generated one (`describe_drift` of
 scripts/generate_openapi.py).  Only the number of reported differences is kept, not their text.
 Here an `Atom` stands for a scalar together with its type.
 */
module SpecDrift {
  import opened HoistDefs

  const MAX_REPORTED := 40

  predicate AgreeOn(a: map<string, Node>, b: map<string, Node>, key: string) {
    key in a && key in b && a[key] == b[key]
  }

  ghost predicate Agree(a: map<string, Node>, b: map<string, Node>, keys: set<string>) {
    forall k :: k in keys ==> AgreeOn(a, b, k)
  }

  lemma AgreeNext(a: map<string, Node>, b: map<string, Node>, keys: set<string>, key: string)
    ensures Agree(a, b, keys + {key}) <==> Agree(a, b, keys) && AgreeOn(a, b, key)
  {
    assert key in keys + {key};
    assert forall k :: k in keys ==> k in keys + {key};
  }

  lemma AgreeAll(a: map<string, Node>, b: map<string, Node>)
    ensures Agree(a, b, a.Keys + b.Keys) <==> a == b
  {
    if Agree(a, b, a.Keys + b.Keys) {
      assert forall k :: k in a.Keys + b.Keys ==> AgreeOn(a, b, k);
    }
  }

  // ----- How many differences there are -----

  /** One for every pair of values, at the same place, that are no dicts and no lists of one length and
      differ, and one for every key that only one of two dicts has. */
  ghost function Differences(a: Node, b: Node): nat
    decreases a, 2, 0
  {
    match (a, b)
    case (Obj(f), Obj(g)) => FieldDifferences(f, g, f.Keys + g.Keys)
    case (Arr(x), Arr(y)) => if |x| == |y| then ItemDifferences(x, y, |x|) else 1
    case _ => if a == b then 0 else 1
  }

  ghost function KeyDifferences(f: map<string, Node>, g: map<string, Node>, key: string): nat
    decreases Obj(f), 0, 0
  {
    if key in f && key in g then Differences(f[key], g[key]) else 1
  }

  ghost function FieldDifferences(f: map<string, Node>, g: map<string, Node>, keys: set<string>): nat
    decreases Obj(f), 1, |keys|
  {
    if keys == {} then 0
    else
      var key :| key in keys;
      KeyDifferences(f, g, key) + FieldDifferences(f, g, keys - {key})
  }

  ghost function ItemDifferences(x: seq<Node>, y: seq<Node>, n: nat): nat
    requires n <= |x| == |y|
    decreases Arr(x), 1, n
  {
    if n == 0 then 0 else ItemDifferences(x, y, n - 1) + Differences(x[n - 1], y[n - 1])
  }

  /** The order of the keys does not matter. */
  lemma {:induction false} AnyKeyFirst(f: map<string, Node>, g: map<string, Node>, keys: set<string>, key: string)
    requires key in keys
    ensures FieldDifferences(f, g, keys) == KeyDifferences(f, g, key) + FieldDifferences(f, g, keys - {key})
    decreases |keys|
  {
    var first :| first in keys && FieldDifferences(f, g, keys) == KeyDifferences(f, g, first) + FieldDifferences(f, g, keys - {first});
    if first != key {
      AnyKeyFirst(f, g, keys - {first}, key);
      AnyKeyFirst(f, g, keys - {key}, first);
      assert (keys - {first}) - {key} == (keys - {key}) - {first};
    }
  }

  lemma {:induction false} FieldDifferencesIff(f: map<string, Node>, g: map<string, Node>, keys: set<string>)
    requires keys <= f.Keys + g.Keys
    ensures FieldDifferences(f, g, keys) == 0 <==> Agree(f, g, keys)
    decreases Obj(f), 1, |keys|
  {
    if key :| key in keys {
      AnyKeyFirst(f, g, keys, key);
      FieldDifferencesIff(f, g, keys - {key});
      AgreeNext(f, g, keys - {key}, key);
      assert (keys - {key}) + {key} == keys;
      if key in f && key in g {
        DifferencesIff(f[key], g[key]);
      }
    }
  }

  lemma {:induction false} ItemDifferencesIff(x: seq<Node>, y: seq<Node>, n: nat)
    requires n <= |x| == |y|
    ensures ItemDifferences(x, y, n) == 0 <==> forall j :: 0 <= j < n ==> x[j] == y[j]
    decreases Arr(x), 1, n
  {
    if 0 < n {
      ItemDifferencesIff(x, y, n - 1);
      DifferencesIff(x[n - 1], y[n - 1]);
    }
  }

  /** There are none exactly between equal trees. */
  lemma {:induction false} DifferencesIff(a: Node, b: Node)
    ensures Differences(a, b) == 0 <==> a == b
    decreases a, 2, 0
  {
    if a.Obj? && b.Obj? {
      FieldDifferencesIff(a.fields, b.fields, a.fields.Keys + b.fields.Keys);
      AgreeAll(a.fields, b.fields);
    } else if a.Arr? && b.Arr? && |a.items| == |b.items| {
      ItemDifferencesIff(a.items, b.items, |a.items|);
    }
  }

  /** After `n` further differences: all were counted, or the count has gone beyond the limit. */
  predicate Counted(before: nat, n: nat, after: nat) {
    before <= after <= before + n && (after == before + n || 40 < after)
  }

  class DriftReport {
    var found: nat

    constructor ()
      ensures found == 0
    {
      found := 0;
    }

    /** `walk`: reports every difference, until more than 40 are reported; something exactly when the trees
        differ. */
    method Walk(a: Node, b: Node)
      modifies this
      ensures old(found) <= found
      ensures MAX_REPORTED < old(found) ==> found == old(found)
      ensures old(found) <= MAX_REPORTED ==> (found == old(found) <==> a == b)
      ensures Counted(old(found), Differences(a, b), found)
      decreases a, 1
    {
      DifferencesIff(a, b);
      if MAX_REPORTED < found {
        return;
      }
      match (a, b)
      case (Obj(f), Obj(g)) => WalkFields(f, g);
      case (Arr(x), Arr(y)) =>
        if |x| != |y| {
          found := found + 1;
        } else {
          WalkItems(x, y);
        }
      case _ =>
        if a != b {
          found := found + 1;
        }
    }

    method WalkFields(f: map<string, Node>, g: map<string, Node>)
      requires found <= MAX_REPORTED
      modifies this
      ensures old(found) <= found && (found == old(found) <==> f == g)
      ensures Counted(old(found), Differences(Obj(f), Obj(g)), found)
      decreases Obj(f), 0
    {
      ghost var all := FieldDifferences(f, g, f.Keys + g.Keys);
      var todo := f.Keys + g.Keys;
      ghost var done: set<string> := {};
      while todo != {}
        invariant done + todo == f.Keys + g.Keys && old(found) <= found
        invariant found == old(found) <==> Agree(f, g, done)
        invariant FieldDifferences(f, g, todo) <= all && Counted(old(found), all - FieldDifferences(f, g, todo), found)
        decreases |todo|
      {
        var key :| key in todo;
        AnyKeyFirst(f, g, todo, key);
        AgreeNext(f, g, done, key);
        if key !in f || key !in g {
          found := found + 1;
        } else {
          Walk(f[key], g[key]);
        }
        todo, done := todo - {key}, done + {key};
      }
      AgreeAll(f, g);
    }

    method WalkItems(x: seq<Node>, y: seq<Node>)
      requires found <= MAX_REPORTED && |x| == |y|
      modifies this
      ensures old(found) <= found && (found == old(found) <==> x == y)
      ensures Counted(old(found), Differences(Arr(x), Arr(y)), found)
      decreases Arr(x), 0
    {
      for i := 0 to |x|
        invariant old(found) <= found
        invariant found == old(found) <==> forall j :: 0 <= j < i ==> x[j] == y[j]
        invariant Counted(old(found), ItemDifferences(x, y, i), found)
      {
        Walk(x[i], y[i]);
      }
    }
  }

  /** `describe_drift`. */
  method DescribeDrift(committed: Node, generated: Node) returns (found: nat)
    ensures found == 0 <==> committed == generated
    ensures Differences(committed, generated) <= 41 ==> found == Differences(committed, generated)
    ensures 41 < Differences(committed, generated) ==> 40 < found
  {
    var report := new DriftReport();
    report.Walk(committed, generated);
    found := report.found;
  }
}
