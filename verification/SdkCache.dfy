/**
 The SDK object caches and the client generation
 (`_cached_sdk_object` of hermes-plugin-honcho/session.py, `_force_reauth` of session_auth.py).

 Clients are numbered by epoch: `reset_honcho_client` makes the next one current.  Every running
 call is an activity with its own id; a call made inside another one's fetch is a separate
 activity.  Each action is one section under the cache lock, or one step outside it.
 */
module SdkCache {
  import opened Wrappers
  import SessionCache

  datatype Table = Peers | Sessions

  /** A peer or session object, by the epoch of the client it was built on. */
  datatype SdkObject = SdkObject(epoch: nat)

  datatype Phase =
    | Idle
    | Fetching(table: Table, key: string, generation: nat)
    | Fetched(table: Table, key: string, generation: nat, obj: SdkObject)
    | Rebuilt(epoch: nat)

  /** `cleared` is the newest epoch whose rebuild has finished in some `_force_reauth`. */
  datatype State = State(
    epoch: nat, generation: nat, cleared: nat,
    cache: map<(Table, string), SdkObject>,
    phases: map<nat, Phase>)

  datatype Action =
    | Begin(id: nat, table: Table, key: string)  // a miss: read the generation under the lock
    | Build(id: nat)                             // fetch() on the client current now
    | Store(id: nat)                             // the second section under the lock
    | Reset(id: nat)                             // reset_honcho_client() in _force_reauth
    | Bump(id: nat)                              // bump the generation and clear both caches
    | OtherReset                                 // the client is replaced elsewhere
    | Drop(table: Table, key: string)            // eviction

  function PhaseOf(s: State, id: nat): Phase {
    if id in s.phases then s.phases[id] else Idle
  }

  predicate Enabled(s: State, a: Action) {
    match a
    case Begin(id, table, key) => PhaseOf(s, id).Idle? && (table, key) !in s.cache
    case Build(id) => PhaseOf(s, id).Fetching?
    case Store(id) => PhaseOf(s, id).Fetched?
    case Reset(id) => PhaseOf(s, id).Idle?
    case Bump(id) => PhaseOf(s, id).Rebuilt?
    case OtherReset => true
    case Drop(table, key) => (table, key) in s.cache
  }

  function Max(a: nat, b: nat): nat { if a < b then b else a }

  function Next(s: State, a: Action): State
    requires Enabled(s, a)
  {
    match a
    case Begin(id, table, key) => s.(phases := s.phases[id := Fetching(table, key, s.generation)])
    case Build(id) =>
      var p := s.phases[id];
      s.(phases := s.phases[id := Fetched(p.table, p.key, p.generation, SdkObject(s.epoch))])
    case Store(id) =>
      var p := s.phases[id];
      var stored := if s.generation == p.generation && (p.table, p.key) !in s.cache
                    then s.cache[(p.table, p.key) := p.obj] else s.cache;
      s.(cache := stored, phases := s.phases[id := Idle])
    case Reset(id) => s.(epoch := s.epoch + 1, phases := s.phases[id := Rebuilt(s.epoch + 1)])
    case Bump(id) =>
      s.(generation := s.generation + 1, cleared := Max(s.cleared, s.phases[id].epoch),
         cache := map[], phases := s.phases[id := Idle])
    case OtherReset => s.(epoch := s.epoch + 1)
    case Drop(table, key) => s.(cache := s.cache - {(table, key)})
  }

  function Initial(epoch: nat): State {
    State(epoch, 0, 0, map[], map[])
  }

  ghost predicate IsRun(s: State, actions: seq<Action>)
    decreases |actions|
  {
    actions == [] || (Enabled(s, actions[0]) && IsRun(Next(s, actions[0]), actions[1..]))
  }

  function After(s: State, actions: seq<Action>): State
    requires IsRun(s, actions)
    decreases |actions|
  {
    if actions == [] then s else After(Next(s, actions[0]), actions[1..])
  }

  /** The rebuilds whose generation bump is still to come. */
  function Pending(s: State): set<nat> {
    set id | id in s.phases && s.phases[id].Rebuilt?
  }

  ghost predicate Current(s: State, obj: SdkObject) {
    s.cleared <= obj.epoch && s.generation <= obj.epoch
  }

  ghost predicate PhaseOk(s: State, p: Phase) {
    match p
    case Idle => true
    case Fetching(_, _, g) => g <= s.generation
    case Fetched(_, _, g, obj) => g <= s.generation && (g == s.generation ==> Current(s, obj))
    case Rebuilt(e) => e <= s.epoch
  }

  ghost predicate Inv(s: State) {
    && s.cleared <= s.epoch && s.generation + |Pending(s)| <= s.epoch
    && (forall k :: k in s.cache ==> Current(s, s.cache[k]))
    && (forall id :: id in s.phases ==> PhaseOk(s, s.phases[id]))
  }

  lemma PendingNext(s: State, a: Action)
    requires Enabled(s, a)
    ensures Pending(Next(s, a)) == match a
                                   case Reset(id) => Pending(s) + {id}
                                   case Bump(id) => Pending(s) - {id}
                                   case _ => Pending(s)
    ensures a.Reset? ==> a.id !in Pending(s)
    ensures a.Bump? ==> a.id in Pending(s)
  {}

  lemma StepKeepsCounts(s: State, a: Action)
    requires Inv(s) && Enabled(s, a)
    ensures var t := Next(s, a);
      s.cleared <= t.cleared <= t.epoch && t.generation + |Pending(t)| <= t.epoch
  {
    PendingNext(s, a);
    if a.Bump? {
      assert PhaseOk(s, s.phases[a.id]);
    }
  }

  lemma StepKeepsInv(s: State, a: Action)
    requires Inv(s) && Enabled(s, a)
    ensures Inv(Next(s, a)) && s.cleared <= Next(s, a).cleared
  {
    StepKeepsCounts(s, a);
    var t := Next(s, a);
    forall id | id in t.phases ensures PhaseOk(t, t.phases[id]) {
      assert id in s.phases ==> PhaseOk(s, s.phases[id]);
    }
    forall k | k in t.cache ensures Current(t, t.cache[k]) {
      if a.Store? {
        assert PhaseOk(s, s.phases[a.id]);
      }
    }
  }

  lemma {:induction false} RunKeepsInv(s: State, actions: seq<Action>)
    requires Inv(s) && IsRun(s, actions)
    ensures Inv(After(s, actions)) && s.cleared <= After(s, actions).cleared
    decreases |actions|
  {
    if actions != [] {
      StepKeepsInv(s, actions[0]);
      RunKeepsInv(Next(s, actions[0]), actions[1..]);
    }
  }

  /** At every moment of every run each cached object is as new as the generation. */
  lemma CachedObjectsAreCurrent(epoch: nat, actions: seq<Action>)
    requires IsRun(Initial(epoch), actions)
    ensures forall k :: k in After(Initial(epoch), actions).cache ==>
      After(Initial(epoch), actions).generation <= After(Initial(epoch), actions).cache[k].epoch
  {
    assert Pending(Initial(epoch)) == {};
    RunKeepsInv(Initial(epoch), actions);
  }

  /** Once a `_force_reauth` that made client `e` has cleared the caches, no object of an older
      client is in them again, whatever was in flight. */
  lemma DiscardedClientsStayOut(epoch: nat, before: seq<Action>, id: nat, later: seq<Action>)
    requires IsRun(Initial(epoch), before) && Enabled(After(Initial(epoch), before), Bump(id))
    requires IsRun(Next(After(Initial(epoch), before), Bump(id)), later)
    ensures var e := After(Initial(epoch), before).phases[id].epoch;
      var end := After(Next(After(Initial(epoch), before), Bump(id)), later);
      forall k :: k in end.cache ==> e <= end.cache[k].epoch
  {
    assert Pending(Initial(epoch)) == {};
    RunKeepsInv(Initial(epoch), before);
    var s := After(Initial(epoch), before);
    StepKeepsInv(s, Bump(id));
    RunKeepsInv(Next(s, Bump(id)), later);
  }

  /** The same `Store` without its generation test. */
  function StoreUnguarded(s: State, id: nat): State
    requires PhaseOf(s, id).Fetched?
  {
    var p := s.phases[id];
    s.(cache := s.cache[(p.table, p.key) := p.obj], phases := s.phases[id := Idle])
  }

  /** The test is what keeps a fetch that straddles a rebuild out: without it an old object gets in. */
  lemma GuardIsNeeded(key: string) returns (actions: seq<Action>)
    ensures IsRun(Initial(0), actions) && PhaseOf(After(Initial(0), actions), 1).Fetched?
    ensures var s := StoreUnguarded(After(Initial(0), actions), 1);
      (Peers, key) in s.cache && s.cache[(Peers, key)].epoch < s.generation
  {
    actions := [Begin(1, Peers, key), Build(1), Reset(2), Bump(2)];
    var s0 := Initial(0);
    var s1 := Next(s0, actions[0]);
    var s2 := Next(s1, actions[1]);
    var s3 := Next(s2, actions[2]);
    var s4 := Next(s3, actions[3]);
    assert actions[1..][1..][1..][1..] == [];
    assert After(s4, actions[1..][1..][1..][1..]) == s4;
    assert IsRun(s3, actions[1..][1..][1..]) && After(s3, actions[1..][1..][1..]) == s4;
    assert IsRun(s2, actions[1..][1..]) && After(s2, actions[1..][1..]) == s4;
    assert IsRun(s1, actions[1..]) && After(s1, actions[1..]) == s4;
  }

  // ----- One call undisturbed -----

  /** Some run goes from the one state to the other. */
  ghost predicate Leads(s: State, u: State) {
    exists actions :: IsRun(s, actions) && After(s, actions) == u
  }

  lemma LeadsNowhere(s: State)
    ensures Leads(s, s)
  {
    assert IsRun(s, []) && After(s, []) == s;
  }

  lemma {:induction false} RunsOn(s: State, actions: seq<Action>, a: Action)
    requires IsRun(s, actions) && Enabled(After(s, actions), a)
    ensures IsRun(s, actions + [a]) && After(s, actions + [a]) == Next(After(s, actions), a)
    decreases |actions|
  {
    if actions == [] {
      assert (actions + [a])[1..] == [];
    } else {
      RunsOn(Next(s, actions[0]), actions[1..], a);
      assert (actions + [a])[1..] == actions[1..] + [a];
    }
  }

  lemma Step(s: State, u: State, a: Action) returns (v: State)
    requires Leads(s, u) && Enabled(u, a)
    ensures v == Next(u, a) && Leads(s, v)
  {
    v := Next(u, a);
    var actions :| IsRun(s, actions) && After(s, actions) == u;
    RunsOn(s, actions, a);
  }

  /** A miss that no bump overtakes ends with an object of the current client in the cache. */
  lemma UndisturbedFetch(s: State, id: nat, table: Table, key: string) returns (u: State)
    requires PhaseOf(s, id).Idle? && (table, key) !in s.cache
    ensures Leads(s, u) && u == s.(cache := s.cache[(table, key) := SdkObject(s.epoch)], phases := s.phases[id := Idle])
  {
    LeadsNowhere(s);
    u := Step(s, s, Begin(id, table, key));
    u := Step(s, u, Build(id));
    u := Step(s, u, Store(id));
  }

  /** A rebuild that nothing disturbs leaves a new client, the next generation and empty caches. */
  lemma UndisturbedReauth(s: State, id: nat) returns (u: State)
    requires PhaseOf(s, id).Idle?
    ensures Leads(s, u)
    ensures u == s.(epoch := s.epoch + 1, generation := s.generation + 1, cache := map[],
                    cleared := if s.cleared <= s.epoch then s.epoch + 1 else s.cleared, phases := s.phases[id := Idle])
  {
    LeadsNowhere(s);
    u := Step(s, s, Reset(id));
    u := Step(s, u, Bump(id));
  }

  /** A fetch that a bump overtakes leaves the caches as they are. */
  lemma OvertakenFetch(s: State, id: nat) returns (u: State)
    requires PhaseOf(s, id).Fetched? && s.phases[id].generation < s.generation
    ensures Leads(s, u) && u == s.(phases := s.phases[id := Idle])
  {
    LeadsNowhere(s);
    u := Step(s, s, Store(id));
  }

  // ----- One thread -----

  /** An entry of one of the two dicts. */
  datatype Entry = Entry(table: Table, key: string, obj: SdkObject)

  /** The entries of both dicts, each in its order. */
  type Dicts = seq<Entry>

  predicate SameKey(e: Entry, table: Table, key: string) {
    e.table == table && e.key == key
  }

  ghost predicate DistinctKeys(d: Dicts) {
    forall i, j :: 0 <= i < j < |d| ==> !SameKey(d[j], d[i].table, d[i].key)
  }

  function Find(d: Dicts, table: Table, key: string): (r: Option<Entry>)
    ensures r.Some? ==> r.value in d && SameKey(r.value, table, key)
    decreases |d|
  {
    if d == [] then None else if SameKey(d[0], table, key) then Some(d[0]) else Find(d[1..], table, key)
  }

  lemma {:induction false} FindNone(d: Dicts, table: Table, key: string)
    ensures Find(d, table, key).None? <==> forall e :: e in d ==> !SameKey(e, table, key)
    decreases |d|
  {
    if d != [] {
      FindNone(d[1..], table, key);
      assert forall e :: e in d <==> e == d[0] || e in d[1..];
    }
  }

  /** `cache[key] = cache.pop(key)`. */
  function MovedLast(d: Dicts, e: Entry): Dicts {
    SessionCache.Without(d, {e}) + [e]
  }

  lemma {:induction false} WithoutKeepsKeys(d: Dicts, e: Entry)
    requires DistinctKeys(d)
    ensures DistinctKeys(SessionCache.Without(d, {e}))
    decreases |d|
  {
    if d != [] {
      WithoutKeepsKeys(d[1..], e);
      SessionCache.InWithout(d[1..], {e});
      forall x | x in d[1..] ensures !SameKey(x, d[0].table, d[0].key) {
        var i :| 0 <= i < |d| - 1 && d[1..][i] == x;
        assert d[i + 1] == x;
      }
    }
  }

  /** What is not in the dicts yet, or has just been taken out, can go to their end. */
  lemma LastIsFound(d: Dicts, e: Entry)
    requires DistinctKeys(d) && forall x :: x in d ==> !SameKey(x, e.table, e.key)
    ensures DistinctKeys(d + [e]) && Find(d + [e], e.table, e.key) == Some(e)
  {
    var longer := d + [e];
    assert longer[|d|] == e;
    assert e in longer && SameKey(e, e.table, e.key);
    forall i, j | 0 <= i < j < |longer| ensures !SameKey(longer[j], longer[i].table, longer[i].key) {
      assert i < |d| && longer[i] == d[i] && d[i] in d;
    }
    FindNone(longer, e.table, e.key);
  }

  lemma MovedIsFound(d: Dicts, e: Entry)
    requires DistinctKeys(d) && e in d
    ensures DistinctKeys(MovedLast(d, e)) && Find(MovedLast(d, e), e.table, e.key) == Some(e)
  {
    WithoutKeepsKeys(d, e);
    SessionCache.InWithout(d, {e});
    var at :| 0 <= at < |d| && d[at] == e;
    forall x | x in SessionCache.Without(d, {e}) ensures !SameKey(x, e.table, e.key) {
      var i :| 0 <= i < |d| && d[i] == x;
    }
    LastIsFound(SessionCache.Without(d, {e}), e);
  }

  /** A fetch by this thread: what it built, how often other threads bumped the generation meanwhile, and
      the dicts it finds when it takes the lock again. */
  datatype Fetch = Fetch(obj: SdkObject, bumps: nat, met: Dicts)

  /** The bumps during the first `n` fetches. */
  function Bumps(fetches: seq<Fetch>, n: nat): nat
    requires n <= |fetches|
  {
    if n == 0 then 0 else Bumps(fetches, n - 1) + fetches[n - 1].bumps
  }

  /** The dicts after `n` fetches. */
  function MetAfter(found: Dicts, fetches: seq<Fetch>, n: nat): Dicts
    requires n <= |fetches|
  {
    if n == 0 then found else fetches[n - 1].met
  }

  /** Nothing was found before fetch `i`, and a bump overtook it. */
  predicate Missed(found: Dicts, fetches: seq<Fetch>, table: Table, key: string, i: nat) {
    i < |fetches| && 0 < fetches[i].bumps && Find(MetAfter(found, fetches, i), table, key).None?
  }

  /** So it was with the first `n` fetches. */
  ghost predicate Overtaken(found: Dicts, fetches: seq<Fetch>, table: Table, key: string, n: nat) {
    n < |fetches| && forall i :: 0 <= i < n ==> Missed(found, fetches, table, key, i)
  }

  /** After `n` fetches the call is over: it found an entry, which moved to the end unless another thread
      put it there during a fetch that no bump overtook; or that fetch put its own there. */
  ghost predicate Served(found: Dicts, fetches: seq<Fetch>, table: Table, key: string, n: nat, obj: SdkObject, left: Dicts)
    requires n <= |fetches|
  {
    var met, kept := MetAfter(found, fetches, n), 0 < n && fetches[n - 1].bumps == 0;
    && Overtaken(found, fetches, table, key, if kept then n - 1 else n)
    && (kept ==> Find(MetAfter(found, fetches, n - 1), table, key).None?)
    && match Find(met, table, key)
       case Some(e) => obj == e.obj && left == if kept then met else MovedLast(met, e)
       case None => kept && obj == fetches[n - 1].obj && left == met + [Entry(table, key, obj)]
  }

  /** The entry of the key is there to be found. */
  ghost predicate Holds(d: Dicts, table: Table, key: string, obj: SdkObject) {
    DistinctKeys(d) && Find(d, table, key) == Some(Entry(table, key, obj))
  }

  ghost predicate AllDistinct(found: Dicts, fetches: seq<Fetch>) {
    forall n :: 0 <= n <= |fetches| ==> DistinctKeys(MetAfter(found, fetches, n))
  }

  lemma HitServes(found: Dicts, fetches: seq<Fetch>, table: Table, key: string, n: nat)
    requires AllDistinct(found, fetches) && Overtaken(found, fetches, table, key, n)
    requires Find(MetAfter(found, fetches, n), table, key).Some?
    ensures var met := MetAfter(found, fetches, n); var e := Find(met, table, key).value;
      Served(found, fetches, table, key, n, e.obj, MovedLast(met, e)) && Holds(MovedLast(met, e), table, key, e.obj)
  {
    var met := MetAfter(found, fetches, n);
    assert 0 < n ==> Missed(found, fetches, table, key, n - 1);
    MovedIsFound(met, Find(met, table, key).value);
  }

  lemma FetchServes(found: Dicts, fetches: seq<Fetch>, table: Table, key: string, n: nat)
    requires AllDistinct(found, fetches) && Overtaken(found, fetches, table, key, n)
    requires Find(MetAfter(found, fetches, n), table, key).None? && fetches[n].bumps == 0
    ensures var met := fetches[n].met;
      match Find(met, table, key)
      case Some(e) => Served(found, fetches, table, key, n + 1, e.obj, met) && Holds(met, table, key, e.obj)
      case None =>
        var left := met + [Entry(table, key, fetches[n].obj)];
        Served(found, fetches, table, key, n + 1, fetches[n].obj, left) && Holds(left, table, key, fetches[n].obj)
  {
    assert DistinctKeys(MetAfter(found, fetches, n + 1));
    if Find(fetches[n].met, table, key).None? {
      FindNone(fetches[n].met, table, key);
      LastIsFound(fetches[n].met, Entry(table, key, fetches[n].obj));
    }
  }

  lemma MissAgain(found: Dicts, fetches: seq<Fetch>, table: Table, key: string, n: nat)
    requires Overtaken(found, fetches, table, key, n) && fetches[|fetches| - 1].bumps == 0
    requires Find(MetAfter(found, fetches, n), table, key).None? && 0 < fetches[n].bumps
    ensures Overtaken(found, fetches, table, key, n + 1)
  {}

  class SdkCaches {
    var cache: Dicts
    var generation: nat

    constructor ()
      ensures DistinctKeys(cache) && cache == [] && generation == 0
    {
      cache, generation := [], 0;
    }

    /** `_cached_sdk_object`: a hit moves to the end; fetches that a bump overtook are dropped, until another
        thread cached the object or a fetch went through, which is kept unless another thread was faster. */
    method CachedSdkObject(table: Table, key: string, fetches: seq<Fetch>) returns (obj: SdkObject, ghost tries: nat)
      requires AllDistinct(cache, fetches)
      requires fetches != [] && fetches[|fetches| - 1].bumps == 0
      modifies this
      ensures Holds(cache, table, key, obj)
      ensures tries <= |fetches| && generation == old(generation) + Bumps(fetches, tries)
      ensures Served(old(cache), fetches, table, key, tries, obj, cache)
    {
      ghost var found := cache;
      tries := 0;
      var i := 0;
      while true
        invariant i == tries && Overtaken(found, fetches, table, key, i)
        invariant cache == MetAfter(found, fetches, i)
        invariant generation == old(generation) + Bumps(fetches, i)
        decreases |fetches| - i
      {
        var hit := Find(cache, table, key);
        if hit.Some? {
          HitServes(found, fetches, table, key, i);
          cache := MovedLast(cache, hit.value);
          return hit.value.obj, tries;
        }
        var before := generation;
        generation := generation + fetches[i].bumps;
        cache := fetches[i].met;
        tries := tries + 1;
        if generation == before {
          FetchServes(found, fetches, table, key, i);
          hit := Find(cache, table, key);
          if hit.Some? {
            return hit.value.obj, tries;
          }
          cache := cache + [Entry(table, key, fetches[i].obj)];
          return fetches[i].obj, tries;
        }
        MissAgain(found, fetches, table, key, i);
        i := i + 1;
      }
    }

    /** The end of `_force_reauth`: a client that could not take the token in place is rebuilt. */
    method ForceReauth(token: bool, applied: bool) returns (ok: bool)
      modifies this
      ensures ok == token
      ensures token && !applied ==> generation == old(generation) + 1 && cache == []
      ensures !token || applied ==> generation == old(generation) && cache == old(cache)
    {
      if !token {
        return false;
      }
      if !applied {
        generation := generation + 1;
        cache := [];
      }
      ok := true;
    }
  }
}
