/**
 `HonchoSessionManager` as one thread runs it (hermes-plugin-honcho/session.py): lookups, installs,
 the idle sweep, the caps, and the saves that keep a failed batch reachable.

 What other threads may do in between is the subject of `SessionReach`.
 */
module SessionManager {
  import opened Wrappers

  import AsyncQueue
  import opened SessionCache

  datatype WriteFrequency = Turn | SessionEnd | Every(n: int)

  function Find(cache: seq<Session>, key: string): (r: Option<Session>)
    ensures r.Some? ==> r.value in cache && r.value.key == key
    ensures r.None? ==> key !in KeysOf(Members(cache))
    decreases |cache|
  {
    if cache == [] then None
    else if cache[0].key == key then Some(cache[0])
    else Find(cache[1..], key)
  }

  /** `self._cache[key] = session`: a key already there keeps its place in the order. */
  function Installed(cache: seq<Session>, s: Session): seq<Session>
    decreases |cache|
  {
    if cache == [] then [s]
    else if cache[0].key == s.key then [s] + cache[1..]
    else [cache[0]] + Installed(cache[1..], s)
  }

  /** The newer object that owns the key of a session with unsynced messages. */
  function OwnerOf(cache: seq<Session>, unsynced: set<Session>, s: Session): Option<Session> {
    var current := Find(cache, s.key);
    if s !in unsynced || current == Some(s) then None else current
  }

  /** The cache once a session with unsynced messages asked for its key back. */
  function Reclaimed(cache: seq<Session>, unsynced: set<Session>, s: Session): seq<Session> {
    if s in unsynced && Find(cache, s.key).None? then cache + [s] else cache
  }

  function Retained(cache: seq<Session>, retry: seq<Session>, unsynced: set<Session>, s: Session): seq<Session> {
    if OwnerOf(cache, unsynced, s).Some? && s !in retry then retry + [s] else retry
  }

  /** The sessions `flush_all` flushes: the cached ones, then the retry list's. */
  function ToFlush(cache: seq<Session>, retry: seq<Session>): seq<Session> {
    cache + Without(retry, Members(cache))
  }

  /** Each cached session was used after the ones before it. */
  ghost predicate UsedInOrder(cache: seq<Session>, lastUse: map<Session, nat>, clock: nat) {
    && (forall s :: s in cache ==> s in lastUse && lastUse[s] < clock)
    && (forall i, j :: 0 <= i < j < |cache| ==> lastUse[cache[i]] < lastUse[cache[j]])
  }

  lemma {:induction false} StillInOrder(cache: seq<Session>, gone: set<Session>, lastUse: map<Session, nat>, clock: nat)
    requires UsedInOrder(cache, lastUse, clock)
    ensures UsedInOrder(Without(cache, gone), lastUse, clock)
    decreases |cache|
  {
    if cache != [] {
      StillInOrder(cache[1..], gone, lastUse, clock);
      InWithout(cache[1..], gone);
      forall x | x in cache[1..] ensures lastUse[cache[0]] < lastUse[x] {
        var i :| 0 <= i < |cache| - 1 && cache[1..][i] == x;
        assert cache[i + 1] == x;
      }
    }
  }

  lemma {:induction false} StillDistinctKeys(cache: seq<Session>, gone: set<Session>)
    requires DistinctKeys(cache)
    ensures DistinctKeys(Without(cache, gone))
    decreases |cache|
  {
    if cache != [] {
      StillDistinctKeys(cache[1..], gone);
      InWithout(cache[1..], gone);
      forall x | x in cache[1..] ensures x.key != cache[0].key {
        var i :| 0 <= i < |cache| - 1 && cache[1..][i] == x;
        assert cache[i + 1] == x;
      }
    }
  }

  lemma StillWellKeyed(t: Tables, gone: set<Session>, r: Tables)
    requires WellKeyed(t) && EvictedAll(t, gone, r)
    ensures WellKeyed(r)
  {
    StillDistinctKeys(t.cache, gone);
    DistinctWithout(t.sdk, IdsOf(gone));
  }

  /** What enforcing the caps keeps, and who goes first. */
  lemma CapsKeepKeys(t: Tables, unsynced: set<Session>)
    requires WellKeyed(t)
    ensures WellKeyed(EnforceCaps(t, unsynced))
  {
    CapsAreExactLru(t, unsynced);
    var r := EnforceCaps(t, unsynced);
    var gone := Gone(t.cache, r.cache);
    StillDistinctKeys(t.cache, gone);
    DistinctWithout(t.sdk, IdsOf(gone));
    var sdk := Without(t.sdk, IdsOf(gone));
    DistinctWithout(sdk, Gone(sdk, r.sdk));
    DistinctWithout(t.peers, Gone(t.peers, r.peers));
  }

  lemma CapsKeepOrder(t: Tables, unsynced: set<Session>, lastUse: map<Session, nat>, clock: nat)
    requires WellKeyed(t) && UsedInOrder(t.cache, lastUse, clock)
    ensures var r := EnforceCaps(t, unsynced);
      UsedInOrder(r.cache, lastUse, clock) && UsedEarlier(t.cache, r.cache, unsynced, lastUse)
  {
    CapsAreExactLru(t, unsynced);
    var r := EnforceCaps(t, unsynced);
    StillInOrder(t.cache, Gone(t.cache, r.cache), lastUse, clock);
    EvictedUsedEarlier(t.cache, r.cache, unsynced, |t.cache| - SESSION_CAP, lastUse, clock);
  }

  lemma CapsKeepAll(t: Tables, unsynced: set<Session>, lastUse: map<Session, nat>, clock: nat)
    requires WellKeyed(t)
    ensures var r := EnforceCaps(t, unsynced);
      WellKeyed(r) && CapsInOrder(t.cache, r.cache, unsynced, lastUse, clock)
  {
    CapsKeepKeys(t, unsynced);
    if UsedInOrder(t.cache, lastUse, clock) {
      CapsKeepOrder(t, unsynced, lastUse, clock);
    }
  }

  /** From an order of use: it stays one, and who went was used before every synced one that stays. */
  ghost predicate CapsInOrder(before: seq<Session>, after: seq<Session>, unsynced: set<Session>,
                              lastUse: map<Session, nat>, clock: nat)
  {
    UsedInOrder(before, lastUse, clock) ==> UsedInOrder(after, lastUse, clock) && UsedEarlier(before, after, unsynced, lastUse)
  }

  /** Every evicted session was used less recently than every synced one that stays. */
  ghost predicate UsedEarlier(before: seq<Session>, after: seq<Session>, unsynced: set<Session>, lastUse: map<Session, nat>) {
    forall e, k :: e in before && e !in after && k in after && k !in unsynced && e in lastUse && k in lastUse ==>
      e !in unsynced && lastUse[e] < lastUse[k]
  }

  lemma EvictedUsedEarlier(before: seq<Session>, after: seq<Session>, unsynced: set<Session>, excess: int,
                           lastUse: map<Session, nat>, clock: nat)
    requires UsedInOrder(before, lastUse, clock)
    requires after == Without(before, Gone(before, after)) && LeastRecent(before, unsynced, excess, Gone(before, after))
    ensures UsedEarlier(before, after, unsynced, lastUse)
  {
    InWithout(before, Gone(before, after));
    forall e, k | e in before && e !in after && k in after && k !in unsynced ensures e !in unsynced && lastUse[e] < lastUse[k] {
      assert e in Gone(before, after) && k !in Gone(before, after) && k in before;
      var i :| 0 <= i < |before| && before[i] == e;
      var j :| 0 <= j < |before| && before[j] == k;
    }
  }

  lemma {:induction false} InInstalled(cache: seq<Session>, s: Session)
    requires DistinctKeys(cache)
    ensures |Installed(cache, s)| == if Find(cache, s.key).Some? then |cache| else |cache| + 1
    ensures forall i :: 0 <= i < |cache| ==> Installed(cache, s)[i] == if cache[i].key == s.key then s else cache[i]
    ensures Find(cache, s.key).None? ==> Installed(cache, s)[|cache|] == s
    decreases |cache|
  {
    if cache != [] {
      if cache[0].key == s.key {
        assert forall i :: 0 < i < |cache| ==> cache[i].key != cache[0].key;
      } else {
        InInstalled(cache[1..], s);
      }
    }
  }

  lemma {:induction false} FindIs(cache: seq<Session>, i: nat)
    requires DistinctKeys(cache) && i < |cache|
    ensures Find(cache, cache[i].key) == Some(cache[i])
    decreases |cache|
  {
    if 0 < i {
      FindIs(cache[1..], i - 1);
    }
  }

  lemma FindIff(cache: seq<Session>, key: string)
    requires DistinctKeys(cache)
    ensures forall x :: x in cache && x.key == key ==> Find(cache, key) == Some(x)
  {
    forall x | x in cache && x.key == key ensures Find(cache, key) == Some(x) {
      var i :| 0 <= i < |cache| && cache[i] == x;
      FindIs(cache, i);
    }
  }

  lemma AppendKeepsKeys(cache: seq<Session>, s: Session)
    requires DistinctKeys(cache) && forall i :: 0 <= i < |cache| ==> cache[i].key != s.key
    ensures DistinctKeys(cache + [s])
  {}

  lemma AppendUsed(cache: seq<Session>, s: Session, lastUse: map<Session, nat>, clock: nat)
    requires UsedInOrder(cache, lastUse, clock) && s !in cache
    ensures UsedInOrder(cache + [s], lastUse[s := clock], clock + 1)
  {
    assert forall i :: 0 <= i < |cache| ==> cache[i] in cache;
  }

  lemma UsedBefore(cache: seq<Session>, s: Session, lastUse: map<Session, nat>, clock: nat)
    requires UsedInOrder(cache + [s], lastUse[s := clock], clock + 1) && s !in cache
    ensures UsedInOrder(cache, lastUse, clock)
  {
    var longer, stamps := cache + [s], lastUse[s := clock];
    assert longer[|cache|] == s;
    assert forall i :: 0 <= i < |cache| ==> longer[i] == cache[i];
    forall x | x in cache ensures x in lastUse && lastUse[x] < clock {
      var i :| 0 <= i < |cache| && cache[i] == x;
      assert longer[i] in longer && stamps[longer[i]] < stamps[longer[|cache|]];
    }
  }

  lemma TouchKeepsKeys(cache: seq<Session>, s: Session)
    requires DistinctKeys(cache) && s in cache
    ensures DistinctKeys(Without(cache, {s}) + [s])
  {
    StillDistinctKeys(cache, {s});
    InWithout(cache, {s});
    var rest := Without(cache, {s});
    forall i | 0 <= i < |rest| ensures rest[i].key != s.key {
      assert rest[i] in rest;
    }
    AppendKeepsKeys(rest, s);
  }

  /** A session looked up moves to the end of the order, stamped as used: the order is one of use then
      exactly when the rest of the cache was in order. */
  lemma TouchOrderIff(cache: seq<Session>, s: Session, lastUse: map<Session, nat>, clock: nat)
    ensures UsedInOrder(Without(cache, {s}) + [s], lastUse[s := clock], clock + 1) <==>
      UsedInOrder(Without(cache, {s}), lastUse, clock)
    ensures UsedInOrder(cache, lastUse, clock) ==> UsedInOrder(Without(cache, {s}), lastUse, clock)
  {
    InWithout(cache, {s});
    if UsedInOrder(cache, lastUse, clock) {
      StillInOrder(cache, {s}, lastUse, clock);
    }
    if UsedInOrder(Without(cache, {s}), lastUse, clock) {
      AppendUsed(Without(cache, {s}), s, lastUse, clock);
    } else if UsedInOrder(Without(cache, {s}) + [s], lastUse[s := clock], clock + 1) {
      UsedBefore(Without(cache, {s}), s, lastUse, clock);
    }
  }

  function WithSession(t: Tables, s: Session, observed: bool): Tables {
    t.(cache := Installed(t.cache, s), observation := t.observation + if observed then {s.honchoId} else {})
  }

  lemma NotAKey(cache: seq<Session>, key: string)
    requires key !in KeysOf(Members(cache))
    ensures forall i :: 0 <= i < |cache| ==> cache[i].key != key
  {
    forall i | 0 <= i < |cache| ensures cache[i].key != key {
      assert cache[i] in Members(cache);
    }
  }

  lemma ReplaceKeepsKeys(cache: seq<Session>, at: nat, s: Session)
    requires DistinctKeys(cache) && at < |cache| && cache[at].key == s.key
    ensures DistinctKeys(cache[at := s])
    ensures forall y :: y in cache[at := s] <==> y == s || (y in cache && y.key != s.key)
  {
    var after := cache[at := s];
    assert after[at] == s;
    forall y | y in cache && y.key != s.key ensures y in after {
      var i :| 0 <= i < |cache| && cache[i] == y;
      assert after[i] == y;
    }
  }

  /** An install puts the session under its key and leaves every other key alone. */
  lemma InstallKeepsKeys(cache: seq<Session>, s: Session)
    requires DistinctKeys(cache)
    ensures DistinctKeys(Installed(cache, s))
    ensures forall y :: y in Installed(cache, s) <==> y == s || (y in cache && y.key != s.key)
  {
    InInstalled(cache, s);
    var after := Installed(cache, s);
    if Find(cache, s.key).None? {
      NotAKey(cache, s.key);
      assert after == cache + [s];
    } else {
      var at :| 0 <= at < |cache| && cache[at].key == s.key;
      assert after == cache[at := s];
      ReplaceKeepsKeys(cache, at, s);
    }
  }

  /** The key is free, or its holder the most recently used entry. */
  predicate FreeOrNewest(cache: seq<Session>, key: string) {
    Find(cache, key).None? || cache[|cache| - 1].key == key
  }

  lemma InstalledIs(cache: seq<Session>, s: Session) returns (at: nat)
    requires DistinctKeys(cache)
    ensures Find(cache, s.key).None? ==> at == |cache| && Installed(cache, s) == cache + [s]
    ensures Find(cache, s.key).Some? ==> at < |cache| && cache[at].key == s.key && Installed(cache, s) == cache[at := s]
  {
    InInstalled(cache, s);
    at := |cache|;
    if Find(cache, s.key).None? {
      NotAKey(cache, s.key);
      assert Installed(cache, s) == cache + [s];
    } else {
      at :| 0 <= at < |cache| && cache[at] == Find(cache, s.key).value;
      assert Installed(cache, s) == cache[at := s];
    }
  }

  /** A dict keeps the place of a key it has: an install leaves the order one of use exactly when its
      key was free or held by the newest entry. */
  lemma InstallKeepsOrderIff(cache: seq<Session>, s: Session, lastUse: map<Session, nat>, clock: nat)
    requires DistinctKeys(cache) && UsedInOrder(cache, lastUse, clock) && s !in cache
    ensures UsedInOrder(Installed(cache, s), lastUse[s := clock], clock + 1) <==> FreeOrNewest(cache, s.key)
  {
    var at := InstalledIs(cache, s);
    if at == |cache| {
      AppendUsed(cache, s, lastUse, clock);
    } else {
      ReplacedIff(cache, at, s, lastUse, clock);
    }
  }

  lemma ReplacedIff(cache: seq<Session>, at: nat, s: Session, lastUse: map<Session, nat>, clock: nat)
    requires DistinctKeys(cache) && UsedInOrder(cache, lastUse, clock) && s !in cache
    requires at < |cache| && cache[at].key == s.key
    ensures UsedInOrder(cache[at := s], lastUse[s := clock], clock + 1) <==> cache[|cache| - 1].key == s.key
  {
    var after, stamps := cache[at := s], lastUse[s := clock];
    var last := |cache| - 1;
    assert forall i :: 0 <= i < |cache| && i != at ==> after[i] == cache[i] && cache[i] in cache;
    if at < last {
      assert after[at] == s && stamps[after[last]] < stamps[after[at]];
    } else {
      assert after == cache[..last] + [s];
      assert forall x :: x in after ==> x == s || x in cache;
    }
  }

  lemma InstallIsReady(t: Tables, s: Session, observed: bool, lastUse: map<Session, nat>, clock: nat)
    requires WellKeyed(t) && s !in t.cache
    ensures WellKeyed(WithSession(t, s, observed))
    ensures UsedInOrder(t.cache, lastUse, clock) && FreeOrNewest(t.cache, s.key) ==>
      UsedInOrder(WithSession(t, s, observed).cache, lastUse[s := clock], clock + 1)
  {
    InstallKeepsKeys(t.cache, s);
    if UsedInOrder(t.cache, lastUse, clock) {
      InstallKeepsOrderIff(t.cache, s, lastUse, clock);
    }
  }

  /** While the cache is not full the new object takes its key, and every other key keeps its holder. */
  lemma InstalledStays(t: Tables, s: Session, observed: bool, unsynced: set<Session>)
    requires WellKeyed(t) && s !in t.cache
    ensures var r := EnforceCaps(WithSession(t, s, observed), unsynced);
      && (|t.cache| < 128 ==> forall y :: y in r.cache <==> y == s || (y in t.cache && y.key != s.key))
      && (s in r.cache && observed && (forall y :: y in t.cache && y !in r.cache ==> y.honchoId != s.honchoId) ==>
            s.honchoId in r.observation)
  {
    InstallKeepsKeys(t.cache, s);
    InInstalled(t.cache, s);
    var u := WithSession(t, s, observed);
    var r := EnforceCaps(u, unsynced);
    CapsAreExactLru(u, unsynced);
    InWithout(u.cache, Gone(u.cache, r.cache));
    assert s in r.cache ==> s in Members(r.cache);
  }

  /** Two sessions, and a new object over the older one's key: just created, it is the first to go. */
  lemma InstalledGoesFirst(x: Session, z: Session, y: Session)
    requires x.key == y.key && x.key != z.key && x != y
    ensures var cache, lastUse := Installed([x, z], y), map[x := 0, z := 1][y := 2];
      && UsedInOrder([x, z], lastUse, 2) && cache == [y, z]
      && Capped(cache, {}, 1) == [z] && !UsedEarlier(cache, [z], {}, lastUse)
  {
    assert [x, z][1..] == [z];
    assert [y, z][1..] == [z];
    var lastUse := map[x := 0, z := 1][y := 2];
    assert y in [y, z] && y !in [z] && z in [z];
    assert y in lastUse && z in lastUse && lastUse[z] < lastUse[y];
  }

  /** Where the dropping of unused entries stands: `done` was looked at and stays, `todo` is next. */
  ghost predicate Dropping(order: seq<string>, live: set<string>, cap: nat, done: seq<string>, todo: seq<string>, left: seq<string>) {
    && left == done + todo && Distinct(left)
    && Capped(order, live, |order| - cap) == done + Capped(todo, live, |left| - cap)
  }

  lemma DropOne(order: seq<string>, live: set<string>, cap: nat, done: seq<string>, todo: seq<string>, left: seq<string>)
    requires Dropping(order, live, cap, done, todo, left)
    requires todo != [] && cap < |left| && todo[0] !in live
    ensures Dropping(order, live, cap, done, todo[1..], Without(left, {todo[0]}))
  {
    FirstIsElsewhereAbsent(done, todo);
    CapStep(done, todo);
  }

  lemma KeepOne(order: seq<string>, live: set<string>, cap: nat, done: seq<string>, todo: seq<string>, left: seq<string>)
    requires Dropping(order, live, cap, done, todo, left)
    requires todo != [] && cap < |left| && todo[0] in live
    ensures Dropping(order, live, cap, done + [todo[0]], todo[1..], left)
  {
    assert done + todo == (done + [todo[0]]) + todo[1..];
    var rest := Capped(todo[1..], live, |left| - cap);
    assert done + ([todo[0]] + rest) == (done + [todo[0]]) + rest;
  }

  /** How many sessions the idle sweep evicts. */
  function IdleCount(unsynced: set<Session>, updatedAt: map<Session, int>, cutoff: int, todo: seq<Session>): nat
    decreases |todo|
  {
    if todo == [] then 0
    else (if Stays(todo[0], unsynced, updatedAt, cutoff) then 0 else 1) + IdleCount(unsynced, updatedAt, cutoff, todo[1..])
  }

  class HonchoSessionManager {
    var cache: seq<Session>
    var retrySessions: seq<Session>
    var sessionsCache: seq<string>
    var sessionObservation: set<string>
    var peersCache: seq<string>
    var contextCache: set<string>
    var lastIdleSweep: int
    var turnCounter: nat
    const writeFrequency: WriteFrequency
    var shuttingDown: bool
    /** The state of the session objects: which have unsynced messages, and their `updated_at`. */
    var unsynced: set<Session>
    var updatedAt: map<Session, int>
    /** When each session was last looked up, installed or put back. */
    ghost var clock: nat
    ghost var lastUse: map<Session, nat>

    ghost function State(): Tables
      reads this
    {
      Tables(cache, sessionsCache, sessionObservation, peersCache, contextCache)
    }

    ghost predicate Valid()
      reads this
    {
      WellKeyed(State())
    }

    /** The order of the cache is the order of use. */
    ghost predicate InOrder()
      reads this
    {
      UsedInOrder(cache, lastUse, clock)
    }

    /** Whether `flush_all` will look at the session. */
    ghost predicate Reachable(s: Session)
      reads this
    {
      s in cache || s in retrySessions
    }

    constructor (frequency: WriteFrequency)
      ensures Valid() && InOrder() && writeFrequency == frequency
      ensures State() == Tables([], [], {}, [], {}) && retrySessions == []
    {
      writeFrequency := frequency;
      cache, retrySessions, sessionsCache, peersCache := [], [], [], [];
      sessionObservation, contextCache, unsynced := {}, {}, {};
      updatedAt, lastUse, clock := map[], map[], 0;
      lastIdleSweep, turnCounter, shuttingDown := 0, 0, false;
    }

    /** `_cached_session`: a hit becomes the most recently used entry. */
    method CachedSession(key: string, now: int) returns (hit: Option<Session>)
      requires Valid()
      modifies this`cache, this`updatedAt, this`clock, this`lastUse
      ensures Valid() && hit == Find(old(cache), key)
      ensures hit.None? ==> cache == old(cache) && updatedAt == old(updatedAt)
      ensures hit.Some? ==>
        && cache == Without(old(cache), {hit.value}) + [hit.value]
        && updatedAt == old(updatedAt)[hit.value := now]
        && (InOrder() <==> UsedInOrder(Without(old(cache), {hit.value}), old(lastUse), old(clock)))
      ensures old(InOrder()) ==> InOrder()
    {
      hit := Find(cache, key);
      if hit.Some? {
        TouchKeepsKeys(cache, hit.value);
        TouchOrderIff(cache, hit.value, lastUse, clock);
        updatedAt := updatedAt[hit.value := now];
        cache := Without(cache, {hit.value}) + [hit.value];
        lastUse, clock := lastUse[hit.value := clock], clock + 1;
      }
    }

    /** `_evict_session_locked`. */
    method EvictSession(s: Session)
      requires s in cache
      modifies this`cache, this`sessionsCache, this`sessionObservation, this`contextCache
      ensures State() == Evicted(old(State()), s)
    {
      cache := Without(cache, {s});
      sessionsCache := Without(sessionsCache, {s.honchoId});
      sessionObservation := sessionObservation - {s.honchoId};
      contextCache := contextCache - {s.key};
    }

    /** The two loops that drop SDK objects no live session needs, which differ in table and cap only. */
    static method DropUnused(order: seq<string>, live: set<string>, cap: nat) returns (left: seq<string>)
      requires Distinct(order)
      ensures left == Capped(order, live, |order| - cap)
    {
      left := order;
      ghost var done: seq<string> := [];
      for i := 0 to |order|
        invariant Dropping(order, live, cap, done, order[i..], left)
      {
        if |left| <= cap {
          return;
        }
        if order[i] !in live {
          DropOne(order, live, cap, done, order[i..], left);
          left := Without(left, {order[i]});
        } else {
          KeepOne(order, live, cap, done, order[i..], left);
          done := done + [order[i]];
        }
        assert order[i..][1..] == order[i + 1..];
      }
    }

    /** `_enforce_cache_caps_locked`. */
    method EnforceCacheCaps()
      requires Valid()
      modifies this`cache, this`sessionsCache, this`sessionObservation, this`contextCache, this`peersCache
      ensures Valid() && State() == EnforceCaps(old(State()), unsynced)
      ensures CapsInOrder(old(cache), cache, unsynced, lastUse, clock)
    {
      CapsKeepAll(State(), unsynced, lastUse, clock);
      ghost var before := State();
      EvictOverCap();
      CapSessionsKeepsKeys(before, unsynced);
      var liveIds := IdsOf(Members(cache));
      sessionsCache := DropUnused(sessionsCache, liveIds, SESSION_CAP);
      sessionObservation := sessionObservation * liveIds;
      peersCache := DropUnused(peersCache, LivePeers(cache), PEER_CAP);
      contextCache := contextCache * KeysOf(Members(cache));
    }

    /** Its first loop, over a snapshot of the cache. */
    method EvictOverCap()
      requires DistinctKeys(cache)
      modifies this`cache, this`sessionsCache, this`sessionObservation, this`contextCache
      ensures State() == CapSessions(old(State()), unsynced, old(cache))
    {
      var todo := cache;
      for i := 0 to |todo|
        invariant forall k :: i <= k < |todo| ==> todo[k] in cache
        invariant CapSessions(State(), unsynced, todo[i..]) == CapSessions(old(State()), unsynced, todo)
      {
        if |cache| <= SESSION_CAP {
          return;
        }
        assert todo[i..][0] == todo[i] && todo[i..][1..] == todo[i + 1..];
        if todo[i] !in unsynced {
          InWithout(cache, {todo[i]});
          EvictSession(todo[i]);
        }
      }
    }

    /** `_sweep_idle_sessions_locked`. */
    method SweepIdleSessions(now: int) returns (evicted: nat)
      requires Valid()
      modifies this`cache, this`sessionsCache, this`sessionObservation, this`contextCache, this`peersCache
      ensures Valid() && evicted == IdleCount(unsynced, updatedAt, now - IDLE_TTL, old(cache))
      ensures State() == EnforceCaps(EvictIdle(old(State()), unsynced, updatedAt, now - IDLE_TTL, old(cache)), unsynced)
      ensures old(InOrder()) ==> InOrder()
      ensures evicted == |set s | s in old(cache) && s !in unsynced && (s in updatedAt ==> updatedAt[s] < now - 3600)|
      ensures forall s :: s in old(cache) ==>
        && (s in unsynced ==> s in cache)
        && (s !in unsynced && (s in updatedAt ==> updatedAt[s] < now - 3600) ==> s !in cache)
        && (s in updatedAt && now - 3600 <= updatedAt[s] && |old(cache)| <= 128 ==> s in cache)
    {
      var cutoff := now - IDLE_TTL;
      DistinctSessions(cache);
      IdleCountIs(unsynced, updatedAt, cutoff, cache);
      SweepEvicts(State(), unsynced, updatedAt, cutoff);
      evicted := EvictIdleOnes(cutoff);
      IdleKeepsKeys(old(State()), unsynced, updatedAt, cutoff);
      if old(InOrder()) {
        IdleKeepsOrder(old(State()), unsynced, updatedAt, cutoff, lastUse, clock);
      }
      EnforceCacheCaps();
    }

    method EvictIdleOnes(cutoff: int) returns (evicted: nat)
      requires Valid()
      modifies this`cache, this`sessionsCache, this`sessionObservation, this`contextCache
      ensures State() == EvictIdle(old(State()), unsynced, updatedAt, cutoff, old(cache))
      ensures evicted == IdleCount(unsynced, updatedAt, cutoff, old(cache))
    {
      var todo := cache;
      evicted := 0;
      for i := 0 to |todo|
        invariant forall k :: i <= k < |todo| ==> todo[k] in cache
        invariant peersCache == old(peersCache)
        invariant evicted + IdleCount(unsynced, updatedAt, cutoff, todo[i..]) == IdleCount(unsynced, updatedAt, cutoff, todo)
        invariant EvictIdle(State(), unsynced, updatedAt, cutoff, todo[i..])
          == EvictIdle(old(State()), unsynced, updatedAt, cutoff, todo)
      {
        assert todo[i..][0] == todo[i] && todo[i..][1..] == todo[i + 1..];
        if !Stays(todo[i], unsynced, updatedAt, cutoff) {
          InWithout(cache, {todo[i]});
          EvictSession(todo[i]);
          evicted := evicted + 1;
        }
      }
    }

    /** `_maybe_sweep_idle_sessions`. */
    method MaybeSweepIdleSessions(now: int)
      requires Valid()
      modifies this`cache, this`sessionsCache, this`sessionObservation, this`contextCache, this`peersCache, this`lastIdleSweep
      ensures Valid() && (old(InOrder()) ==> InOrder())
      ensures now - old(lastIdleSweep) < 300 ==> State() == old(State()) && lastIdleSweep == old(lastIdleSweep)
      ensures 300 <= now - old(lastIdleSweep) ==>
        lastIdleSweep == now
        && State() == EnforceCaps(EvictIdle(old(State()), unsynced, updatedAt, now - IDLE_TTL, old(cache)), unsynced)
    {
      if now - lastIdleSweep < SWEEP_INTERVAL {
        return;
      }
      lastIdleSweep := now;
      var _ := SweepIdleSessions(now);
    }

    /** The end of `get_or_create`: a new object, all of whose messages are synced, takes the key. */
    method Install(s: Session, observed: bool, now: int)
      requires Valid() && s !in cache && s !in unsynced
      modifies this`cache, this`sessionsCache, this`sessionObservation, this`contextCache, this`peersCache,
        this`updatedAt, this`clock, this`lastUse
      ensures Valid() && updatedAt == old(updatedAt)[s := now] && lastUse == old(lastUse)[s := old(clock)]
      ensures old(InOrder()) && FreeOrNewest(old(cache), s.key) ==> InOrder()
      ensures State() == EnforceCaps(WithSession(old(State()), s, observed), unsynced)
      ensures |old(cache)| < 128 ==> forall y :: y in cache <==> y == s || (y in old(cache) && y.key != s.key)
      ensures s in cache && observed && (forall y :: y in old(cache) && y !in cache ==> y.honchoId != s.honchoId) ==>
        s.honchoId in sessionObservation
    {
      InstalledStays(State(), s, observed, unsynced);
      InstallIsReady(State(), s, observed, lastUse, clock);
      lastUse, clock := lastUse[s := clock], clock + 1;
      updatedAt := updatedAt[s := now];
      cache := Installed(cache, s);
      sessionObservation := sessionObservation + if observed then {s.honchoId} else {};
      assert State() == WithSession(old(State()), s, observed);
      EnforceCacheCaps();
    }

    /** `HonchoSession.add_message` on a session of this manager. */
    method AddMessage(s: Session, now: int)
      modifies this`unsynced, this`updatedAt
      ensures unsynced == old(unsynced) + {s} && updatedAt == old(updatedAt)[s := now]
      ensures forall t: Tables, cutoff: int :: WellKeyed(t) && s in t.cache ==>
        s in EvictIdle(t, unsynced, updatedAt, cutoff, t.cache).cache
      ensures forall t: Tables :: WellKeyed(t) && s in t.cache ==> s in EnforceCaps(t, unsynced).cache
    {
      unsynced := unsynced + {s};
      updatedAt := updatedAt[s := now];
      forall t: Tables | WellKeyed(t) && s in t.cache ensures s in EnforceCaps(t, unsynced).cache {
        CapsAreExactLru(t, unsynced);
        InWithout(t.cache, Gone(t.cache, EnforceCaps(t, unsynced).cache));
      }
      forall t: Tables, cutoff: int | WellKeyed(t) && s in t.cache
        ensures s in EvictIdle(t, unsynced, updatedAt, cutoff, t.cache).cache
      {
        IdleEvicts(t, unsynced, updatedAt, cutoff);
      }
    }

    // ----- Saves -----

    /** `_flush_session`, given whether an upload would succeed. */
    method FlushSession(s: Session, uploads: bool) returns (ok: bool)
      modifies this`unsynced
      ensures ok == (uploads || s !in old(unsynced))
      ensures unsynced == if uploads then old(unsynced) - {s} else old(unsynced)
    {
      if s !in unsynced {
        return true;
      }
      if uploads {
        unsynced := unsynced - {s};
      }
      ok := uploads;
    }

    /** `_reclaim_key_locked`. */
    method ReclaimKey(s: Session) returns (owner: Option<Session>)
      requires Valid()
      modifies this`cache, this`clock, this`lastUse
      ensures Valid() && owner == OwnerOf(old(cache), unsynced, s) && cache == Reclaimed(old(cache), unsynced, s)
      ensures s in unsynced && owner.None? ==> s in cache
      ensures cache == if s in unsynced && (forall x :: x in old(cache) ==> x.key != s.key) then old(cache) + [s] else old(cache)
      ensures owner.Some? <==> s in unsynced && exists x :: x in old(cache) && x.key == s.key && x != s
      ensures owner.Some? ==> owner.value in old(cache) && owner.value.key == s.key
      ensures old(InOrder()) ==> InOrder()
    {
      if s !in unsynced {
        return None;
      }
      var current := Find(cache, s.key);
      FindIff(cache, s.key);
      if current.None? {
        NotAKey(cache, s.key);
        AppendKeepsKeys(cache, s);
        if InOrder() {
          AppendUsed(cache, s, lastUse, clock);
        }
        cache := cache + [s];
        lastUse, clock := lastUse[s := clock], clock + 1;
      }
      owner := if current == Some(s) then None else current;
    }

    /** `_retain_for_retry`. */
    method RetainForRetry(s: Session)
      requires Valid()
      modifies this`cache, this`clock, this`lastUse, this`retrySessions
      ensures Valid() && cache == Reclaimed(old(cache), unsynced, s)
      ensures retrySessions == Retained(old(cache), old(retrySessions), unsynced, s)
      ensures retrySessions ==
        if s in unsynced && s !in old(retrySessions) && (exists x :: x in old(cache) && x.key == s.key && x != s)
        then old(retrySessions) + [s] else old(retrySessions)
      ensures (s in unsynced ==> Reachable(s)) && (old(InOrder()) ==> InOrder())
    {
      var owner := ReclaimKey(s);
      if owner.Some? && s !in retrySessions {
        retrySessions := retrySessions + [s];
      }
    }

    /** `_flush_now`. */
    method FlushNow(s: Session, uploads: bool)
      requires Valid()
      modifies this`cache, this`clock, this`lastUse, this`retrySessions, this`unsynced
      ensures Valid() && (s in unsynced ==> Reachable(s)) && (old(InOrder()) ==> InOrder())
      ensures unsynced == if uploads then old(unsynced) - {s} else old(unsynced)
      ensures cache == Reclaimed(old(cache), unsynced, s)
      ensures retrySessions == Retained(old(cache), old(retrySessions), unsynced, s)
    {
      var ok := FlushSession(s, uploads);
      if !ok {
        RetainForRetry(s);
      }
    }

    /** `_keep_until_flushed`. */
    method KeepUntilFlushed(s: Session, uploads: bool)
      requires Valid()
      modifies this`cache, this`clock, this`lastUse, this`retrySessions, this`unsynced
      ensures Valid() && (s in unsynced ==> Reachable(s)) && (old(InOrder()) ==> InOrder())
      ensures var owned := OwnerOf(old(cache), old(unsynced), s).Some?;
        && unsynced == (if owned && uploads then old(unsynced) - {s} else old(unsynced))
        && cache == Reclaimed(old(cache), old(unsynced), s)
        && retrySessions == if owned then Retained(old(cache), old(retrySessions), unsynced, s) else old(retrySessions)
    {
      var owner := ReclaimKey(s);
      if owner.Some? {
        FlushNow(s, uploads);
      }
    }

    predicate FlushesNow(turn: nat)
      reads this
    {
      shuttingDown || match writeFrequency
        case Turn => true
        case SessionEnd => false
        case Every(n) => 0 < n && turn % n == 0
    }

    /** `save` in every mode but async. */
    method Save(s: Session, uploads: bool)
      requires Valid()
      modifies this`cache, this`clock, this`lastUse, this`retrySessions, this`unsynced, this`turnCounter
      ensures Valid() && turnCounter == old(turnCounter) + 1
      ensures (s in unsynced ==> Reachable(s)) && (old(InOrder()) ==> InOrder())
      ensures forall x :: old(Reachable(x)) ==> Reachable(x)
      ensures cache == old(cache) || cache == old(cache) + [s]
      ensures retrySessions == old(retrySessions) || retrySessions == old(retrySessions) + [s]
      ensures unsynced == old(unsynced) || (uploads && unsynced == old(unsynced) - {s})
      ensures s !in old(unsynced) ==> cache == old(cache) && retrySessions == old(retrySessions)
      ensures uploads && (shuttingDown || writeFrequency.Turn?) ==> s !in unsynced
      ensures uploads && writeFrequency.Every? && 0 < writeFrequency.n && (old(turnCounter) + 1) % writeFrequency.n == 0 ==>
        s !in unsynced
      ensures uploads && (exists x :: x in old(cache) && x.key == s.key && x != s) ==> s !in unsynced
      ensures !shuttingDown && (forall x :: x in old(cache) && x.key == s.key ==> x == s) ==>
        (writeFrequency.SessionEnd? ==> unsynced == old(unsynced))
        && (writeFrequency.Every? && (writeFrequency.n <= 0 || (old(turnCounter) + 1) % writeFrequency.n != 0) ==>
              unsynced == old(unsynced))
    {
      turnCounter := turnCounter + 1;
      if FlushesNow(turnCounter) {
        FlushNow(s, uploads);
      } else {
        KeepUntilFlushed(s, uploads);
      }
    }

    /** `_flush_cached_before`, with one try for each session; `uploads` are those whose upload lands if
        it starts.  The result are the sessions whose flush did not start. */
    method FlushCached(deadline: Option<int>, tries: seq<AsyncQueue.Try>, uploads: set<Session>)
      returns (skipped: seq<Session>)
      requires |tries| == |ToFlush(cache, retrySessions)|
      modifies this`unsynced, this`retrySessions
      ensures var all := ToFlush(cache, old(retrySessions));
        && skipped == AsyncQueue.Picked(all, deadline, tries, false)
        && unsynced == old(unsynced) - (uploads * Members(AsyncQueue.Picked(all, deadline, tries, true)))
      ensures (deadline.None? || forall i :: 0 <= i < |tries| ==>
          tries[i].read < deadline.value && tries[i].wait.Some? && tries[i].read + tries[i].wait.value <= deadline.value) ==>
        skipped == [] && forall x :: old(Reachable(x)) && x in uploads ==> x !in unsynced
      ensures retrySessions == Without(old(retrySessions), Members(old(retrySessions)) - unsynced)
      ensures forall x :: old(Reachable(x)) && x in unsynced ==> Reachable(x)
    {
      var sessions := ToFlush(cache, retrySessions);
      skipped := [];
      ghost var started: seq<Session> := [];
      for i := 0 to |sessions|
        invariant retrySessions == old(retrySessions)
        invariant FlushStands(sessions, deadline, tries, i, started, skipped)
        invariant unsynced == old(unsynced) - (uploads * Members(started))
      {
        FlushNext(sessions, deadline, tries, i, started, skipped);
        if AsyncQueue.Starts(deadline, tries[i]) {
          assert Members(started + [sessions[i]]) == Members(started) + {sessions[i]};
          var _ := FlushSession(sessions[i], sessions[i] in uploads);
          started := started + [sessions[i]];
        } else {
          skipped := skipped + [sessions[i]];
        }
      }
      FlushEnds(cache, retrySessions, deadline, tries, started, skipped);
      InWithout(retrySessions, Members(retrySessions) - unsynced);
      retrySessions := Without(retrySessions, Members(retrySessions) - unsynced);
    }
  }

  /** Where the loop over the sessions to flush stands before session `i`. */
  ghost predicate FlushStands(all: seq<Session>, deadline: Option<int>, tries: seq<AsyncQueue.Try>, i: nat,
                              started: seq<Session>, skipped: seq<Session>)
    requires |all| == |tries|
  {
    && i <= |all|
    && AsyncQueue.Picked(all, deadline, tries, true) == started + AsyncQueue.Picked(all[i..], deadline, tries[i..], true)
    && AsyncQueue.Picked(all, deadline, tries, false) == skipped + AsyncQueue.Picked(all[i..], deadline, tries[i..], false)
  }

  lemma FlushNext(all: seq<Session>, deadline: Option<int>, tries: seq<AsyncQueue.Try>, i: nat,
                  started: seq<Session>, skipped: seq<Session>)
    requires |all| == |tries| && i < |all| && FlushStands(all, deadline, tries, i, started, skipped)
    ensures AsyncQueue.Starts(deadline, tries[i]) ==> FlushStands(all, deadline, tries, i + 1, started + [all[i]], skipped)
    ensures !AsyncQueue.Starts(deadline, tries[i]) ==> FlushStands(all, deadline, tries, i + 1, started, skipped + [all[i]])
  {
    assert all[i..][0] == all[i] && all[i..][1..] == all[i + 1..];
    assert tries[i..][0] == tries[i] && tries[i..][1..] == tries[i + 1..];
    AsyncQueue.PickOne(all[i..], deadline, tries[i..], started, true);
    AsyncQueue.PickOne(all[i..], deadline, tries[i..], skipped, false);
  }

  lemma FlushEnds(cache: seq<Session>, retry: seq<Session>, deadline: Option<int>, tries: seq<AsyncQueue.Try>,
                  started: seq<Session>, skipped: seq<Session>)
    requires |ToFlush(cache, retry)| == |tries|
    requires FlushStands(ToFlush(cache, retry), deadline, tries, |tries|, started, skipped)
    ensures var all := ToFlush(cache, retry);
      started == AsyncQueue.Picked(all, deadline, tries, true) && skipped == AsyncQueue.Picked(all, deadline, tries, false)
    ensures (deadline.None? || forall i :: 0 <= i < |tries| ==>
        tries[i].read < deadline.value && tries[i].wait.Some? && tries[i].read + tries[i].wait.value <= deadline.value) ==>
      skipped == [] && forall x :: x in cache || x in retry ==> x in started
  {
    AsyncQueue.TimelyTriesStart(ToFlush(cache, retry), deadline, tries);
    AllAreFlushed(cache, retry);
    forall x | x in cache || x in retry ensures x in ToFlush(cache, retry) {
      assert x in Members(ToFlush(cache, retry));
    }
  }

  /** Every reachable session is among those to flush. */
  lemma AllAreFlushed(cache: seq<Session>, retry: seq<Session>)
    ensures Members(ToFlush(cache, retry)) == Members(cache) + Members(retry)
  {
    InWithout(retry, Members(cache));
  }

  lemma CapSessionsKeepsKeys(t: Tables, unsynced: set<Session>)
    requires WellKeyed(t)
    ensures WellKeyed(CapSessions(t, unsynced, t.cache))
  {
    CapSessionsEvicts(t, unsynced);
    StillWellKeyed(t, Gone(t.cache, CapSessions(t, unsynced, t.cache).cache), CapSessions(t, unsynced, t.cache));
  }

  /** After the idle sweep proper exactly the sessions with unsynced messages, or used since the cutoff, are left. */
  lemma IdleEvicts(t: Tables, unsynced: set<Session>, updatedAt: map<Session, int>, cutoff: int)
    ensures forall s :: s in EvictIdle(t, unsynced, updatedAt, cutoff, t.cache).cache <==>
      s in t.cache && (s in unsynced || (s in updatedAt && cutoff <= updatedAt[s]))
  {
    EvictedNone(t);
    EvictIdleIs(t, unsynced, updatedAt, cutoff, t, {}, t.cache);
    var idle := set s | s in t.cache && s !in unsynced && (s in updatedAt ==> updatedAt[s] < cutoff);
    InWithout(t.cache, {} + idle);
  }

  /** A whole sweep: idle sessions go, unsynced ones stay, and within the cap so does every other. */
  lemma SweepEvicts(t: Tables, unsynced: set<Session>, updatedAt: map<Session, int>, cutoff: int)
    requires WellKeyed(t)
    ensures var r := EnforceCaps(EvictIdle(t, unsynced, updatedAt, cutoff, t.cache), unsynced);
      forall s :: s in t.cache ==>
        && (s in unsynced ==> s in r.cache)
        && (s !in unsynced && (s in updatedAt ==> updatedAt[s] < cutoff) ==> s !in r.cache)
        && (s in updatedAt && cutoff <= updatedAt[s] && |t.cache| <= 128 ==> s in r.cache)
  {
    IdleEvicts(t, unsynced, updatedAt, cutoff);
    IdleKeepsKeys(t, unsynced, updatedAt, cutoff);
    var u := EvictIdle(t, unsynced, updatedAt, cutoff, t.cache);
    CapsAreExactLru(u, unsynced);
    InWithout(u.cache, Gone(u.cache, EnforceCaps(u, unsynced).cache));
    IdleIsShorter(t, unsynced, updatedAt, cutoff, t.cache);
  }

  lemma {:induction false} ShorterWithout<T>(order: seq<T>, gone: set<T>)
    ensures |Without(order, gone)| <= |order|
    decreases |order|
  {
    if order != [] {
      ShorterWithout(order[1..], gone);
    }
  }

  lemma {:induction false} IdleIsShorter(t: Tables, unsynced: set<Session>, updatedAt: map<Session, int>, cutoff: int, todo: seq<Session>)
    ensures |EvictIdle(t, unsynced, updatedAt, cutoff, todo).cache| <= |t.cache|
    decreases |todo|
  {
    if todo != [] {
      ShorterWithout(t.cache, {todo[0]});
      IdleIsShorter(if Stays(todo[0], unsynced, updatedAt, cutoff) then t else Evicted(t, todo[0]), unsynced, updatedAt, cutoff, todo[1..]);
    }
  }

  /** The count of the sweep is the number of idle sessions. */
  lemma {:induction false} IdleCountIs(unsynced: set<Session>, updatedAt: map<Session, int>, cutoff: int, todo: seq<Session>)
    requires Distinct(todo)
    ensures IdleCount(unsynced, updatedAt, cutoff, todo) ==
      |set s | s in todo && s !in unsynced && (s in updatedAt ==> updatedAt[s] < cutoff)|
    decreases |todo|
  {
    var idle := set s | s in todo && s !in unsynced && (s in updatedAt ==> updatedAt[s] < cutoff);
    if todo == [] {
      assert idle == {};
    } else {
      IdleCountIs(unsynced, updatedAt, cutoff, todo[1..]);
      var rest := set s | s in todo[1..] && s !in unsynced && (s in updatedAt ==> updatedAt[s] < cutoff);
      assert idle == rest + if Stays(todo[0], unsynced, updatedAt, cutoff) then {} else {todo[0]};
      assert todo[0] !in todo[1..];
    }
  }

  lemma IdleKeepsKeys(t: Tables, unsynced: set<Session>, updatedAt: map<Session, int>, cutoff: int)
    requires WellKeyed(t)
    ensures WellKeyed(EvictIdle(t, unsynced, updatedAt, cutoff, t.cache))
  {
    EvictedNone(t);
    EvictIdleIs(t, unsynced, updatedAt, cutoff, t, {}, t.cache);
    var idle := set s | s in t.cache && s !in unsynced && (s in updatedAt ==> updatedAt[s] < cutoff);
    StillWellKeyed(t, {} + idle, EvictIdle(t, unsynced, updatedAt, cutoff, t.cache));
  }

  lemma IdleKeepsOrder(t: Tables, unsynced: set<Session>, updatedAt: map<Session, int>, cutoff: int,
                       lastUse: map<Session, nat>, clock: nat)
    requires UsedInOrder(t.cache, lastUse, clock)
    ensures UsedInOrder(EvictIdle(t, unsynced, updatedAt, cutoff, t.cache).cache, lastUse, clock)
  {
    EvictedNone(t);
    EvictIdleIs(t, unsynced, updatedAt, cutoff, t, {}, t.cache);
    var idle := set s | s in t.cache && s !in unsynced && (s in updatedAt ==> updatedAt[s] < cutoff);
    StillInOrder(t.cache, {} + idle, lastUse, clock);
  }
}
