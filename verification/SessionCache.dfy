/**
 The manager's bounded tables: the session cache with its least-recently-used order, the idle sweep,
 the caps, and the places where an unsynced session waits (`HonchoSessionManager` of
 hermes-plugin-honcho/session.py).

 A `Session` is the identity of a session object with the fields that never change; which sessions
 have unsynced messages, and when each was last written or read, are fields of the manager here.
 A dict whose order matters is the sequence of its keys.
 */
module SessionCache {
  const SESSION_CAP := 128
  const PEER_CAP := 512
  const IDLE_TTL := 3600
  const SWEEP_INTERVAL := 300

  datatype Session = Session(id: nat, key: string, honchoId: string, user: string, assistant: string)

  /** The tables keyed to sessions; `observation` and `context` are the key sets of those dicts. */
  datatype Tables = Tables(
    cache: seq<Session>, sdk: seq<string>, observation: set<string>, peers: seq<string>, context: set<string>)

  // ----- Removing entries from an ordered table -----

  function Without<T(==)>(order: seq<T>, gone: set<T>): seq<T>
    decreases |order|
  {
    if order == [] then []
    else (if order[0] in gone then [] else [order[0]]) + Without(order[1..], gone)
  }

  /** Drop the oldest entries outside `kept`, `excess` of them at most. */
  function Capped<T(==)>(order: seq<T>, kept: set<T>, excess: int): seq<T>
    decreases |order|
  {
    if order == [] || excess <= 0 then order
    else if order[0] in kept then [order[0]] + Capped(order[1..], kept, excess)
    else Capped(order[1..], kept, excess - 1)
  }

  ghost predicate Distinct<T(!new)>(order: seq<T>) {
    forall i, j :: 0 <= i < j < |order| ==> order[i] != order[j]
  }

  /** `gone` is what a least-recently-used policy removes: entries outside `kept` only, no entry while
      a less recently used one outside `kept` stays, and as many as asked for or all there are. */
  ghost predicate LeastRecent<T(!new)>(order: seq<T>, kept: set<T>, excess: int, gone: set<T>) {
    && (forall x :: x in gone ==> x in order && x !in kept)
    && (forall i, j :: 0 <= i < j < |order| && order[i] !in kept && order[j] in gone ==> order[i] in gone)
    && |gone| <= (if excess < 0 then 0 else excess)
    && (|gone| < excess ==> forall x :: x in order ==> x in gone || x in kept)
  }

  function Gone<T(==)>(order: seq<T>, left: seq<T>): set<T> {
    set x | x in order && x !in left
  }

  lemma {:induction false} InWithout<T>(order: seq<T>, gone: set<T>)
    ensures forall x :: x in Without(order, gone) <==> x in order && x !in gone
    decreases |order|
  {
    if order != [] {
      InWithout(order[1..], gone);
      forall x ensures x in Without(order, gone) <==> x in order && x !in gone {
        assert x in order <==> x == order[0] || x in order[1..];
      }
    }
  }

  lemma {:induction false} WithoutNone<T>(order: seq<T>, gone: set<T>)
    requires forall x :: x in order ==> x !in gone
    ensures Without(order, gone) == order
    decreases |order|
  {
    if order != [] {
      WithoutNone(order[1..], gone);
    }
  }

  lemma {:induction false} WithoutOverlap<T>(order: seq<T>, gone: set<T>, more: set<T>)
    requires forall x :: x in order ==> (x in gone <==> x in more)
    ensures Without(order, gone) == Without(order, more)
    decreases |order|
  {
    if order != [] {
      WithoutOverlap(order[1..], gone, more);
    }
  }

  lemma {:induction false} WithoutOfConcat<T>(left: seq<T>, right: seq<T>, gone: set<T>)
    ensures Without(left + right, gone) == Without(left, gone) + Without(right, gone)
    decreases |left|
  {
    if left == [] {
      assert left + right == right;
    } else {
      assert (left + right)[1..] == left[1..] + right;
      WithoutOfConcat(left[1..], right, gone);
    }
  }

  lemma {:induction false} InCapped<T>(order: seq<T>, kept: set<T>, excess: int)
    ensures forall x :: x in Capped(order, kept, excess) ==> x in order
    ensures forall x :: x in order && x in kept ==> x in Capped(order, kept, excess)
    decreases |order|
  {
    if order != [] && 0 < excess {
      var first, rest := order[0], order[1..];
      assert forall x :: x in order <==> x == first || x in rest;
      InCapped(rest, kept, if first in kept then excess else excess - 1);
    }
  }

  /** Capping removes exactly what a least-recently-used policy removes, and keeps the order. */
  lemma {:induction false} CappedIsLru<T(!new)>(order: seq<T>, kept: set<T>, excess: int)
    requires Distinct(order)
    ensures LeastRecent(order, kept, excess, Gone(order, Capped(order, kept, excess)))
    ensures Capped(order, kept, excess) == Without(order, Gone(order, Capped(order, kept, excess)))
    decreases |order|
  {
    var left := Capped(order, kept, excess);
    var gone := Gone(order, left);
    if order == [] || excess <= 0 {
      assert gone == {};
      WithoutNone(order, gone);
    } else {
      var first, rest := order[0], order[1..];
      var less := if first in kept then excess else excess - 1;
      CappedIsLru(rest, kept, less);
      InCapped(rest, kept, less);
      var before := Gone(rest, Capped(rest, kept, less));
      assert first !in rest;
      assert forall x :: x in order <==> x == first || x in rest;
      assert gone == if first in kept then before else before + {first};
      WithoutOverlap(rest, before, gone);
      FirstIsLeastRecent(order, kept, excess, before);
    }
  }

  lemma FirstIsLeastRecent<T(!new)>(order: seq<T>, kept: set<T>, excess: int, before: set<T>)
    requires Distinct(order) && order != [] && 0 < excess
    requires LeastRecent(order[1..], kept, if order[0] in kept then excess else excess - 1, before)
    ensures LeastRecent(order, kept, excess, if order[0] in kept then before else before + {order[0]})
  {
    var gone := if order[0] in kept then before else before + {order[0]};
    FirstIsCounted(order, kept, excess, before);
    forall i, j | 0 <= i < j < |order| && order[i] !in kept && order[j] in gone ensures order[i] in gone {
      FirstGoesFirst(order, kept, if order[0] in kept then excess else excess - 1, before, i, j);
    }
  }

  lemma FirstIsCounted<T(!new)>(order: seq<T>, kept: set<T>, excess: int, before: set<T>)
    requires Distinct(order) && order != [] && 0 < excess
    requires LeastRecent(order[1..], kept, if order[0] in kept then excess else excess - 1, before)
    ensures var gone := if order[0] in kept then before else before + {order[0]};
      && (forall x :: x in gone ==> x in order && x !in kept)
      && |gone| <= excess && (|gone| < excess ==> forall x :: x in order ==> x in gone || x in kept)
  {
    var first, rest := order[0], order[1..];
    assert forall x :: x in order <==> x == first || x in rest;
    assert first !in rest;
    assert |before + {first}| == |before| + 1;
  }

  lemma FirstGoesFirst<T(!new)>(order: seq<T>, kept: set<T>, excess: int, before: set<T>, i: nat, j: nat)
    requires Distinct(order) && order != [] && LeastRecent(order[1..], kept, excess, before)
    requires i < j < |order| && order[i] !in kept && (order[j] in before || order[j] == order[0])
    ensures order[i] in before || (order[i] == order[0] && order[0] !in kept)
  {
    assert order[j] == order[1..][j - 1];
    if 0 < i {
      assert order[i] == order[1..][i - 1];
    }
  }

  /** No other set of removals is least recently used. */
  lemma LruIsUnique<T(!new)>(order: seq<T>, kept: set<T>, excess: int, gone: set<T>, other: set<T>)
    requires LeastRecent(order, kept, excess, gone) && LeastRecent(order, kept, excess, other)
    ensures gone == other
  {
    OneInsideOther(order, kept, excess, gone, other);
    FewerCoverAll(order, kept, excess, gone, other);
    FewerCoverAll(order, kept, excess, other, gone);
    if gone <= other {
      SubsetSize(gone, other);
    } else {
      SubsetSize(other, gone);
    }
  }

  lemma OneInsideOther<T(!new)>(order: seq<T>, kept: set<T>, excess: int, gone: set<T>, other: set<T>)
    requires LeastRecent(order, kept, excess, gone) && LeastRecent(order, kept, excess, other)
    ensures gone <= other || other <= gone
  {}

  lemma FewerCoverAll<T(!new)>(order: seq<T>, kept: set<T>, excess: int, gone: set<T>, other: set<T>)
    requires LeastRecent(order, kept, excess, gone) && LeastRecent(order, kept, excess, other)
    ensures |gone| < |other| ==> other <= gone
  {}

  lemma SubsetSize<T>(small: set<T>, large: set<T>)
    requires small <= large
    ensures |small| <= |large|
    ensures |small| == |large| ==> small == large
  {
    assert |large| == |small| + |large - small| by {
      assert small + (large - small) == large;
    }
  }

  // ----- The caps and the idle sweep -----

  function KeysOf(sessions: set<Session>): set<string> {
    set s | s in sessions :: s.key
  }

  function IdsOf(sessions: set<Session>): set<string> {
    set s | s in sessions :: s.honchoId
  }

  function Members(cache: seq<Session>): set<Session> {
    set s | s in cache
  }

  function LivePeers(cache: seq<Session>): set<string> {
    (set s | s in cache :: s.user) + (set s | s in cache :: s.assistant)
  }

  /** Drop one session and every entry keyed to it. */
  function Evicted(t: Tables, s: Session): Tables {
    t.(cache := Without(t.cache, {s}), sdk := Without(t.sdk, {s.honchoId}),
       observation := t.observation - {s.honchoId}, context := t.context - {s.key})
  }

  /** The first loop of the caps, over the entries `todo` of the snapshot. */
  function CapSessions(t: Tables, unsynced: set<Session>, todo: seq<Session>): Tables
    decreases |todo|
  {
    if todo == [] || |t.cache| <= SESSION_CAP then t
    else CapSessions(if todo[0] in unsynced then t else Evicted(t, todo[0]), unsynced, todo[1..])
  }

  /** The other tables, cut down to what the remaining sessions need. */
  function CapTables(t: Tables): Tables {
    t.(sdk := Capped(t.sdk, IdsOf(Members(t.cache)), |t.sdk| - SESSION_CAP),
       observation := t.observation * IdsOf(Members(t.cache)),
       peers := Capped(t.peers, LivePeers(t.cache), |t.peers| - PEER_CAP),
       context := t.context * KeysOf(Members(t.cache)))
  }

  function EnforceCaps(t: Tables, unsynced: set<Session>): Tables {
    CapTables(CapSessions(t, unsynced, t.cache))
  }

  /** The sessions the idle sweep leaves alone. */
  predicate Stays(s: Session, unsynced: set<Session>, updatedAt: map<Session, int>, cutoff: int) {
    s in unsynced || (s in updatedAt && cutoff <= updatedAt[s])
  }

  function EvictIdle(t: Tables, unsynced: set<Session>, updatedAt: map<Session, int>, cutoff: int, todo: seq<Session>): Tables
    decreases |todo|
  {
    if todo == [] then t
    else EvictIdle(if Stays(todo[0], unsynced, updatedAt, cutoff) then t else Evicted(t, todo[0]),
                   unsynced, updatedAt, cutoff, todo[1..])
  }

  ghost predicate DistinctKeys(cache: seq<Session>) {
    forall i, j :: 0 <= i < j < |cache| ==> cache[i].key != cache[j].key
  }

  ghost predicate WellKeyed(t: Tables) {
    DistinctKeys(t.cache) && Distinct(t.sdk) && Distinct(t.peers)
  }

  /** The tables after the sessions `gone` were evicted. */
  ghost predicate EvictedAll(t: Tables, gone: set<Session>, r: Tables) {
    && r.cache == Without(t.cache, gone)
    && r.sdk == Without(t.sdk, IdsOf(gone))
    && r.observation == t.observation - IdsOf(gone)
    && r.context == t.context - KeysOf(gone)
    && r.peers == t.peers
  }

  lemma {:induction false} WithoutTwice<T>(order: seq<T>, gone: set<T>, more: set<T>)
    ensures Without(Without(order, gone), more) == Without(order, gone + more)
    decreases |order|
  {
    if order != [] {
      WithoutTwice(order[1..], gone, more);
      WithoutOfConcat(if order[0] in gone then [] else [order[0]], Without(order[1..], gone), more);
    }
  }

  lemma EvictOneMore(t: Tables, gone: set<Session>, r: Tables, s: Session)
    requires EvictedAll(t, gone, r)
    ensures EvictedAll(t, gone + {s}, Evicted(r, s))
  {
    WithoutTwice(t.cache, gone, {s});
    WithoutTwice(t.sdk, IdsOf(gone), {s.honchoId});
    assert IdsOf(gone) + {s.honchoId} == IdsOf(gone + {s});
    assert KeysOf(gone) + {s.key} == KeysOf(gone + {s});
  }

  lemma EvictedNone(t: Tables)
    ensures EvictedAll(t, {}, t)
  {
    WithoutNone(t.cache, {});
    WithoutNone(t.sdk, IdsOf({}));
  }

  lemma FirstIsElsewhereAbsent<T(!new)>(done: seq<T>, todo: seq<T>)
    requires todo != [] && Distinct(done + todo)
    ensures todo[0] !in done && todo[0] !in todo[1..]
    ensures Distinct(done + todo[1..])
  {
    var all, rest := done + todo, done + todo[1..];
    assert all[|done|] == todo[0];
    assert forall i :: 0 <= i < |done| ==> all[i] == done[i];
    assert forall i :: 0 <= i < |todo| - 1 ==> all[|done| + 1 + i] == todo[1..][i];
    assert forall i :: 0 <= i < |rest| ==> rest[i] == all[if i < |done| then i else i + 1];
  }

  lemma WithoutHead<T>(todo: seq<T>)
    requires todo != [] && todo[0] !in todo[1..]
    ensures Without(todo, {todo[0]}) == todo[1..]
  {
    var gone := {todo[0]};
    WithoutNone(todo[1..], gone);
    assert [] + todo[1..] == todo[1..];
  }

  /** Evicting the first entry of what is left to do. */
  lemma CapStep<T>(done: seq<T>, todo: seq<T>)
    requires todo != [] && todo[0] !in done && todo[0] !in todo[1..]
    ensures Without(done + todo, {todo[0]}) == done + todo[1..]
  {
    var gone := {todo[0]};
    WithoutOfConcat(done, todo, gone);
    WithoutNone(done, gone);
    WithoutHead(todo);
  }

  lemma EvictNext(t: Tables, from: Tables, gone: set<Session>, done: seq<Session>, todo: seq<Session>)
    requires EvictedAll(from, gone, t) && t.cache == done + todo && Distinct(t.cache) && gone <= Members(from.cache)
    requires todo != []
    ensures var u := Evicted(t, todo[0]);
      && EvictedAll(from, gone + {todo[0]}, u) && gone + {todo[0]} <= Members(from.cache)
      && u.cache == done + todo[1..] && Distinct(u.cache)
  {
    FirstIsElsewhereAbsent(done, todo);
    CapStep(done, todo);
    InWithout(from.cache, gone);
    assert t.cache[|done|] == todo[0];
    EvictOneMore(from, gone, t, todo[0]);
  }

  /** The first loop evicts the capped cache's missing entries and what is keyed to them. */
  lemma {:induction false} CapSessionsIs(t: Tables, unsynced: set<Session>, from: Tables, gone: set<Session>,
                                         done: seq<Session>, todo: seq<Session>) returns (g: set<Session>)
    requires EvictedAll(from, gone, t) && t.cache == done + todo && Distinct(t.cache) && gone <= Members(from.cache)
    ensures EvictedAll(from, g, CapSessions(t, unsynced, todo)) && g <= Members(from.cache)
    ensures CapSessions(t, unsynced, todo).cache == done + Capped(todo, unsynced, |t.cache| - SESSION_CAP)
    decreases |todo|
  {
    if todo != [] && SESSION_CAP < |t.cache| {
      if todo[0] in unsynced {
        assert done + todo == (done + [todo[0]]) + todo[1..];
        g := CapSessionsIs(t, unsynced, from, gone, done + [todo[0]], todo[1..]);
      } else {
        EvictNext(t, from, gone, done, todo);
        g := CapSessionsIs(Evicted(t, todo[0]), unsynced, from, gone + {todo[0]}, done, todo[1..]);
      }
    } else {
      g := gone;
    }
  }

  lemma {:induction false} CappedLength<T>(order: seq<T>, kept: set<T>, excess: int)
    ensures |Capped(order, kept, excess)| <= |order| - excess || forall x :: x in Capped(order, kept, excess) ==> x in kept
    decreases |order|
  {
    if order != [] && 0 < excess {
      CappedLength(order[1..], kept, if order[0] in kept then excess else excess - 1);
    }
  }

  lemma {:induction false} DistinctWithout<T(!new)>(order: seq<T>, gone: set<T>)
    requires Distinct(order)
    ensures Distinct(Without(order, gone))
    decreases |order|
  {
    if order != [] {
      DistinctWithout(order[1..], gone);
      InWithout(order[1..], gone);
      assert order[0] !in order[1..];
    }
  }

  lemma WithoutGone<T>(order: seq<T>, gone: set<T>)
    requires forall x :: x in gone ==> x in order
    ensures Gone(order, Without(order, gone)) == gone
  {
    InWithout(order, gone);
  }

  /** A table with the entries outside `kept` dropped, least recently used first, down to `cap`. */
  ghost predicate CappedTo<T(!new)>(order: seq<T>, kept: set<T>, cap: nat, left: seq<T>) {
    && left == Without(order, Gone(order, left))
    && LeastRecent(order, kept, |order| - cap, Gone(order, left))
    && (|left| <= cap || forall x :: x in left ==> x in kept)
  }

  lemma CappedToCap<T(!new)>(order: seq<T>, kept: set<T>, cap: nat)
    requires Distinct(order)
    ensures CappedTo(order, kept, cap, Capped(order, kept, |order| - cap))
  {
    CappedIsLru(order, kept, |order| - cap);
    CappedLength(order, kept, |order| - cap);
  }

  lemma DistinctSessions(cache: seq<Session>)
    requires DistinctKeys(cache)
    ensures Distinct(cache)
  {}

  lemma CapSessionsAll(t: Tables, unsynced: set<Session>) returns (gone: set<Session>)
    requires WellKeyed(t)
    ensures gone <= Members(t.cache) && EvictedAll(t, gone, CapSessions(t, unsynced, t.cache))
    ensures CapSessions(t, unsynced, t.cache).cache == Capped(t.cache, unsynced, |t.cache| - SESSION_CAP)
  {
    DistinctSessions(t.cache);
    EvictedNone(t);
    var order := t.cache;
    assert order == [] + order;
    gone := CapSessionsIs(t, unsynced, t, {}, [], order);
    assert [] + Capped(order, unsynced, |order| - SESSION_CAP) == Capped(order, unsynced, |order| - SESSION_CAP);
  }

  lemma CapSessionsEvicts(t: Tables, unsynced: set<Session>)
    requires WellKeyed(t)
    ensures var r := CapSessions(t, unsynced, t.cache);
      EvictedAll(t, Gone(t.cache, r.cache), r) && CappedTo(t.cache, unsynced, SESSION_CAP, r.cache)
  {
    DistinctSessions(t.cache);
    var gone := CapSessionsAll(t, unsynced);
    WithoutGone(t.cache, gone);
    CappedToCap(t.cache, unsynced, SESSION_CAP);
  }

  lemma CapTablesAre(u: Tables)
    requires Distinct(u.sdk) && Distinct(u.peers)
    ensures var r := CapTables(u);
      && r.cache == u.cache
      && CappedTo(u.sdk, IdsOf(Members(u.cache)), SESSION_CAP, r.sdk)
      && CappedTo(u.peers, LivePeers(u.cache), PEER_CAP, r.peers)
      && r.observation == u.observation * IdsOf(Members(u.cache)) && r.context == u.context * KeysOf(Members(u.cache))
  {
    CappedToCap(u.sdk, IdsOf(Members(u.cache)), SESSION_CAP);
    CappedToCap(u.peers, LivePeers(u.cache), PEER_CAP);
  }

  /** Enforcing the caps is exact LRU over the entries that may go, in every table, and leaves no
      observation flags or prefetched context without a cached session. */
  lemma CapsAreExactLru(t: Tables, unsynced: set<Session>)
    requires WellKeyed(t)
    ensures var r := EnforceCaps(t, unsynced); var gone := Gone(t.cache, r.cache);
      && CappedTo(t.cache, unsynced, SESSION_CAP, r.cache)
      && CappedTo(Without(t.sdk, IdsOf(gone)), IdsOf(Members(r.cache)), SESSION_CAP, r.sdk)
      && CappedTo(t.peers, LivePeers(r.cache), PEER_CAP, r.peers)
      && r.observation == (t.observation - IdsOf(gone)) * IdsOf(Members(r.cache))
      && r.context == t.context * KeysOf(Members(r.cache))
  {
    CapSessionsEvicts(t, unsynced);
    var u := CapSessions(t, unsynced, t.cache);
    var gone := Gone(t.cache, u.cache);
    DistinctWithout(t.sdk, IdsOf(gone));
    CapTablesAre(u);
    EvictedKeysAreGone(t, gone, u.cache);
  }

  /** What a cached session needs is still there: its peers, its prefetched context, and its SDK session if no
      evicted one shares it. */
  lemma LiveEntriesStay(t: Tables, unsynced: set<Session>, s: Session)
    requires WellKeyed(t) && s in EnforceCaps(t, unsynced).cache
    ensures var r := EnforceCaps(t, unsynced);
      && (s.user in t.peers ==> s.user in r.peers) && (s.assistant in t.peers ==> s.assistant in r.peers)
      && (s.key in t.context ==> s.key in r.context)
      && (s.honchoId in t.sdk && (forall x :: x in t.cache && x !in r.cache ==> x.honchoId != s.honchoId) ==>
            s.honchoId in r.sdk)
  {
    CapsAreExactLru(t, unsynced);
    var r := EnforceCaps(t, unsynced);
    var sdk := Without(t.sdk, IdsOf(Gone(t.cache, r.cache)));
    InWithout(t.peers, Gone(t.peers, r.peers));
    InWithout(t.sdk, IdsOf(Gone(t.cache, r.cache)));
    InWithout(sdk, Gone(sdk, r.sdk));
    assert s in Members(r.cache);
  }

  lemma EvictedKeysAreGone(t: Tables, gone: set<Session>, left: seq<Session>)
    requires WellKeyed(t) && gone <= Members(t.cache) && left == Without(t.cache, gone)
    ensures (t.context - KeysOf(gone)) * KeysOf(Members(left)) == t.context * KeysOf(Members(left))
  {
    InWithout(t.cache, gone);
    forall s, x | s in gone && x in left ensures s.key != x.key {
      assert s in t.cache && x in t.cache && s != x;
    }
  }

  /** The idle sweep evicts exactly the synced sessions not used since the cutoff. */
  lemma {:induction false} EvictIdleIs(t: Tables, unsynced: set<Session>, updatedAt: map<Session, int>, cutoff: int,
                                       from: Tables, gone: set<Session>, todo: seq<Session>)
    requires EvictedAll(from, gone, t)
    ensures var idle := set s | s in todo && s !in unsynced && (s in updatedAt ==> updatedAt[s] < cutoff);
      EvictedAll(from, gone + idle, EvictIdle(t, unsynced, updatedAt, cutoff, todo))
    decreases |todo|
  {
    var idle := set s | s in todo && s !in unsynced && (s in updatedAt ==> updatedAt[s] < cutoff);
    if todo == [] {
      assert gone + idle == gone;
    } else {
      var rest := set s | s in todo[1..] && s !in unsynced && (s in updatedAt ==> updatedAt[s] < cutoff);
      if Stays(todo[0], unsynced, updatedAt, cutoff) {
        assert gone + idle == gone + rest;
        EvictIdleIs(t, unsynced, updatedAt, cutoff, from, gone, todo[1..]);
      } else {
        assert gone + idle == gone + {todo[0]} + rest;
        EvictOneMore(from, gone, t, todo[0]);
        EvictIdleIs(Evicted(t, todo[0]), unsynced, updatedAt, cutoff, from, gone + {todo[0]}, todo[1..]);
      }
    }
  }
}
