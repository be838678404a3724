/**
 No unsynced batch gets lost: saves, flushes, sweeps, cap evictions and installs of any number of
 threads, interleaved (hermes-plugin-honcho/session.py).  All write modes but async, whose writer
 drops a batch after its second failure on purpose.

 Steps are what a lock makes atomic.  Per session `added` counts the messages ever appended,
 `synced` those the server has (they are a prefix, see `SessionLog`), and `due` those appended before
 the start of a save that has returned: what the save owes its caller.
 */
module SessionReach {
  import opened Wrappers
  import opened SessionCache
  import opened SessionManager

  datatype Phase =
    | Idle
    | Keeping(s: Session, owed: nat)                                  // in `_keep_until_flushed`
    | Flushing(s: Session, owed: nat, saving: bool)                   // about to take the flush lock
    | Uploading(s: Session, owed: nat, sent: nat, saving: bool)       // sends the messages below `sent`
    | Retaining(s: Session, owed: nat)                                // in `_retain_for_retry`

  /** `lock` is the cache lock held across several steps, with the sessions its holder saw synced. */
  datatype State = State(
    cache: seq<Session>, retry: seq<Session>,
    added: map<Session, nat>, synced: map<Session, nat>, due: map<Session, nat>,
    lock: Option<set<Session>>, flushing: set<Session>, phases: map<nat, Phase>)

  datatype Action =
    | Append(s: Session)
    | SaveCall(t: nat, s: Session, now: bool)   // `now`: the mode, the turn or a shutdown asks for a flush
    | FlushCall(t: nat, s: Session)             // one session of `flush_all`
    | Keep(t: nat)
    | StartUpload(t: nat)
    | EndUpload(t: nat, ok: bool)
    | Retain(t: nat)
    | TakeLock                                  // a sweep, the caps or the retry filter begins,
    | SeeSynced(s: Session)                     // finds a session without unsynced messages,
    | Evict(s: Session)                         // drops it from the cache
    | Forget(s: Session)                        // or from the retry list,
    | ReleaseLock                               // and ends
    | Install(s: Session)

  function At(m: map<Session, nat>, s: Session): nat {
    if s in m then m[s] else 0
  }

  function PhaseOf(s: State, t: nat): Phase {
    if t in s.phases then s.phases[t] else Idle
  }

  function Unsynced(s: State): set<Session> {
    set x | x in s.added && At(s.synced, x) < s.added[x]
  }

  predicate Enabled(s: State, a: Action) {
    match a
    case Append(x) => x in s.added
    case SaveCall(t, x, _) => PhaseOf(s, t).Idle? && x in s.added
    case FlushCall(t, x) => PhaseOf(s, t).Idle? && x in s.added
    case Keep(t) => PhaseOf(s, t).Keeping? && s.lock.None?
    case StartUpload(t) => PhaseOf(s, t).Flushing? && PhaseOf(s, t).s !in s.flushing
    case EndUpload(t, ok) => PhaseOf(s, t).Uploading? && (ok || At(s.synced, PhaseOf(s, t).s) < PhaseOf(s, t).sent)
    case Retain(t) => PhaseOf(s, t).Retaining? && s.lock.None?
    case TakeLock => s.lock.None?
    case SeeSynced(x) => s.lock.Some? && x !in Unsynced(s)
    case Evict(x) => s.lock.Some? && x in s.lock.value
    case Forget(x) => s.lock.Some? && x in s.lock.value
    case ReleaseLock => s.lock.Some?
    case Install(x) => s.lock.None? && x !in s.added && x !in s.cache
  }

  /** A save of thread `t` returns. */
  function Return(s: State, t: nat, x: Session, owed: nat): State {
    s.(phases := s.phases[t := Idle], due := s.due[x := if owed < At(s.due, x) then At(s.due, x) else owed])
  }

  /** The upload of thread `t` ended and the flush lock is free again. */
  function Answered(s: State, t: nat, ok: bool): State
    requires PhaseOf(s, t).Uploading?
  {
    var p := s.phases[t];
    s.(flushing := s.flushing - {p.s}, synced := if ok then s.synced[p.s := p.sent] else s.synced,
       phases := s.phases[t := if p.saving && !ok then Retaining(p.s, p.owed) else Idle])
  }

  function Next(s: State, a: Action): State
    requires Enabled(s, a)
  {
    match a
    case Append(x) => s.(added := s.added[x := s.added[x] + 1])
    case SaveCall(t, x, now) =>
      s.(phases := s.phases[t := if now then Flushing(x, s.added[x], true) else Keeping(x, s.added[x])])
    case FlushCall(t, x) => s.(phases := s.phases[t := Flushing(x, 0, false)])
    case Keep(t) =>
      var p := s.phases[t];
      var u := s.(cache := Reclaimed(s.cache, Unsynced(s), p.s));
      if OwnerOf(s.cache, Unsynced(s), p.s).Some? then u.(phases := s.phases[t := Flushing(p.s, p.owed, true)])
      else Return(u, t, p.s, p.owed)
    case StartUpload(t) =>
      var p := s.phases[t];
      s.(flushing := s.flushing + {p.s}, phases := s.phases[t := Uploading(p.s, p.owed, At(s.added, p.s), p.saving)])
    case EndUpload(t, ok) =>
      var p := s.phases[t];
      if p.saving && ok then Return(Answered(s, t, ok), t, p.s, p.owed) else Answered(s, t, ok)
    case Retain(t) =>
      var p := s.phases[t];
      Return(s.(cache := Reclaimed(s.cache, Unsynced(s), p.s), retry := Retained(s.cache, s.retry, Unsynced(s), p.s)),
             t, p.s, p.owed)
    case TakeLock => s.(lock := Some({}))
    case SeeSynced(x) => s.(lock := Some(s.lock.value + {x}))
    case Evict(x) => s.(cache := Without(s.cache, {x}))
    case Forget(x) => s.(retry := Without(s.retry, {x}))
    case ReleaseLock => s.(lock := None)
    case Install(x) => s.(cache := Installed(s.cache, x), added := s.added[x := 0])
  }

  const EMPTY := State([], [], map[], map[], map[], None, {}, map[])

  /** The session's saves are honoured: the server has what they owe. */
  predicate Settled(s: State, x: Session) {
    At(s.due, x) <= At(s.synced, x)
  }

  /** What an install under the key pushes out unsettled. */
  function PushedOut(s: State, key: string): set<Session> {
    set y | y in s.cache && y.key == key && !Settled(s, y) && y !in s.retry
  }

  /** A save owes messages for the session, and it is not where `flush_all` looks. */
  predicate Lost(s: State, x: Session) {
    !Settled(s, x) && x !in s.cache && x !in s.retry
  }

  /** `flush_all` will find every message owed. */
  ghost predicate Reachable(s: State) {
    forall x :: !Lost(s, x)
  }

  ghost predicate IsRun(s: State, actions: seq<Action>)
    decreases |actions|
  {
    actions == [] || (Enabled(s, actions[0]) && IsRun(Next(s, actions[0]), actions[1..]))
  }

  /** The key is free, or its holder settled or in the retry list: true whenever nothing came between
      the miss that precedes every install and the install. */
  predicate Vacant(s: State, key: string) {
    PushedOut(s, key) == {}
  }

  /** Every install of the run finds its key vacant. */
  ghost predicate AllVacant(s: State, actions: seq<Action>)
    requires IsRun(s, actions)
    decreases |actions|
  {
    actions == [] || (
      && (actions[0].Install? ==> Vacant(s, actions[0].s.key))
      && AllVacant(Next(s, actions[0]), actions[1..]))
  }

  function After(s: State, actions: seq<Action>): State
    requires IsRun(s, actions)
    decreases |actions|
  {
    if actions == [] then s else After(Next(s, actions[0]), actions[1..])
  }

  ghost predicate PhaseOk(s: State, p: Phase) {
    match p
    case Idle => true
    case Keeping(x, owed) => owed <= At(s.added, x)
    case Flushing(x, owed, _) => owed <= At(s.added, x)
    case Uploading(x, owed, sent, _) => owed <= sent <= At(s.added, x) && At(s.synced, x) <= sent && x in s.flushing
    case Retaining(x, owed) => owed <= At(s.added, x)
  }

  ghost predicate CountsOk(s: State) {
    forall x :: At(s.synced, x) <= At(s.added, x) && At(s.due, x) <= At(s.added, x)
  }

  predicate SameUpload(p: Phase, q: Phase) {
    p.Uploading? && q.Uploading? && p.s == q.s
  }

  ghost predicate OneUploadEach(s: State) {
    forall t, u :: t in s.phases && u in s.phases && SameUpload(s.phases[t], s.phases[u]) ==> t == u
  }

  ghost predicate Inv(s: State) {
    && CountsOk(s) && OneUploadEach(s) && DistinctKeys(s.cache)
    && (forall t :: t in s.phases ==> PhaseOk(s, s.phases[t]))
    && (s.lock.Some? ==> forall x :: x in s.lock.value ==> Settled(s, x))
  }

  lemma ReclaimedCache(s: State, x: Session)
    requires DistinctKeys(s.cache)
    ensures var u := Reclaimed(s.cache, Unsynced(s), x);
      && DistinctKeys(u) && (forall y :: y in s.cache ==> y in u)
      && (x in Unsynced(s) && OwnerOf(s.cache, Unsynced(s), x).None? ==> x in u)
  {
    if Find(s.cache, x.key).None? {
      NotAKey(s.cache, x.key);
    }
  }

  lemma KeepKeepsInv(s: State, t: nat)
    requires Inv(s) && Enabled(s, Keep(t))
    ensures Inv(Next(s, Keep(t)))
  {
    var p := s.phases[t];
    ReclaimedCache(s, p.s);
    var u := s.(cache := Reclaimed(s.cache, Unsynced(s), p.s));
    assert Inv(u);
    if OwnerOf(s.cache, Unsynced(s), p.s).None? {
      ReturnKeepsInv(u, t, p.s, p.owed);
    }
  }

  /** A save may return once its messages are on the server or its session is reachable. */
  lemma ReturnKeepsInv(s: State, t: nat, x: Session, owed: nat)
    requires Inv(s) && owed <= At(s.added, x)
    requires x in s.cache || x in s.retry || owed <= At(s.synced, x)
    requires s.lock.Some? && x in s.lock.value ==> owed <= At(s.synced, x)
    ensures Inv(Return(s, t, x, owed))
  {}

  lemma RetainKeepsInv(s: State, t: nat)
    requires Inv(s) && Enabled(s, Retain(t))
    ensures Inv(Next(s, Retain(t)))
  {
    var p := s.phases[t];
    ReclaimedCache(s, p.s);
    var u := s.(cache := Reclaimed(s.cache, Unsynced(s), p.s), retry := Retained(s.cache, s.retry, Unsynced(s), p.s));
    assert Inv(u);
    ReturnKeepsInv(u, t, p.s, p.owed);
  }

  lemma StartKeepsInv(s: State, t: nat)
    requires Inv(s) && Enabled(s, StartUpload(t))
    ensures Inv(Next(s, StartUpload(t)))
  {}

  lemma AnswerKeepsPhases(s: State, t: nat, ok: bool)
    requires Inv(s) && PhaseOf(s, t).Uploading?
    ensures var u := Answered(s, t, ok);
      OneUploadEach(u) && forall v :: v in u.phases ==> PhaseOk(u, u.phases[v])
  {
    var u := Answered(s, t, ok);
    forall v | v in u.phases ensures PhaseOk(u, u.phases[v]) {
      if v != t {
        assert !SameUpload(s.phases[t], s.phases[v]);
      }
    }
  }

  lemma AnswerKeepsCounts(s: State, t: nat, ok: bool)
    requires Inv(s) && PhaseOf(s, t).Uploading?
    ensures var u := Answered(s, t, ok);
      && CountsOk(u)
      && (u.lock.Some? ==> forall x :: x in u.lock.value ==> Settled(u, x))
      && (ok ==> At(u.synced, s.phases[t].s) == s.phases[t].sent)
  {
    assert PhaseOk(s, s.phases[t]);
    assert forall x :: At(s.synced, x) <= At(Answered(s, t, ok).synced, x) <= At(s.added, x);
  }

  lemma EndKeepsInv(s: State, t: nat, ok: bool)
    requires Inv(s) && Enabled(s, EndUpload(t, ok))
    ensures Inv(Next(s, EndUpload(t, ok)))
  {
    var p := s.phases[t];
    AnswerKeepsPhases(s, t, ok);
    AnswerKeepsCounts(s, t, ok);
    assert PhaseOk(s, p);
    if p.saving && ok {
      ReturnKeepsInv(Answered(s, t, ok), t, p.s, p.owed);
    }
  }

  lemma LockedKeepsInv(s: State, a: Action)
    requires Inv(s) && Enabled(s, a) && (a.TakeLock? || a.SeeSynced? || a.Evict? || a.Forget? || a.ReleaseLock?)
    ensures Inv(Next(s, a))
  {
    match a
    case Evict(x) =>
      InWithout(s.cache, {x});
      StillDistinctKeys(s.cache, {x});
    case Forget(x) => InWithout(s.retry, {x});
    case _ =>
  }

  lemma CallsKeepInv(s: State, a: Action)
    requires Inv(s) && Enabled(s, a) && (a.Append? || a.SaveCall? || a.FlushCall?)
    ensures Inv(Next(s, a))
  {}

  lemma InstallKeepsInv(s: State, x: Session)
    requires Inv(s) && Enabled(s, Install(x))
    ensures Inv(Next(s, Install(x)))
  {
    InstallKeepsKeys(s.cache, x);
    assert forall y :: At(Next(s, Install(x)).added, y) == At(s.added, y);
  }

  lemma StepKeepsInv(s: State, a: Action)
    requires Inv(s) && Enabled(s, a)
    ensures Inv(Next(s, a))
  {
    match a
    case Keep(t) => KeepKeepsInv(s, t);
    case Retain(t) => RetainKeepsInv(s, t);
    case StartUpload(t) => StartKeepsInv(s, t);
    case EndUpload(t, ok) => EndKeepsInv(s, t, ok);
    case Install(x) => InstallKeepsInv(s, x);
    case Append(_) => CallsKeepInv(s, a);
    case SaveCall(_, _, _) => CallsKeepInv(s, a);
    case FlushCall(_, _) => CallsKeepInv(s, a);
    case _ => LockedKeepsInv(s, a);
  }

  lemma {:induction false} RunKeepsInv(s: State, actions: seq<Action>)
    requires Inv(s) && IsRun(s, actions)
    ensures Inv(After(s, actions))
    decreases |actions|
  {
    if actions != [] {
      StepKeepsInv(s, actions[0]);
      RunKeepsInv(Next(s, actions[0]), actions[1..]);
    }
  }

  // ----- How a session gets lost -----

  /** A save that returns loses no session. */
  lemma ReturnLosesNone(s: State, t: nat, x: Session, owed: nat, y: Session)
    requires x in s.cache || x in s.retry || owed <= At(s.synced, x)
    ensures Lost(Return(s, t, x, owed), y) ==> Lost(s, y)
  {}

  lemma KeepLosesNone(s: State, t: nat, y: Session)
    requires Inv(s) && Enabled(s, Keep(t))
    ensures Lost(Next(s, Keep(t)), y) ==> Lost(s, y)
  {
    var p := s.phases[t];
    ReclaimedCache(s, p.s);
    assert PhaseOk(s, p);
    if OwnerOf(s.cache, Unsynced(s), p.s).None? {
      ReturnLosesNone(s.(cache := Reclaimed(s.cache, Unsynced(s), p.s)), t, p.s, p.owed, y);
    }
  }

  lemma RetainLosesNone(s: State, t: nat, y: Session)
    requires Inv(s) && Enabled(s, Retain(t))
    ensures Lost(Next(s, Retain(t)), y) ==> Lost(s, y)
  {
    var p := s.phases[t];
    ReclaimedCache(s, p.s);
    assert PhaseOk(s, p);
    ReturnLosesNone(
      s.(cache := Reclaimed(s.cache, Unsynced(s), p.s), retry := Retained(s.cache, s.retry, Unsynced(s), p.s)),
      t, p.s, p.owed, y);
  }

  lemma EndLosesNone(s: State, t: nat, ok: bool, y: Session)
    requires Inv(s) && Enabled(s, EndUpload(t, ok))
    ensures Lost(Next(s, EndUpload(t, ok)), y) ==> Lost(s, y)
  {
    var p := s.phases[t];
    assert PhaseOk(s, p);
    if p.saving && ok {
      ReturnLosesNone(Answered(s, t, ok), t, p.s, p.owed, y);
    }
  }

  lemma DropLosesNone(s: State, a: Action, y: Session)
    requires Inv(s) && Enabled(s, a) && (a.Evict? || a.Forget?)
    ensures Lost(Next(s, a), y) ==> Lost(s, y)
  {
    InWithout(if a.Evict? then s.cache else s.retry, {a.s});
  }

  lemma InstallLoses(s: State, x: Session, y: Session)
    requires Inv(s) && Enabled(s, Install(x))
    ensures Lost(Next(s, Install(x)), y) <==> Lost(s, y) || y in PushedOut(s, x.key)
  {
    InstallKeepsKeys(s.cache, x);
  }

  /** Only an install loses a session, and exactly those it pushes out. */
  lemma BecomesLost(s: State, a: Action, y: Session)
    requires Inv(s) && Enabled(s, a)
    ensures Lost(Next(s, a), y) ==> Lost(s, y) || (a.Install? && y in PushedOut(s, a.s.key))
    ensures a.Install? && y in PushedOut(s, a.s.key) ==> Lost(Next(s, a), y)
  {
    match a
    case Keep(t) => KeepLosesNone(s, t, y);
    case Retain(t) => RetainLosesNone(s, t, y);
    case EndUpload(t, ok) => EndLosesNone(s, t, ok, y);
    case Evict(_) => DropLosesNone(s, a, y);
    case Forget(_) => DropLosesNone(s, a, y);
    case Install(x) => InstallLoses(s, x, y);
    case _ =>
  }

  /** An install keeps every owed message reachable exactly when its key was vacant. */
  lemma InstallKeepsIff(s: State, x: Session)
    requires Inv(s) && Reachable(s) && Enabled(s, Install(x))
    ensures Reachable(Next(s, Install(x))) <==> Vacant(s, x.key)
  {
    forall y ensures Lost(Next(s, Install(x)), y) <==> y in PushedOut(s, x.key) {
      InstallLoses(s, x, y);
    }
  }

  /** The session is lost at every moment of the run. */
  ghost predicate LostThroughout(s: State, actions: seq<Action>, x: Session)
    requires IsRun(s, actions)
    decreases |actions|
  {
    Lost(s, x) && (actions == [] || LostThroughout(Next(s, actions[0]), actions[1..], x))
  }

  /** Some install of the run pushes the session out, and from then on it is lost. */
  ghost predicate LostByInstall(s: State, actions: seq<Action>, x: Session)
    requires IsRun(s, actions)
    decreases |actions|
  {
    actions != [] && (
      || (actions[0].Install? && x in PushedOut(s, actions[0].s.key) && LostThroughout(Next(s, actions[0]), actions[1..], x))
      || LostByInstall(Next(s, actions[0]), actions[1..], x))
  }

  lemma {:induction false} LostIff(s: State, actions: seq<Action>, x: Session)
    requires Inv(s) && IsRun(s, actions)
    ensures Lost(After(s, actions), x) <==> LostThroughout(s, actions, x) || LostByInstall(s, actions, x)
    decreases |actions|
  {
    if actions != [] {
      BecomesLost(s, actions[0], x);
      StepKeepsInv(s, actions[0]);
      LostIff(Next(s, actions[0]), actions[1..], x);
    }
  }

  /** After every run, each message that a returned save was called for is on the server, or belongs to
      a session that the next `flush_all` will flush, except exactly those of a session that an install
      pushed out and that has been lost ever since. */
  lemma OutOfReachIff(actions: seq<Action>, x: Session)
    requires IsRun(EMPTY, actions)
    ensures var s := After(EMPTY, actions);
      At(s.due, x) <= At(s.synced, x) || x in ToFlush(s.cache, s.retry) <==> !LostByInstall(EMPTY, actions, x)
  {
    LostIff(EMPTY, actions, x);
    var s := After(EMPTY, actions);
    InWithout(s.retry, Members(s.cache));
  }

  ghost predicate ReachableThroughout(s: State, actions: seq<Action>)
    requires IsRun(s, actions)
    decreases |actions|
  {
    Reachable(s) && (actions == [] || ReachableThroughout(Next(s, actions[0]), actions[1..]))
  }

  /** All that saves owe is reachable at every moment exactly in the runs whose installs find their
      keys vacant. */
  lemma {:induction false} ReachableThroughoutIff(s: State, actions: seq<Action>)
    requires Inv(s) && Reachable(s) && IsRun(s, actions)
    ensures ReachableThroughout(s, actions) <==> AllVacant(s, actions)
    ensures ReachableThroughout(s, actions) ==> Reachable(After(s, actions))
    decreases |actions|
  {
    if actions != [] {
      var u := Next(s, actions[0]);
      StepKeepsInv(s, actions[0]);
      if actions[0].Install? {
        InstallKeepsIff(s, actions[0].s);
      } else {
        forall x ensures !Lost(u, x) {
          BecomesLost(s, actions[0], x);
        }
      }
      if Reachable(u) {
        ReachableThroughoutIff(u, actions[1..]);
      }
    }
  }

  /** With miss and install not interleaved, all that saves owe stays reachable until it is synced. */
  lemma SavedIsReachableUntilSynced(actions: seq<Action>, x: Session)
    requires IsRun(EMPTY, actions) && AllVacant(EMPTY, actions)
    ensures var s := After(EMPTY, actions);
      At(s.due, x) <= At(s.synced, x) || x in ToFlush(s.cache, s.retry)
  {
    ReachableThroughoutIff(EMPTY, actions);
    var s := After(EMPTY, actions);
    InWithout(s.retry, Members(s.cache));
    assert !Lost(s, x);
  }

  /** What saves owe never shrinks, nor does what the server has. */
  lemma OwedAndSyncedGrow(s: State, a: Action, x: Session)
    requires Inv(s) && Enabled(s, a)
    ensures At(s.due, x) <= At(Next(s, a).due, x) && At(s.synced, x) <= At(Next(s, a).synced, x)
  {
    if a.EndUpload? {
      assert PhaseOk(s, s.phases[a.t]);
    }
  }

  /** Thread `t` is inside `save`. */
  predicate Saving(p: Phase) {
    p.Keeping? || p.Retaining? || ((p.Flushing? || p.Uploading?) && p.saving)
  }

  /** A save that begins owes what is appended so far, goes on owing it, and returns with it due. */
  predicate Owes(s: State, a: Action, u: State, t: nat) {
    var before, after := PhaseOf(s, t), PhaseOf(u, t);
    if Saving(after) then
      if Saving(before) then after.owed == before.owed && after.s == before.s
      else a.SaveCall? && after.s == a.s && after.owed == At(s.added, a.s)
    else Saving(before) ==> before.owed <= At(u.due, before.s)
  }

  lemma CallOwes(s: State, a: Action, t: nat)
    requires Inv(s) && Enabled(s, a) && !a.Keep? && !a.Retain? && !a.EndUpload?
    ensures Owes(s, a, Next(s, a), t)
  {}

  /** From its call to its return a save owes all that was appended before it began. */
  lemma SaveOwes(s: State, a: Action, t: nat)
    requires Inv(s) && Enabled(s, a)
    ensures Owes(s, a, Next(s, a), t)
  {
    if !a.Keep? && !a.Retain? && !a.EndUpload? {
      CallOwes(s, a, t);
    }
  }

  lemma SavedOnce(x: Session)
    ensures var actions := [Install(x)] + ([Append(x)] + ([SaveCall(0, x, false)] + ([Keep(0)] + [])));
      IsRun(EMPTY, actions)
      && After(EMPTY, actions) == State([x], [], map[x := 1], map[], map[x := 1], None, {}, map[0 := Idle])
  {
    var s1 := Next(EMPTY, Install(x));
    var s2 := Next(s1, Append(x));
    var s3 := Next(s2, SaveCall(0, x, false));
    assert s1.cache == [x] && x in Unsynced(s3);
    RunOfOne(s3, Keep(0), []);
    RunOfOne(s2, SaveCall(0, x, false), [Keep(0)] + []);
    RunOfOne(s1, Append(x), [SaveCall(0, x, false)] + ([Keep(0)] + []));
    RunOfOne(EMPTY, Install(x), [Append(x)] + ([SaveCall(0, x, false)] + ([Keep(0)] + [])));
  }

  /** Two installs that both followed a miss lose the first session's saved message. */
  lemma LateInstallLoses(x: Session, y: Session)
    requires x != y && x.key == y.key
    ensures var actions := [Install(x), Append(x), SaveCall(0, x, false), Keep(0)];
      && IsRun(EMPTY, actions) && Enabled(After(EMPTY, actions), Install(y))
      && Lost(Next(After(EMPTY, actions), Install(y)), x)
  {
    SavedOnce(x);
    assert [Install(x), Append(x), SaveCall(0, x, false), Keep(0)]
      == [Install(x)] + ([Append(x)] + ([SaveCall(0, x, false)] + ([Keep(0)] + [])));
  }

  lemma RunOfOne(s: State, a: Action, rest: seq<Action>)
    requires Enabled(s, a) && IsRun(Next(s, a), rest)
    ensures IsRun(s, [a] + rest) && After(s, [a] + rest) == After(Next(s, a), rest)
  {
    assert ([a] + rest)[1..] == rest;
  }

  // ----- One save undisturbed -----

  /** Some run goes from the one state to the other. */
  ghost predicate Leads(s: State, u: State) {
    exists actions :: IsRun(s, actions) && After(s, actions) == u
  }

  lemma LeadsNowhere(s: State)
    ensures Leads(s, s)
  {
    assert IsRun(s, []) && After(s, []) == s;
  }

  lemma {:induction false} RunsOn(s: State, actions: seq<Action>, a: Action)
    requires IsRun(s, actions) && Enabled(After(s, actions), a)
    ensures IsRun(s, actions + [a]) && After(s, actions + [a]) == Next(After(s, actions), a)
    decreases |actions|
  {
    if actions == [] {
      assert (actions + [a])[1..] == [];
    } else {
      RunsOn(Next(s, actions[0]), actions[1..], a);
      assert (actions + [a])[1..] == actions[1..] + [a];
    }
  }

  lemma Step(s: State, u: State, a: Action) returns (v: State)
    requires Leads(s, u) && Enabled(u, a)
    ensures v == Next(u, a) && Leads(s, v)
  {
    v := Next(u, a);
    var actions :| IsRun(s, actions) && After(s, actions) == u;
    RunsOn(s, actions, a);
  }

  /** What the save owes is due, whatever was before. */
  function Owing(s: State, x: Session): map<Session, nat> {
    var owed := At(s.added, x);
    s.due[x := if owed < At(s.due, x) then At(s.due, x) else owed]
  }

  lemma UploadRun(s: State, u: State, t: nat, ok: bool) returns (v: State)
    requires Leads(s, u) && PhaseOf(u, t).Flushing? && u.phases[t].saving && u.lock.None?
    requires u.phases[t].s !in u.flushing && u.phases[t].owed == At(u.added, u.phases[t].s)
    requires ok || At(u.synced, u.phases[t].s) < At(u.added, u.phases[t].s)
    ensures Leads(s, v) && PhaseOf(v, t).Idle?
    ensures var x := u.phases[t].s; var after := u.(due := Owing(u, x), flushing := u.flushing - {x}, phases := v.phases);
      v == if ok then after.(synced := u.synced[x := At(u.added, x)])
           else after.(cache := Reclaimed(u.cache, Unsynced(u), x), retry := Retained(u.cache, u.retry, Unsynced(u), x))
  {
    var x := u.phases[t].s;
    v := Step(s, u, StartUpload(t));
    assert v.flushing - {x} == u.flushing - {x};
    v := Step(s, v, EndUpload(t, ok));
    if !ok {
      v := Step(s, v, Retain(t));
    }
  }

  /** A save that flushes and that nothing disturbs: its session is synced, or back in reach, and all that it
      owes is due. */
  lemma UndisturbedFlush(s: State, t: nat, x: Session, ok: bool) returns (u: State)
    requires PhaseOf(s, t).Idle? && x in s.added && s.lock.None? && x !in s.flushing
    requires ok || At(s.synced, x) < s.added[x]
    ensures Leads(s, u) && PhaseOf(u, t).Idle? && At(u.due, x) >= s.added[x]
    ensures ok ==> At(u.synced, x) == s.added[x] && u.cache == s.cache && u.retry == s.retry
    ensures !ok ==> u.synced == s.synced && u.cache == Reclaimed(s.cache, Unsynced(s), x)
                    && u.retry == Retained(s.cache, s.retry, Unsynced(s), x) && (x in u.cache || x in u.retry)
  {
    LeadsNowhere(s);
    u := Step(s, s, SaveCall(t, x, true));
    assert Unsynced(u) == Unsynced(s);
    u := UploadRun(s, u, t, ok);
  }

  /** One that only keeps its session: that is back in reach under its key, or, if a newer object owns the
      key, flushed all the same. */
  lemma UndisturbedKeep(s: State, t: nat, x: Session, ok: bool) returns (u: State)
    requires PhaseOf(s, t).Idle? && x in s.added && s.lock.None? && x !in s.flushing
    requires ok || At(s.synced, x) < s.added[x]
    ensures Leads(s, u) && PhaseOf(u, t).Idle? && At(u.due, x) >= s.added[x]
    ensures OwnerOf(s.cache, Unsynced(s), x).None? ==>
      u.synced == s.synced && u.cache == Reclaimed(s.cache, Unsynced(s), x) && u.retry == s.retry
    ensures OwnerOf(s.cache, Unsynced(s), x).Some? ==> if ok then At(u.synced, x) == s.added[x] else x in u.retry || x in u.cache
  {
    LeadsNowhere(s);
    u := Step(s, s, SaveCall(t, x, false));
    assert Unsynced(u) == Unsynced(s);
    u := Step(s, u, Keep(t));
    if PhaseOf(u, t).Flushing? {
      assert Unsynced(u) == Unsynced(s);
      u := UploadRun(s, u, t, ok);
    }
  }

  /** A sweep, a cap or the retry filter that finds a session synced can drop it. */
  lemma UndisturbedEvict(s: State, x: Session) returns (u: State)
    requires s.lock.None? && (x in s.added ==> s.added[x] <= At(s.synced, x))
    ensures Leads(s, u) && u == s.(cache := Without(s.cache, {x}), retry := Without(s.retry, {x}))
  {
    LeadsNowhere(s);
    u := Step(s, s, TakeLock);
    u := Step(s, u, SeeSynced(x));
    u := Step(s, u, Evict(x));
    u := Step(s, u, Forget(x));
    u := Step(s, u, ReleaseLock);
  }
}
