/**
 Closing the async write queue: `save` in async mode, `_drain_async_queue`, `_flush_session_before`,
 `stop_async_writer` and `shutdown` (hermes-plugin-honcho/session.py).

 The class drains the queue as one thread does.  The state machine interleaves any number of savers,
 drains and stops with the writer thread.  Time is an integer clock that never runs backwards.
 */
module AsyncQueue {
  import opened Wrappers

  /** A queue entry: a session by its identity, or the sentinel that ends the writer. */
  datatype Item = Queued(id: nat) | Sentinel

  function Sessions(queue: seq<Item>): seq<nat>
    decreases |queue|
  {
    if queue == [] then []
    else (if queue[0].Queued? then [queue[0].id] else []) + Sessions(queue[1..])
  }

  lemma {:induction false} SessionsOfConcat(left: seq<Item>, right: seq<Item>)
    ensures Sessions(left + right) == Sessions(left) + Sessions(right)
    decreases |left|
  {
    if left == [] {
      assert left + right == right;
    } else {
      SessionsOfConcat(left[1..], right);
      assert left + right == [left[0]] + (left[1..] + right);
      SessionsOfNext(left[0], left[1..] + right);
      assert left == [left[0]] + left[1..];
      SessionsOfNext(left[0], left[1..]);
    }
  }

  lemma SessionsOfNext(item: Item, rest: seq<Item>)
    ensures Sessions([item] + rest) == (if item.Queued? then [item.id] else []) + Sessions(rest)
  {
    assert ([item] + rest)[1..] == rest;
  }

  // ----- One thread -----

  /** One try at a flush: the clock was read at `read`, the wait for the session's lock began at
      `began`, and the lock would be free after `wait`, or never while this thread waits. */
  datatype Try = Try(read: int, began: int, wait: Option<nat>)

  /** Whether the flush of `_flush_session_before` starts. */
  predicate Starts(deadline: Option<int>, t: Try) {
    deadline.None?
    || (t.read < deadline.value && t.wait.Some? && t.wait.value <= deadline.value - t.read)
  }

  /** Without a deadline every flush starts; with one, exactly those whose clock read leaves time and whose
      lock is free before that is used up. */
  lemma StartsIff(deadline: Option<int>, t: Try)
    ensures Starts(deadline, t) <==>
      match deadline
      case None => true
      case Some(d) => match t.wait case None => false case Some(w) => 0 < d - t.read && t.read + w <= d
  {}

  /** A flush that starts does so by the deadline, or later by no more than the time between reading
      the clock and beginning to wait; and it never starts once the clock reads the deadline. */
  lemma StartsInTime(deadline: int, t: Try)
    requires t.read <= t.began && Starts(Some(deadline), t)
    ensures t.read < deadline && t.began + t.wait.value <= deadline + (t.began - t.read)
  {}

  /** Every flush that starts, of a try with this lag, starts by its deadline. */
  ghost predicate OnTime(lag: nat) {
    forall deadline, t :: Starts(Some(deadline), t) && t.began == t.read + lag ==> t.began + t.wait.value <= deadline
  }

  /** Only without lag is the deadline met: any lag lets some flush start as late as that. */
  lemma OnTimeIff(lag: nat)
    ensures OnTime(lag) <==> lag == 0
  {
    var late := Try(9, 9 + lag, Some(1));
    assert Starts(Some(10), late) && late.began + late.wait.value == 10 + lag;
  }

  /** The sessions, taken in order with one try each, whose flush starts, or does not. */
  function Picked<T>(ids: seq<T>, deadline: Option<int>, tries: seq<Try>, start: bool): seq<T>
    requires |ids| == |tries|
    decreases |ids|
  {
    if ids == [] then []
    else (if Starts(deadline, tries[0]) == start then [ids[0]] else []) + Picked(ids[1..], deadline, tries[1..], start)
  }

  /** Every session is flushed or skipped, never both. */
  lemma {:induction false} FlushedOrSkipped(ids: seq<nat>, deadline: Option<int>, tries: seq<Try>)
    requires |ids| == |tries|
    ensures multiset(Picked(ids, deadline, tries, true)) + multiset(Picked(ids, deadline, tries, false)) == multiset(ids)
    decreases |ids|
  {
    if ids != [] {
      FlushedOrSkipped(ids[1..], deadline, tries[1..]);
      assert ids == [ids[0]] + ids[1..];
    }
  }

  lemma {:induction false} NoDeadlineSkipsNothing(ids: seq<nat>, tries: seq<Try>)
    requires |ids| == |tries|
    ensures Picked(ids, None, tries, true) == ids
    decreases |ids|
  {
    if ids != [] {
      NoDeadlineSkipsNothing(ids[1..], tries[1..]);
    }
  }

  /** Once the clock reads the deadline, nothing more is flushed. */
  lemma {:induction false} LateTriesAreSkipped(ids: seq<nat>, deadline: int, tries: seq<Try>)
    requires |ids| == |tries|
    requires forall i :: 0 <= i < |tries| ==> deadline <= tries[i].read
    ensures Picked(ids, Some(deadline), tries, false) == ids
    decreases |ids|
  {
    if ids != [] {
      LateTriesAreSkipped(ids[1..], deadline, tries[1..]);
    }
  }

  /** Tries that all have their lock in time skip nothing. */
  lemma {:induction false} TimelyTriesStart<T>(ids: seq<T>, deadline: Option<int>, tries: seq<Try>)
    requires |ids| == |tries|
    ensures (deadline.None? || forall i :: 0 <= i < |tries| ==>
        tries[i].read < deadline.value && tries[i].wait.Some? && tries[i].read + tries[i].wait.value <= deadline.value) ==>
      Picked(ids, deadline, tries, true) == ids && Picked(ids, deadline, tries, false) == []
    decreases |ids|
  {
    if ids != [] {
      assert forall i :: 0 <= i < |tries| - 1 ==> tries[1..][i] == tries[i + 1];
      TimelyTriesStart(ids[1..], deadline, tries[1..]);
    }
  }

  /** Each session is taken or left by its own try. */
  lemma {:induction false} PickedIff<T>(ids: seq<T>, deadline: Option<int>, tries: seq<Try>, start: bool, x: T)
    requires |ids| == |tries|
    ensures x in Picked(ids, deadline, tries, start) <==>
      exists i :: 0 <= i < |ids| && ids[i] == x && start == (deadline.None? || (
        tries[i].read < deadline.value && tries[i].wait.Some? && tries[i].read + tries[i].wait.value <= deadline.value))
    decreases |ids|
  {
    if ids != [] {
      PickedIff(ids[1..], deadline, tries[1..], start, x);
      assert forall i :: 0 < i < |ids| ==> ids[i] == ids[1..][i - 1] && tries[i] == tries[1..][i - 1];
      assert forall i :: 0 <= i < |ids| - 1 ==> ids[1..][i] == ids[i + 1] && tries[1..][i] == tries[i + 1];
    }
  }

  /** Where a drain stands: `n` sessions taken, sorted into `started` and `skipped`. */
  ghost predicate DrainOk(ids: seq<nat>, deadline: Option<int>, tries: seq<Try>, n: nat, queue: seq<Item>,
                          started: seq<nat>, skipped: seq<nat>)
    requires |ids| == |tries|
  {
    && n <= |ids| && Sessions(queue) == ids[n..]
    && Picked(ids, deadline, tries, true) == started + Picked(ids[n..], deadline, tries[n..], true)
    && Picked(ids, deadline, tries, false) == skipped + Picked(ids[n..], deadline, tries[n..], false)
  }

  lemma DrainStep(ids: seq<nat>, deadline: Option<int>, tries: seq<Try>, n: nat, queue: seq<Item>,
                  started: seq<nat>, skipped: seq<nat>)
    requires |ids| == |tries| && queue != [] && DrainOk(ids, deadline, tries, n, queue, started, skipped)
    ensures queue[0].Sentinel? ==> DrainOk(ids, deadline, tries, n, queue[1..], started, skipped)
    ensures queue[0].Queued? ==> n < |ids| && ids[n] == queue[0].id
    ensures queue[0].Queued? && Starts(deadline, tries[n]) ==>
              DrainOk(ids, deadline, tries, n + 1, queue[1..], started + [ids[n]], skipped)
    ensures queue[0].Queued? && !Starts(deadline, tries[n]) ==>
              DrainOk(ids, deadline, tries, n + 1, queue[1..], started, skipped + [ids[n]])
  {
    if queue[0].Queued? {
      assert ids[n..][1..] == ids[n + 1..] && tries[n..][1..] == tries[n + 1..];
      assert ids[n..][0] == ids[n] && tries[n..][0] == tries[n];
      PickOne(ids[n..], deadline, tries[n..], started, true);
      PickOne(ids[n..], deadline, tries[n..], skipped, false);
    }
  }

  /** An empty queue is drained: what was started and skipped is all that was queued. */
  lemma DrainEnds(ids: seq<nat>, deadline: Option<int>, tries: seq<Try>, n: nat, started: seq<nat>, skipped: seq<nat>)
    requires |ids| == |tries| && DrainOk(ids, deadline, tries, n, [], started, skipped)
    ensures started == Picked(ids, deadline, tries, true) && skipped == Picked(ids, deadline, tries, false)
    ensures (deadline.None? || forall i :: 0 <= i < |tries| ==>
        tries[i].read < deadline.value && tries[i].wait.Some? && tries[i].read + tries[i].wait.value <= deadline.value) ==>
      skipped == [] && started == ids
  {
    TimelyTriesStart(ids, deadline, tries);
    assert ids[n..] == [] && tries[n..] == [];
  }

  lemma PickOne<T>(ids: seq<T>, deadline: Option<int>, tries: seq<Try>, before: seq<T>, start: bool)
    requires |ids| == |tries| && ids != []
    ensures before + Picked(ids, deadline, tries, start) ==
      (if Starts(deadline, tries[0]) == start then before + [ids[0]] else before) + Picked(ids[1..], deadline, tries[1..], start)
  {
    var rest := Picked(ids[1..], deadline, tries[1..], start);
    if Starts(deadline, tries[0]) == start {
      assert Picked(ids, deadline, tries, start) == [ids[0]] + rest;
      Associative(before, [ids[0]], rest);
    } else {
      assert Picked(ids, deadline, tries, start) == [] + rest == rest;
    }
  }

  lemma Associative<T>(a: seq<T>, b: seq<T>, c: seq<T>)
    ensures a + (b + c) == (a + b) + c
  {}

  class AsyncWriter {
    var queue: seq<Item>
    var shuttingDown: bool
    ghost var flushed: seq<nat>

    constructor ()
      ensures queue == [] && !shuttingDown && flushed == []
    {
      queue, shuttingDown, flushed := [], false, [];
    }

    /** `save` in async mode; the result says whether the session must be flushed inline. */
    method Save(id: nat) returns (inline: bool)
      modifies this`queue
      ensures inline == shuttingDown
      ensures queue == if inline then old(queue) else old(queue) + [Queued(id)]
      ensures Sessions(queue) == if inline then Sessions(old(queue)) else Sessions(old(queue)) + [id]
    {
      if !shuttingDown {
        SessionsOfConcat(queue, [Queued(id)]);
        queue := queue + [Queued(id)];
        return false;
      }
      inline := true;
    }

    /** `_drain_async_queue`, with one try for each session queued. */
    method DrainAsyncQueue(deadline: Option<int>, tries: seq<Try>) returns (skipped: seq<nat>)
      requires |tries| == |Sessions(queue)|
      modifies this`queue, this`flushed
      ensures queue == []
      ensures skipped == Picked(Sessions(old(queue)), deadline, tries, false)
      ensures flushed == old(flushed) + Picked(Sessions(old(queue)), deadline, tries, true)
      ensures (deadline.None? || forall i :: 0 <= i < |tries| ==>
          tries[i].read < deadline.value && tries[i].wait.Some? && tries[i].read + tries[i].wait.value <= deadline.value) ==>
        skipped == [] && flushed == old(flushed) + Sessions(old(queue))
    {
      skipped := [];
      ghost var ids, started: seq<nat> := Sessions(queue), [];
      var n := 0;
      while queue != []
        invariant DrainOk(ids, deadline, tries, n, queue, started, skipped) && flushed == old(flushed) + started
        decreases |queue|
      {
        DrainStep(ids, deadline, tries, n, queue, started, skipped);
        var item := queue[0];
        queue := queue[1..];
        if item.Queued? {
          if Starts(deadline, tries[n]) {
            flushed, started := flushed + [item.id], started + [item.id];
          } else {
            skipped := skipped + [item.id];
          }
          n := n + 1;
        }
      }
      DrainEnds(ids, deadline, tries, n, started, skipped);
    }
  }

  // ----- Any number of threads -----

  /** Why a thread flushes one session after the other. */
  datatype Purpose = FlushAll | ShutdownFirst | Stop

  /** What a thread is to flush under a deadline, if it has one: the cached and retry-listed sessions
      `cached`, of `_flush_cached_before`, and after them the queue. */
  datatype Job = Job(until: Option<int>, why: Purpose, cached: seq<nat>)

  datatype Phase =
    | Idle
    | SaveWaiting(id: nat)                                // before `with self._async_thread_lock`
    | SaveEntered(id: nat)                                // holds the lock
    | SavePutting(id: nat)                                // saw that no shutdown began, still holds it
    | SaveInline(id: nat)                                 // goes on to `_flush_now`
    | StopWaiting(deadline: int, last: bool)              // about to raise the flag; `last`: not for the first time
    | StopEntered(deadline: int, last: bool)
    | Joining(deadline: int)
    | Flushing(job: Job)                                  // between two sessions
    | FlushWanted(id: nat, job: Job)                      // enters `_flush_session_before`
    | ClockRead(id: nat, job: Job, read: int)
    | LockWanted(id: nat, job: Job, lag: int, giveUp: int)

  /** A flush under a deadline that began `at`, `lag` being the time from its clock read to its wait. */
  datatype Start = Start(id: nat, deadline: int, lag: int, at: int)

  datatype State = State(
    queue: seq<Item>, shuttingDown: bool, lock: Option<nat>, now: int, phases: map<nat, Phase>,
    puts: seq<nat>, taken: seq<nat>, starts: seq<Start>, inline: seq<nat>, stopped: bool)

  datatype Action =
    | Tick(now: int)
    | SaveCall(t: nat, id: nat) | SaveLock(t: nat) | SaveCheck(t: nat) | SavePut(t: nat)
    | StopCall(t: nat, deadline: int) | ShutdownCall(t: nat, deadline: int)
    | StopLock(t: nat) | StopFlag(t: nat, cached: seq<nat>) | StopJoined(t: nat, alive: bool)
    | FlushAllCall(t: nat, until: Option<int>, cached: seq<nat>)
    | TakeCached(t: nat) | DrainTake(t: nat) | DrainEmpty(t: nat)
    | ReadClock(t: nat) | BeginWait(t: nat) | GotLock(t: nat) | GaveUp(t: nat)
    | WriterTake

  function PhaseOf(s: State, t: nat): Phase {
    if t in s.phases then s.phases[t] else Idle
  }

  predicate IsDraining(p: Phase) {
    p.Flushing? && p.job.cached == []
  }

  predicate Enabled(s: State, a: Action) {
    match a
    case Tick(now) => s.now <= now
    case SaveCall(t, _) => PhaseOf(s, t).Idle?
    case SaveLock(t) => PhaseOf(s, t).SaveWaiting? && s.lock.None?
    case SaveCheck(t) => PhaseOf(s, t).SaveEntered?
    case SavePut(t) => PhaseOf(s, t).SavePutting?
    case StopCall(t, _) => PhaseOf(s, t).Idle?
    case ShutdownCall(t, _) => PhaseOf(s, t).Idle?
    case StopLock(t) => PhaseOf(s, t).StopWaiting? && s.lock.None?
    case StopFlag(t, _) => PhaseOf(s, t).StopEntered?
    case StopJoined(t, _) => PhaseOf(s, t).Joining?
    case FlushAllCall(t, _, _) => PhaseOf(s, t).Idle?
    case TakeCached(t) => PhaseOf(s, t).Flushing? && PhaseOf(s, t).job.cached != []
    case DrainTake(t) => IsDraining(PhaseOf(s, t)) && s.queue != []
    case DrainEmpty(t) => IsDraining(PhaseOf(s, t)) && s.queue == []
    case ReadClock(t) => PhaseOf(s, t).FlushWanted?
    case BeginWait(t) => PhaseOf(s, t).ClockRead?
    case GotLock(t) => PhaseOf(s, t).LockWanted? && s.now <= PhaseOf(s, t).giveUp
    case GaveUp(t) => PhaseOf(s, t).LockWanted? && PhaseOf(s, t).giveUp <= s.now
    case WriterTake => s.queue != []
  }

  function Goto(s: State, t: nat, p: Phase): State {
    s.(phases := s.phases[t := p])
  }

  /** The head of the queue leaves it. */
  function Pop(s: State): State
    requires s.queue != []
  {
    s.(queue := s.queue[1..], taken := s.taken + Sessions(s.queue[..1]))
  }

  function Due(s: State, job: Job): int {
    if job.until.Some? then job.until.value else s.now
  }

  function Next(s: State, a: Action): State
    requires Enabled(s, a)
  {
    match a
    case Tick(now) => s.(now := now)
    case SaveCall(t, id) => Goto(s, t, SaveWaiting(id))
    case SaveLock(t) => Goto(s.(lock := Some(t)), t, SaveEntered(s.phases[t].id))
    case SaveCheck(t) =>
      var id := s.phases[t].id;
      if s.shuttingDown then Goto(s.(lock := None, inline := s.inline + [id]), t, SaveInline(id))
      else Goto(s, t, SavePutting(id))
    case SavePut(t) =>
      var id := s.phases[t].id;
      Goto(s.(queue := s.queue + [Queued(id)], puts := s.puts + [id], lock := None), t, Idle)
    case StopCall(t, deadline) => Goto(s, t, StopWaiting(deadline, true))
    case ShutdownCall(t, deadline) => Goto(s, t, StopWaiting(deadline, false))
    case StopLock(t) => Goto(s.(lock := Some(t)), t, StopEntered(s.phases[t].deadline, s.phases[t].last))
    case StopFlag(t, cached) =>
      var p := s.phases[t];
      Goto(s.(shuttingDown := true, lock := None), t,
           if p.last then Joining(p.deadline) else Flushing(Job(Some(p.deadline), ShutdownFirst, cached)))
    case StopJoined(t, alive) =>
      Goto(s.(queue := if alive then s.queue + [Sentinel] else s.queue), t,
           Flushing(Job(Some(s.phases[t].deadline), Stop, [])))
    case FlushAllCall(t, until, cached) => Goto(s, t, Flushing(Job(until, FlushAll, cached)))
    case TakeCached(t) =>
      var job := s.phases[t].job;
      Goto(s, t, FlushWanted(job.cached[0], job.(cached := job.cached[1..])))
    case DrainTake(t) =>
      var job := s.phases[t].job;
      if s.queue[0].Queued? then Goto(Pop(s), t, FlushWanted(s.queue[0].id, job)) else Pop(s)
    case DrainEmpty(t) =>
      var job := s.phases[t].job;
      (match job.why
       case FlushAll => Goto(s, t, Idle)
       case ShutdownFirst => Goto(s, t, StopWaiting(Due(s, job), true))
       case Stop => Goto(s.(stopped := true), t, Idle))
    case ReadClock(t) =>
      var p := s.phases[t];
      if p.job.until.Some? && s.now < p.job.until.value then Goto(s, t, ClockRead(p.id, p.job, s.now))
      else Goto(s, t, Flushing(p.job))
    case BeginWait(t) =>
      var p := s.phases[t];
      Goto(s, t, LockWanted(p.id, p.job, s.now - p.read, s.now + (Due(s, p.job) - p.read)))
    case GotLock(t) =>
      var p := s.phases[t];
      Goto(s.(starts := s.starts + [Start(p.id, Due(s, p.job), p.lag, s.now)]), t, Flushing(p.job))
    case GaveUp(t) => Goto(s, t, Flushing(s.phases[t].job))
    case WriterTake => Pop(s)
  }

  const EMPTY := State([], false, None, 0, map[], [], [], [], [], false)

  ghost predicate IsRun(s: State, actions: seq<Action>)
    decreases |actions|
  {
    actions == [] || (Enabled(s, actions[0]) && IsRun(Next(s, actions[0]), actions[1..]))
  }

  function After(s: State, actions: seq<Action>): State
    requires IsRun(s, actions)
    decreases |actions|
  {
    if actions == [] then s else After(Next(s, actions[0]), actions[1..])
  }

  predicate Stopping(why: Purpose) {
    !why.FlushAll?
  }

  ghost predicate PhaseOk(s: State, t: nat, p: Phase) {
    match p
    case SaveEntered(_) => s.lock == Some(t)
    case SavePutting(_) => s.lock == Some(t) && !s.shuttingDown
    case StopEntered(_, _) => s.lock == Some(t)
    case Joining(_) => s.shuttingDown
    case Flushing(job) => Stopping(job.why) ==> s.shuttingDown
    case FlushWanted(_, job) => Stopping(job.why) ==> s.shuttingDown
    case ClockRead(_, job, read) => (Stopping(job.why) ==> s.shuttingDown) && job.until.Some? && read <= s.now
    case LockWanted(_, job, lag, giveUp) =>
      (Stopping(job.why) ==> s.shuttingDown) && job.until.Some? && giveUp == job.until.value + lag && 0 <= lag
    case _ => true
  }

  ghost predicate Inv(s: State) {
    && (forall t :: t in s.phases ==> PhaseOk(s, t, s.phases[t]))
    && (s.stopped ==> s.shuttingDown && Sessions(s.queue) == [])
    && s.taken + Sessions(s.queue) == s.puts
    && (forall i :: 0 <= i < |s.starts| ==> 0 <= s.starts[i].lag && s.starts[i].at <= s.starts[i].deadline + s.starts[i].lag)
  }

  lemma PopKeepsInv(s: State)
    requires Inv(s) && s.queue != []
    ensures Inv(Pop(s))
  {
    assert s.queue == s.queue[..1] + s.queue[1..];
    SessionsOfConcat(s.queue[..1], s.queue[1..]);
  }

  lemma PutKeepsInv(s: State, t: nat)
    requires Inv(s) && Enabled(s, SavePut(t))
    ensures Inv(Next(s, SavePut(t)))
  {
    assert PhaseOk(s, t, s.phases[t]);
    SessionsOfConcat(s.queue, [Queued(s.phases[t].id)]);
  }

  lemma JoinKeepsInv(s: State, t: nat, alive: bool)
    requires Inv(s) && Enabled(s, StopJoined(t, alive))
    ensures Inv(Next(s, StopJoined(t, alive)))
  {
    assert PhaseOk(s, t, s.phases[t]);
    SessionsOfConcat(s.queue, [Sentinel]);
  }

  lemma TakeKeepsInv(s: State, t: nat)
    requires Inv(s) && Enabled(s, DrainTake(t))
    ensures Inv(Next(s, DrainTake(t)))
  {
    assert PhaseOk(s, t, s.phases[t]);
    PopKeepsInv(s);
  }

  lemma EmptyKeepsInv(s: State, t: nat)
    requires Inv(s) && Enabled(s, DrainEmpty(t))
    ensures Inv(Next(s, DrainEmpty(t)))
  {
    assert PhaseOk(s, t, s.phases[t]);
  }

  lemma LockKeepsInv(s: State, a: Action)
    requires Inv(s) && Enabled(s, a)
    requires a.SaveCall? || a.SaveLock? || a.SaveCheck? || a.StopCall? || a.ShutdownCall? || a.StopLock? || a.StopFlag?
    ensures Inv(Next(s, a))
  {
    assert a.t in s.phases ==> PhaseOk(s, a.t, s.phases[a.t]);
  }

  lemma TickKeepsInv(s: State, now: int)
    requires Inv(s) && Enabled(s, Tick(now))
    ensures Inv(Next(s, Tick(now)))
  {
    forall t | t in s.phases ensures PhaseOk(Next(s, Tick(now)), t, s.phases[t]) {
      assert PhaseOk(s, t, s.phases[t]);
    }
  }

  lemma ClockKeepsInv(s: State, a: Action)
    requires Inv(s) && Enabled(s, a) && (a.ReadClock? || a.BeginWait? || a.GaveUp?)
    ensures Inv(Next(s, a))
  {
    assert PhaseOk(s, a.t, s.phases[a.t]);
  }

  lemma FlushKeepsInv(s: State, a: Action)
    requires Inv(s) && Enabled(s, a) && (a.FlushAllCall? || a.TakeCached?)
    ensures Inv(Next(s, a))
  {
    assert a.t in s.phases ==> PhaseOk(s, a.t, s.phases[a.t]);
  }

  lemma StartKeepsInv(s: State, t: nat)
    requires Inv(s) && Enabled(s, GotLock(t))
    ensures Inv(Next(s, GotLock(t)))
  {
    assert PhaseOk(s, t, s.phases[t]);
  }

  lemma StepKeepsInv(s: State, a: Action)
    requires Inv(s) && Enabled(s, a)
    ensures Inv(Next(s, a))
  {
    match a
    case Tick(now) => TickKeepsInv(s, now);
    case SavePut(t) => PutKeepsInv(s, t);
    case StopJoined(t, alive) => JoinKeepsInv(s, t, alive);
    case DrainTake(t) => TakeKeepsInv(s, t);
    case DrainEmpty(t) => EmptyKeepsInv(s, t);
    case GotLock(t) => StartKeepsInv(s, t);
    case WriterTake => PopKeepsInv(s);
    case _ =>
      if a.FlushAllCall? || a.TakeCached? {
        FlushKeepsInv(s, a);
      } else if a.ReadClock? || a.BeginWait? || a.GaveUp? {
        ClockKeepsInv(s, a);
      } else {
        LockKeepsInv(s, a);
      }
  }

  lemma {:induction false} RunKeepsInv(s: State, actions: seq<Action>)
    requires Inv(s) && IsRun(s, actions)
    ensures Inv(After(s, actions))
    decreases |actions|
  {
    if actions != [] {
      StepKeepsInv(s, actions[0]);
      RunKeepsInv(Next(s, actions[0]), actions[1..]);
    }
  }

  /** Once a stop has returned, the queue holds no session, and no step of any thread can put one
      there: a save that enters the lock goes on inline. */
  lemma ClosedForGood(actions: seq<Action>, a: Action)
    requires IsRun(EMPTY, actions) && After(EMPTY, actions).stopped && Enabled(After(EMPTY, actions), a)
    ensures var s := After(EMPTY, actions);
      && Sessions(s.queue) == [] && Sessions(Next(s, a).queue) == []
      && Next(s, a).puts == s.puts
      && (a.SaveCheck? ==> Next(s, a).inline == s.inline + [s.phases[a.t].id])
  {
    RunKeepsInv(EMPTY, actions);
    StepKeepsInv(After(EMPTY, actions), a);
  }

  /** Sessions leave the queue in the order they were put, each once. */
  lemma TakenInOrder(actions: seq<Action>)
    requires IsRun(EMPTY, actions)
    ensures var s := After(EMPTY, actions); s.taken + Sessions(s.queue) == s.puts
    ensures var s := After(EMPTY, actions); s.stopped ==> s.taken == s.puts
  {
    RunKeepsInv(EMPTY, actions);
  }

  /** A flush under a deadline, of a cached or a queued session, starts before it, but for the time its
      thread spent between reading the clock and beginning to wait. */
  lemma NoLateStart(actions: seq<Action>, i: nat)
    requires IsRun(EMPTY, actions) && i < |After(EMPTY, actions).starts|
    ensures var start := After(EMPTY, actions).starts[i];
      0 <= start.lag && start.at <= start.deadline + start.lag
  {
    RunKeepsInv(EMPTY, actions);
  }

  /** Every start with this lag, in every run, is by its deadline. */
  ghost predicate RunsOnTime(lag: nat) {
    forall actions, i :: IsRun(EMPTY, actions) && 0 <= i < |After(EMPTY, actions).starts| ==>
      StartsBy(After(EMPTY, actions).starts[i], lag)
  }

  predicate StartsBy(start: Start, lag: nat) {
    start.lag == lag ==> start.at <= start.deadline
  }

  lemma OneMore(s: State, a: Action, rest: seq<Action>)
    requires Enabled(s, a) && IsRun(Next(s, a), rest)
    ensures IsRun(s, [a] + rest) && After(s, [a] + rest) == After(Next(s, a), rest)
  {
    assert ([a] + rest)[1..] == rest;
  }

  /** `flush_all` with a deadline of 10 and one cached session: the clock reads 9, the wait begins `lag`
      later, and the lock comes as the wait runs out. */
  function LateRun(lag: nat): seq<Action> {
    [FlushAllCall(0, Some(10), [7])] + ([TakeCached(0)] + ([Tick(9)] + ([ReadClock(0)] + ([Tick(9 + lag)]
      + ([BeginWait(0)] + ([Tick(10 + lag)] + ([GotLock(0)] + [])))))))
  }

  /** A run in which a flush starts as late as its lag allows. */
  lemma LateStart(lag: nat)
    ensures IsRun(EMPTY, LateRun(lag))
    ensures After(EMPTY, LateRun(lag)).starts == [Start(7, 10, lag, 10 + lag)]
  {
    var s3 := Next(Next(Next(EMPTY, FlushAllCall(0, Some(10), [7])), TakeCached(0)), Tick(9));
    var s4 := Next(s3, ReadClock(0));
    assert [7][1..] == [];
    assert s4.phases == map[0 := ClockRead(7, Job(Some(10), FlushAll, []), 9)];
    assert s4 == EMPTY.(now := 9, phases := map[0 := ClockRead(7, Job(Some(10), FlushAll, []), 9)]);
    LateStartEnds(s4, lag);
    LateStartBegins(s4, [Tick(9 + lag)] + ([BeginWait(0)] + ([Tick(10 + lag)] + ([GotLock(0)] + []))));
  }

  lemma LateStartEnds(s: State, lag: nat)
    requires s == EMPTY.(now := 9, phases := map[0 := ClockRead(7, Job(Some(10), FlushAll, []), 9)])
    ensures var rest := [Tick(9 + lag)] + ([BeginWait(0)] + ([Tick(10 + lag)] + ([GotLock(0)] + [])));
      IsRun(s, rest) && After(s, rest).starts == [Start(7, 10, lag, 10 + lag)]
  {
    var s5 := Next(s, Tick(9 + lag));
    var s6 := Next(s5, BeginWait(0));
    var s7 := Next(s6, Tick(10 + lag));
    OneMore(s7, GotLock(0), []);
    OneMore(s6, Tick(10 + lag), [GotLock(0)] + []);
    OneMore(s5, BeginWait(0), [Tick(10 + lag)] + ([GotLock(0)] + []));
    OneMore(s, Tick(9 + lag), [BeginWait(0)] + ([Tick(10 + lag)] + ([GotLock(0)] + [])));
  }

  lemma LateStartBegins(s: State, rest: seq<Action>)
    requires s == Next(Next(Next(Next(EMPTY, FlushAllCall(0, Some(10), [7])), TakeCached(0)), Tick(9)), ReadClock(0))
    requires IsRun(s, rest)
    ensures var all := [FlushAllCall(0, Some(10), [7])] + ([TakeCached(0)] + ([Tick(9)] + ([ReadClock(0)] + rest)));
      IsRun(EMPTY, all) && After(EMPTY, all) == After(s, rest)
  {
    var s1 := Next(EMPTY, FlushAllCall(0, Some(10), [7]));
    var s2 := Next(s1, TakeCached(0));
    var s3 := Next(s2, Tick(9));
    OneMore(s3, ReadClock(0), rest);
    OneMore(s2, Tick(9), [ReadClock(0)] + rest);
    OneMore(s1, TakeCached(0), [Tick(9)] + ([ReadClock(0)] + rest));
    OneMore(EMPTY, FlushAllCall(0, Some(10), [7]), [TakeCached(0)] + ([Tick(9)] + ([ReadClock(0)] + rest)));
  }

  /** Deadlines are kept in every run exactly by the starts without lag. */
  lemma RunsOnTimeIff(lag: nat)
    ensures RunsOnTime(lag) <==> lag == 0
  {
    if lag == 0 {
      forall actions, i | IsRun(EMPTY, actions) && 0 <= i < |After(EMPTY, actions).starts|
        ensures StartsBy(After(EMPTY, actions).starts[i], lag)
      {
        NoLateStart(actions, i);
      }
    } else {
      LateStart(lag);
      assert !StartsBy(After(EMPTY, LateRun(lag)).starts[0], lag);
    }
  }

  // ----- One thread undisturbed -----

  /** Some run goes from the one state to the other. */
  ghost predicate Leads(s: State, u: State) {
    exists actions :: IsRun(s, actions) && After(s, actions) == u
  }

  lemma LeadsNowhere(s: State)
    ensures Leads(s, s)
  {
    assert IsRun(s, []) && After(s, []) == s;
  }

  lemma {:induction false} RunsOn(s: State, actions: seq<Action>, a: Action)
    requires IsRun(s, actions) && Enabled(After(s, actions), a)
    ensures IsRun(s, actions + [a]) && After(s, actions + [a]) == Next(After(s, actions), a)
    decreases |actions|
  {
    if actions == [] {
      assert (actions + [a])[1..] == [];
    } else {
      RunsOn(Next(s, actions[0]), actions[1..], a);
      assert (actions + [a])[1..] == actions[1..] + [a];
    }
  }

  lemma Step(s: State, u: State, a: Action) returns (v: State)
    requires Leads(s, u) && Enabled(u, a)
    ensures v == Next(u, a) && Leads(s, v)
  {
    v := Next(u, a);
    var actions :| IsRun(s, actions) && After(s, actions) == u;
    RunsOn(s, actions, a);
  }

  /** A save that finds the writer lock free does what the class does: it enqueues its session before a
      shutdown, and afterwards goes on inline. */
  lemma UndisturbedSave(s: State, t: nat, id: nat) returns (u: State)
    requires PhaseOf(s, t).Idle? && s.lock.None?
    ensures Leads(s, u)
    ensures u == if s.shuttingDown then s.(inline := s.inline + [id], phases := s.phases[t := SaveInline(id)])
                 else s.(queue := s.queue + [Queued(id)], puts := s.puts + [id], phases := s.phases[t := Idle])
  {
    LeadsNowhere(s);
    u := Step(s, s, SaveCall(t, id));
    u := Step(s, u, SaveLock(t));
    u := Step(s, u, SaveCheck(t));
    if !s.shuttingDown {
      u := Step(s, u, SavePut(t));
    }
  }

  /** The flushes of the sessions at once, or of none once the deadline has come. */
  function Starting(ids: seq<nat>, deadline: int, now: int): seq<Start>
    decreases |ids|
  {
    if ids == [] || deadline <= now then []
    else [Start(ids[0], deadline, 0, now)] + Starting(ids[1..], deadline, now)
  }

  lemma FlushRun(s: State, u: State, t: nat, deadline: int) returns (v: State)
    requires Leads(s, u) && PhaseOf(u, t).FlushWanted? && u.phases[t].job.until == Some(deadline)
    ensures Leads(s, v)
    ensures var p := u.phases[t];
      v == u.(starts := u.starts + Starting([p.id], deadline, u.now), phases := u.phases[t := Flushing(p.job)])
  {
    var p := u.phases[t];
    v := Step(s, u, ReadClock(t));
    if u.now < deadline {
      v := Step(s, v, BeginWait(t));
      v := Step(s, v, GotLock(t));
      assert Starting([], deadline, u.now) == [];
      assert [p.id][1..] == [] && Starting([p.id], deadline, u.now) == [Start(p.id, deadline, 0, u.now)];
    } else {
      assert u.starts + [] == u.starts;
    }
  }

  lemma {:induction false} DrainRun(s: State, u: State, t: nat, deadline: int) returns (v: State)
    requires Leads(s, u) && IsDraining(PhaseOf(u, t)) && u.phases[t].job.until == Some(deadline)
    ensures Leads(s, v)
    ensures v == u.(queue := [], taken := u.taken + Sessions(u.queue),
                    starts := u.starts + Starting(Sessions(u.queue), deadline, u.now))
    decreases |u.queue|
  {
    v := u;
    if u.queue == [] {
      assert u.taken + [] == u.taken && u.starts + [] == u.starts;
    } else {
      var w := Step(s, u, DrainTake(t));
      if u.queue[0].Queued? {
        w := FlushRun(s, w, t, deadline);
        assert w.phases == u.phases;
      }
      TakenAll(u.taken, u.queue);
      StartedAll(u.starts, u.queue, deadline, u.now);
      v := DrainRun(s, w, t, deadline);
    }
  }

  lemma TakenAll(taken: seq<nat>, queue: seq<Item>)
    requires queue != []
    ensures (taken + Sessions(queue[..1])) + Sessions(queue[1..]) == taken + Sessions(queue)
  {
    assert queue == queue[..1] + queue[1..];
    SessionsOfConcat(queue[..1], queue[1..]);
    Associative(taken, Sessions(queue[..1]), Sessions(queue[1..]));
  }

  lemma StartedAll(starts: seq<Start>, queue: seq<Item>, deadline: int, now: int)
    requires queue != []
    ensures queue[0].Queued? ==>
      (starts + Starting([queue[0].id], deadline, now)) + Starting(Sessions(queue[1..]), deadline, now)
        == starts + Starting(Sessions(queue), deadline, now)
    ensures queue[0].Sentinel? ==> Sessions(queue) == Sessions(queue[1..])
  {
    if queue[0].Queued? {
      var ids := Sessions(queue);
      assert ids == [queue[0].id] + Sessions(queue[1..]);
      assert ids[1..] == Sessions(queue[1..]) && [queue[0].id][1..] == [];
      if deadline <= now {
        assert starts + [] == starts;
      } else {
        assert Starting([queue[0].id], deadline, now) == [Start(queue[0].id, deadline, 0, now)];
        Associative(starts, [Start(queue[0].id, deadline, 0, now)], Starting(Sessions(queue[1..]), deadline, now));
      }
    } else {
      assert [] + Sessions(queue[1..]) == Sessions(queue[1..]);
    }
  }

  lemma StopBegins(s: State, t: nat, deadline: int, alive: bool) returns (u: State)
    requires PhaseOf(s, t).Idle? && s.lock.None?
    ensures Leads(s, u)
    ensures u == s.(shuttingDown := true, queue := if alive then s.queue + [Sentinel] else s.queue,
                    phases := s.phases[t := Flushing(Job(Some(deadline), Stop, []))])
  {
    LeadsNowhere(s);
    u := Step(s, s, StopCall(t, deadline));
    u := Step(s, u, StopLock(t));
    u := Step(s, u, StopFlag(t, []));
    u := Step(s, u, StopJoined(t, alive));
  }

  /** A stop that nothing disturbs closes the queue, empties it, and flushes all that was in it if there is
      time left, as the class's drain does. */
  lemma UndisturbedStop(s: State, t: nat, deadline: int, alive: bool) returns (u: State)
    requires PhaseOf(s, t).Idle? && s.lock.None?
    ensures Leads(s, u) && u.shuttingDown && u.stopped && u.queue == [] && PhaseOf(u, t).Idle?
    ensures u.taken == s.taken + Sessions(s.queue)
    ensures u.starts == s.starts + Starting(Sessions(s.queue), deadline, s.now)
  {
    u := StopBegins(s, t, deadline, alive);
    SessionsOfConcat(s.queue, [Sentinel]);
    assert Sessions([Sentinel]) == [] && Sessions(s.queue) + [] == Sessions(s.queue);
    u := DrainRun(s, u, t, deadline);
    u := Step(s, u, DrainEmpty(t));
  }

  lemma {:induction false} CachedRun(s: State, u: State, t: nat, deadline: int) returns (v: State)
    requires Leads(s, u) && PhaseOf(u, t).Flushing? && u.phases[t].job.until == Some(deadline)
    ensures Leads(s, v)
    ensures var job := u.phases[t].job;
      v == u.(starts := u.starts + Starting(job.cached, deadline, u.now), phases := u.phases[t := Flushing(job.(cached := []))])
    decreases |PhaseOf(u, t).job.cached|
  {
    var job := u.phases[t].job;
    v := u;
    if job.cached == [] {
      assert u.starts + [] == u.starts && u.phases == u.phases[t := Flushing(job)];
    } else {
      var w := Step(s, u, TakeCached(t));
      w := FlushRun(s, w, t, deadline);
      StartedFirst(u.starts, job.cached, deadline, u.now);
      v := CachedRun(s, w, t, deadline);
    }
  }

  lemma StartedFirst(starts: seq<Start>, ids: seq<nat>, deadline: int, now: int)
    requires ids != []
    ensures (starts + Starting([ids[0]], deadline, now)) + Starting(ids[1..], deadline, now) == starts + Starting(ids, deadline, now)
  {
    assert [ids[0]][1..] == [];
    if deadline <= now {
      assert starts + [] == starts;
    } else {
      assert Starting([ids[0]], deadline, now) == [Start(ids[0], deadline, 0, now)];
      Associative(starts, [Start(ids[0], deadline, 0, now)], Starting(ids[1..], deadline, now));
    }
  }

  /** `flush_all` with a deadline and nothing to disturb it: the cached and retry-listed sessions are flushed
      and then the queue, all of it or, once the deadline has come, nothing. */
  lemma UndisturbedFlushAll(s: State, t: nat, deadline: int, cached: seq<nat>) returns (u: State)
    requires PhaseOf(s, t).Idle?
    ensures Leads(s, u)
    ensures u == s.(queue := [], taken := s.taken + Sessions(s.queue), phases := s.phases[t := Idle],
                    starts := (s.starts + Starting(cached, deadline, s.now)) + Starting(Sessions(s.queue), deadline, s.now))
  {
    LeadsNowhere(s);
    u := Step(s, s, FlushAllCall(t, Some(deadline), cached));
    u := CachedRun(s, u, t, deadline);
    u := DrainRun(s, u, t, deadline);
    u := Step(s, u, DrainEmpty(t));
  }

  lemma ShutdownBegins(s: State, t: nat, deadline: int, cached: seq<nat>) returns (u: State)
    requires PhaseOf(s, t).Idle? && s.lock.None?
    ensures Leads(s, u)
    ensures u == s.(shuttingDown := true, phases := s.phases[t := Flushing(Job(Some(deadline), ShutdownFirst, cached))])
  {
    LeadsNowhere(s);
    u := Step(s, s, ShutdownCall(t, deadline));
    u := Step(s, u, StopLock(t));
    u := Step(s, u, StopFlag(t, cached));
  }

  lemma JoinRun(s: State, u: State, t: nat, deadline: int, alive: bool) returns (v: State)
    requires Leads(s, u) && PhaseOf(u, t) == StopWaiting(deadline, true) && u.lock.None? && u.queue == []
    ensures Leads(s, v)
    ensures v == u.(shuttingDown := true, queue := if alive then [Sentinel] else [],
                    phases := u.phases[t := Flushing(Job(Some(deadline), Stop, []))])
  {
    v := Step(s, u, StopLock(t));
    v := Step(s, v, StopFlag(t, []));
    v := Step(s, v, StopJoined(t, alive));
    assert [] + [Sentinel] == [Sentinel];
  }

  lemma LastStop(s: State, u: State, t: nat, deadline: int, alive: bool) returns (v: State)
    requires Leads(s, u) && PhaseOf(u, t) == StopWaiting(deadline, true) && u.lock.None? && u.queue == []
    ensures Leads(s, v)
    ensures v == u.(shuttingDown := true, stopped := true, phases := u.phases[t := Idle])
  {
    v := JoinRun(s, u, t, deadline, alive);
    assert Sessions([Sentinel]) == [];
    v := DrainRun(s, v, t, deadline);
    assert u.taken + [] == u.taken && u.starts + [] == u.starts;
    v := Step(s, v, DrainEmpty(t));
  }

  /** A shutdown alone closes the queue first, flushes the cached sessions and the queue as far as its one
      deadline allows, and then stops the writer. */
  lemma UndisturbedShutdown(s: State, t: nat, deadline: int, cached: seq<nat>, alive: bool) returns (u: State)
    requires PhaseOf(s, t).Idle? && s.lock.None?
    ensures Leads(s, u)
    ensures u == s.(shuttingDown := true, stopped := true, queue := [], taken := s.taken + Sessions(s.queue),
                    phases := s.phases[t := Idle],
                    starts := (s.starts + Starting(cached, deadline, s.now)) + Starting(Sessions(s.queue), deadline, s.now))
  {
    u := ShutdownBegins(s, t, deadline, cached);
    u := CachedRun(s, u, t, deadline);
    u := DrainRun(s, u, t, deadline);
    u := Step(s, u, DrainEmpty(t));
    u := LastStop(s, u, t, deadline, alive);
  }
}
