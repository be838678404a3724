/**
 Polling the token endpoint of the device flow, section 3.5 of RFC 8628
 (`poll_for_token` of hermes-plugin-honcho/oauth_flow.py).
 Times are whole nanoseconds: every sleep may overshoot and every request may take a while.
 */
module DevicePoll {

  const SLOW_DOWN_STEP := 5
  const POLL_INTERVAL_CAP := 60

  /** A reply; the `error` of a status other than 200 is one of the last three. */
  datatype Reply =
    | TransportError
    | Granted(hasToken: bool)
    | AuthorizationPending
    | SlowDown
    | Error(code: string)

  /** One pass of the loop: how far the sleep overshot, how long the request took, what it brought. */
  datatype Round = Round(overshoot: nat, latency: nat, reply: Reply)

  datatype Outcome =
    | Token
    | Malformed
    | Refused(code: string)
    | TimedOut

  /** A poll: when it was sent, the interval slept before it, and the pass of the loop it belongs to. */
  datatype Poll = Poll(at: int, interval: int, round: Round)

  function Seconds(n: int): int { 1_000_000_000 * n }
  function Min(a: int, b: int): int { if a < b then a else b }
  function Max(a: int, b: int): int { if a < b then b else a }

  function FirstInterval(requested: int): int {
    Max(1, Min(requested, POLL_INTERVAL_CAP))
  }

  function Lifetime(expiresIn: int): int {
    Max(1, expiresIn)
  }

  /** The replies after which the loop goes on. */
  predicate Undecided(r: Reply) {
    r.TransportError? || r.SlowDown? || r.AuthorizationPending?
  }

  /** The slow_down replies to the first `n` polls. */
  function SlowDowns(polls: seq<Poll>, n: nat): nat
    requires n <= |polls|
  {
    if n == 0 then 0 else SlowDowns(polls, n - 1) + if polls[n - 1].round.reply.SlowDown? then 1 else 0
  }

  /** The interval section 3.5 asks for after `k` slow_down replies, under the cap. */
  function IntervalAfter(requested: int, k: nat): int {
    Min(POLL_INTERVAL_CAP, FirstInterval(requested) + SLOW_DOWN_STEP * k)
  }

  predicate OnInterval(polls: seq<Poll>, requested: int, i: nat)
    requires i < |polls|
  {
    polls[i].interval == IntervalAfter(requested, SlowDowns(polls, i))
  }

  /** Intervals follow the slow_down replies, and every poll waits out its own after the one before. */
  ghost predicate Spaced(polls: seq<Poll>, requested: int, start: int) {
    && (forall i :: 0 <= i < |polls| ==> OnInterval(polls, requested, i))
    && (0 < |polls| ==> polls[0].at >= start + Seconds(polls[0].interval))
    && forall i, j :: 0 <= i < j < |polls| ==> polls[j].at >= polls[i].at + Seconds(polls[j].interval)
  }

  /** When the loop looks at the clock before its poll `i`. */
  function Checked(polls: seq<Poll>, start: int, i: nat): int
    requires i <= |polls|
  {
    if i == 0 then start else polls[i - 1].at + polls[i - 1].round.latency
  }

  /** What is left before the deadline, at that time, beyond the interval about to be slept. */
  function Slack(polls: seq<Poll>, start: int, deadline: int, i: nat): int
    requires i < |polls|
  {
    deadline - (Checked(polls, start, i) + Seconds(polls[i].interval))
  }

  /** Poll `i` is sent once its interval is slept, with time left for that. */
  predicate OnClock(polls: seq<Poll>, start: int, deadline: int, i: nat)
    requires i < |polls|
  {
    && 0 < Slack(polls, start, deadline, i)
    && polls[i].at == Checked(polls, start, i) + Seconds(polls[i].interval) + polls[i].round.overshoot
  }

  ghost predicate Timed(polls: seq<Poll>, start: int, deadline: int) {
    forall i :: 0 <= i < |polls| ==> OnClock(polls, start, deadline, i)
  }

  lemma TimedNext(polls: seq<Poll>, start: int, deadline: int, poll: Poll)
    requires Timed(polls, start, deadline)
    requires Checked(polls, start, |polls|) + Seconds(poll.interval) < deadline
    requires poll.at == Checked(polls, start, |polls|) + Seconds(poll.interval) + poll.round.overshoot
    ensures Timed(polls + [poll], start, deadline)
  {
    var more := polls + [poll];
    forall i | 0 <= i < |more| ensures OnClock(more, start, deadline, i) {
      assert Checked(more, start, i) == Checked(polls, start, i);
      assert i < |polls| ==> OnClock(polls, start, deadline, i);
    }
  }

  lemma {:induction false} SlowDownsOfPrefix(polls: seq<Poll>, poll: Poll, n: nat)
    requires n <= |polls|
    ensures SlowDowns(polls + [poll], n) == SlowDowns(polls, n)
  {
    if 0 < n {
      SlowDownsOfPrefix(polls, poll, n - 1);
    }
  }

  lemma IntervalsNext(polls: seq<Poll>, requested: int, poll: Poll, i: nat)
    requires i < |polls| ==> OnInterval(polls, requested, i)
    requires poll.interval == IntervalAfter(requested, SlowDowns(polls, |polls|)) && i <= |polls|
    ensures OnInterval(polls + [poll], requested, i)
  {
    SlowDownsOfPrefix(polls, poll, i);
  }

  lemma GapsNext(polls: seq<Poll>, poll: Poll, i: nat, j: nat)
    requires forall k, l :: 0 <= k < l < |polls| ==> polls[l].at >= polls[k].at + Seconds(polls[l].interval)
    requires polls != [] && poll.at >= polls[|polls| - 1].at + Seconds(poll.interval)
    requires i < j <= |polls| && 0 <= Seconds(polls[|polls| - 1].interval)
    ensures (polls + [poll])[j].at >= (polls + [poll])[i].at + Seconds((polls + [poll])[j].interval)
  {
    var last := |polls| - 1;
    assert i < last ==> polls[last].at >= polls[i].at + Seconds(polls[last].interval);
  }

  lemma SpacedNext(polls: seq<Poll>, requested: int, start: int, poll: Poll)
    requires Spaced(polls, requested, start)
    requires poll.interval == IntervalAfter(requested, SlowDowns(polls, |polls|))
    requires poll.at >= (if polls == [] then start else polls[|polls| - 1].at) + Seconds(poll.interval)
    ensures Spaced(polls + [poll], requested, start)
  {
    var more := polls + [poll];
    forall i | 0 <= i < |more| ensures OnInterval(more, requested, i) {
      IntervalsNext(polls, requested, poll, i);
    }
    forall i, j | 0 <= i < j < |more| ensures more[j].at >= more[i].at + Seconds(more[j].interval) {
      assert OnInterval(polls, requested, |polls| - 1);
      GapsNext(polls, poll, i, j);
    }
  }

  /** What a reply that ends the loop decides. */
  function Decide(r: Reply): Outcome
    requires !Undecided(r)
  {
    match r
    case Granted(hasToken) => if hasToken then Token else Malformed
    case Error(code) => Refused(code)
  }

  /** The polls keep to the schedule, and there are fewer of them than seconds in the lifetime. */
  ghost predicate Scheduled(polls: seq<Poll>, requested: int, expiresIn: int, start: int) {
    && |polls| < Lifetime(expiresIn)
    && Spaced(polls, requested, start) && Timed(polls, start, start + Seconds(Lifetime(expiresIn)))
  }

  ghost predicate AllUndecided(polls: seq<Poll>) {
    forall i :: 0 <= i < |polls| ==> Undecided(polls[i].round.reply)
  }

  /** When the loop is ready for its next pass, all replies so far having been undecided. */
  ghost predicate Ready(polls: seq<Poll>, requested: int, start: int, interval: int, now: int) {
    && interval == IntervalAfter(requested, SlowDowns(polls, |polls|))
    && now == Checked(polls, start, |polls|)
    && start + Seconds(|polls|) <= now
    && AllUndecided(polls)
  }

  /** The end of the call: the last reply decides, or there is no time for another interval. */
  ghost predicate Ends(outcome: Outcome, polls: seq<Poll>, requested: int, expiresIn: int, start: int) {
    if outcome.TimedOut? then
      exists interval, now ::
        Ready(polls, requested, start, interval, now) && now + Seconds(interval) >= start + Seconds(Lifetime(expiresIn))
    else
      && polls != [] && !Undecided(polls[|polls| - 1].round.reply) && outcome == Decide(polls[|polls| - 1].round.reply)
      && AllUndecided(polls[..|polls| - 1])
  }

  /** The polls belong to the first passes of the loop. */
  ghost predicate PassesOf(polls: seq<Poll>, world: seq<Round>) {
    |polls| <= |world| && forall i :: 0 <= i < |polls| ==> polls[i].round == world[i]
  }

  datatype Call = Call(requested: int, expiresIn: int, start: int, world: seq<Round>)

  function Deadline(call: Call): int {
    call.start + Seconds(Lifetime(call.expiresIn))
  }

  /** The invariant of the loop. */
  ghost predicate Polling(call: Call, polls: seq<Poll>, interval: int, now: int) {
    && Scheduled(polls, call.requested, call.expiresIn, call.start) && PassesOf(polls, call.world)
    && Ready(polls, call.requested, call.start, interval, now)
  }

  /** The result of the call. */
  ghost predicate Polled(call: Call, polls: seq<Poll>, outcome: Outcome) {
    && Scheduled(polls, call.requested, call.expiresIn, call.start) && PassesOf(polls, call.world)
    && Ends(outcome, polls, call.requested, call.expiresIn, call.start)
  }

  lemma ScheduledNext(call: Call, polls: seq<Poll>, interval: int, now: int, poll: Poll)
    requires Polling(call, polls, interval, now) && |polls| < |call.world| && poll.round == call.world[|polls|]
    requires now + Seconds(interval) < call.start + Seconds(Lifetime(call.expiresIn))
    requires poll.at == now + Seconds(interval) + poll.round.overshoot && poll.interval == interval
    ensures Scheduled(polls + [poll], call.requested, call.expiresIn, call.start)
    ensures PassesOf(polls + [poll], call.world)
  {
    SpacedNext(polls, call.requested, call.start, poll);
    TimedNext(polls, call.start, Deadline(call), poll);
  }

  lemma ReadyNext(polls: seq<Poll>, requested: int, start: int, interval: int, now: int, poll: Poll)
    requires Ready(polls, requested, start, interval, now) && Undecided(poll.round.reply)
    requires poll.at >= now + Seconds(1)
    ensures Ready(polls + [poll], requested, start,
                  if poll.round.reply.SlowDown? then Min(interval + SLOW_DOWN_STEP, POLL_INTERVAL_CAP) else interval,
                  poll.at + poll.round.latency)
  {
    SlowDownsOfPrefix(polls, poll, |polls|);
  }

  lemma NextPoll(call: Call, polls: seq<Poll>, interval: int, now: int, poll: Poll)
    requires Polling(call, polls, interval, now) && |polls| < |call.world| && poll.round == call.world[|polls|]
    requires now + Seconds(interval) < call.start + Seconds(Lifetime(call.expiresIn))
    requires poll.at == now + Seconds(interval) + poll.round.overshoot && poll.interval == interval
    ensures Undecided(poll.round.reply) ==>
      Polling(call, polls + [poll],
              if poll.round.reply.SlowDown? then Min(interval + SLOW_DOWN_STEP, POLL_INTERVAL_CAP) else interval,
              poll.at + poll.round.latency)
    ensures !Undecided(poll.round.reply) ==> Polled(call, polls + [poll], Decide(poll.round.reply))
  {
    ScheduledNext(call, polls, interval, now, poll);
    if Undecided(poll.round.reply) {
      ReadyNext(polls, call.requested, call.start, interval, now, poll);
    } else {
      assert (polls + [poll])[..|polls|] == polls;
    }
  }

  /** Each poll in numbers: when the clock is read before it an interval is left before the deadline, it is
      sent when that is slept, and the interval grows by 5 seconds after a slow_down, to 60 at most. */
  lemma PollIs(call: Call, polls: seq<Poll>, outcome: Outcome, i: nat)
    requires Polled(call, polls, outcome) && i < |polls|
    ensures var p := polls[i];
      var ready := if i == 0 then call.start else polls[i - 1].at + polls[i - 1].round.latency;
      && p.round == call.world[i]
      && ready + 1_000_000_000 * p.interval < call.start + 1_000_000_000 * (if 1 < call.expiresIn then call.expiresIn else 1)
      && p.at == ready + 1_000_000_000 * p.interval + p.round.overshoot
      && p.interval ==
        if i == 0 then if call.requested < 1 then 1 else if 60 < call.requested then 60 else call.requested
        else if polls[i - 1].round.reply.SlowDown? then
          if 55 < polls[i - 1].interval then 60 else polls[i - 1].interval + 5
        else polls[i - 1].interval
  {
    assert OnClock(polls, call.start, Deadline(call), i) && OnInterval(polls, call.requested, i);
    assert 0 < i ==> OnInterval(polls, call.requested, i - 1);
  }

  /** What the outcome says of the replies, and of the time left. */
  lemma OutcomeIs(call: Call, polls: seq<Poll>, outcome: Outcome)
    requires Polled(call, polls, outcome)
    ensures outcome.TimedOut? <==> forall i :: 0 <= i < |polls| ==>
      var r := polls[i].round.reply; r.TransportError? || r.SlowDown? || r.AuthorizationPending?
    ensures forall i :: 0 <= i < |polls| - 1 ==>
      var r := polls[i].round.reply; r.TransportError? || r.SlowDown? || r.AuthorizationPending?
    ensures outcome == Token <==> polls != [] && polls[|polls| - 1].round.reply == Granted(true)
    ensures outcome == Malformed <==> polls != [] && polls[|polls| - 1].round.reply == Granted(false)
    ensures forall code :: outcome == Refused(code) <==> polls != [] && polls[|polls| - 1].round.reply == Error(code)
  {
    if !outcome.TimedOut? {
      assert forall i :: 0 <= i < |polls| - 1 ==> polls[i] == polls[..|polls| - 1][i];
      assert !Undecided(polls[|polls| - 1].round.reply);
    } else if polls != [] {
      assert Undecided(polls[|polls| - 1].round.reply);
    }
  }

  /** A call that times out has no room for another interval. */
  lemma TimedOutIs(call: Call, polls: seq<Poll>)
    requires Polled(call, polls, TimedOut)
    ensures var n := |polls|;
      var ready := if n == 0 then call.start else polls[n - 1].at + polls[n - 1].round.latency;
      var interval :=
        if n == 0 then if call.requested < 1 then 1 else if 60 < call.requested then 60 else call.requested
        else if polls[n - 1].round.reply.SlowDown? then if 55 < polls[n - 1].interval then 60 else polls[n - 1].interval + 5
        else polls[n - 1].interval;
      call.start + 1_000_000_000 * (if 1 < call.expiresIn then call.expiresIn else 1) <= ready + 1_000_000_000 * interval
  {
    assert polls != [] ==> OnInterval(polls, call.requested, |polls| - 1);
  }

  /** `poll_for_token`; `world[i]` is the i-th pass of the loop, and there are never more than fit the lifetime. */
  method PollForToken(requested: int, expiresIn: int, start: int, world: seq<Round>)
    returns (outcome: Outcome, polls: seq<Poll>)
    requires Lifetime(expiresIn) <= |world|
    ensures Polled(Call(requested, expiresIn, start, world), polls, outcome)
    ensures outcome == Token <==> polls != [] && polls[|polls| - 1].round.reply == Granted(true)
    ensures outcome == Malformed <==> polls != [] && polls[|polls| - 1].round.reply == Granted(false)
    ensures forall code :: outcome == Refused(code) <==> polls != [] && polls[|polls| - 1].round.reply == Error(code)
    ensures outcome == TimedOut <==> forall i :: 0 <= i < |polls| ==>
      var r := polls[i].round.reply; r.TransportError? || r.SlowDown? || r.AuthorizationPending?
  {
    ghost var call := Call(requested, expiresIn, start, world);
    var interval := FirstInterval(requested);
    var deadline := start + Seconds(Lifetime(expiresIn));
    var now := start;
    polls := [];
    while true
      invariant Polling(call, polls, interval, now)
      decreases Lifetime(expiresIn) - |polls|
    {
      if now + Seconds(interval) >= deadline {
        OutcomeIs(call, polls, TimedOut);
        return TimedOut, polls;
      }
      var round := world[|polls|];
      var poll := Poll(now + Seconds(interval) + round.overshoot, interval, round);
      NextPoll(call, polls, interval, now, poll);
      now := poll.at + round.latency;
      polls := polls + [poll];
      if !Undecided(round.reply) {
        OutcomeIs(call, polls, Decide(round.reply));
        return Decide(round.reply), polls;
      }
      if round.reply.SlowDown? {
        interval := Min(interval + SLOW_DOWN_STEP, POLL_INTERVAL_CAP);
      }
    }
  }

  lemma {:induction false} SlowDownsGrow(polls: seq<Poll>, i: nat, j: nat)
    requires i <= j <= |polls|
    ensures SlowDowns(polls, i) <= SlowDowns(polls, j)
  {
    if i < j {
      SlowDownsGrow(polls, i, j - 1);
    }
  }

  /** The interval never shrinks and stays between 1 and 60 seconds. */
  lemma IntervalsGrow(polls: seq<Poll>, requested: int, start: int, i: nat, j: nat)
    requires Spaced(polls, requested, start) && i <= j < |polls|
    ensures 1 <= polls[i].interval <= polls[j].interval <= POLL_INTERVAL_CAP
  {
    SlowDownsGrow(polls, i, j);
    assert OnInterval(polls, requested, i) && OnInterval(polls, requested, j);
  }

  // ----- The result is determined -----

  lemma {:induction false} SlowDownsAgree(p: seq<Poll>, q: seq<Poll>, n: nat)
    requires n <= |p| && n <= |q| && p[..n] == q[..n]
    ensures SlowDowns(p, n) == SlowDowns(q, n)
  {
    if 0 < n {
      assert p[..n - 1] == p[..n][..n - 1] == q[..n][..n - 1] == q[..n - 1];
      assert p[n - 1] == p[..n][n - 1] == q[..n][n - 1] == q[n - 1];
      SlowDownsAgree(p, q, n - 1);
    }
  }

  /** Two results of one call agree as far as both go. */
  lemma {:induction false} PollsAgree(call: Call, p: seq<Poll>, o: Outcome, q: seq<Poll>, r: Outcome, n: nat)
    requires Polled(call, p, o) && Polled(call, q, r) && n <= |p| && n <= |q|
    ensures p[..n] == q[..n]
  {
    if 0 < n {
      var k := n - 1;
      PollsAgree(call, p, o, q, r, k);
      SlowDownsAgree(p, q, k);
      assert OnInterval(p, call.requested, k) && OnInterval(q, call.requested, k);
      assert OnClock(p, call.start, Deadline(call), k) && OnClock(q, call.start, Deadline(call), k);
      assert 0 < k ==> p[k - 1] == p[..k][k - 1] == q[..k][k - 1] == q[k - 1];
      assert p[k] == q[k];
      assert p[..n] == p[..k] + [p[k]] && q[..n] == q[..k] + [q[k]];
    }
  }

  /** After the first `n` polls the loop goes on: the last reply is undecided, and there is time for one more. */
  predicate GoesOn(call: Call, polls: seq<Poll>, n: nat)
    requires n <= |polls|
  {
    && (0 < n ==> Undecided(polls[n - 1].round.reply))
    && Checked(polls, call.start, n) + Seconds(IntervalAfter(call.requested, SlowDowns(polls, n))) < Deadline(call)
  }

  lemma GoesOnIff(call: Call, polls: seq<Poll>, outcome: Outcome, n: nat)
    requires Polled(call, polls, outcome) && n <= |polls|
    ensures GoesOn(call, polls, n) <==> n < |polls|
  {
    if n < |polls| {
      assert OnClock(polls, call.start, Deadline(call), n) && OnInterval(polls, call.requested, n);
      if 0 < n && !outcome.TimedOut? {
        assert polls[..|polls| - 1][n - 1] == polls[n - 1];
      }
    }
  }

  lemma GoesOnAgrees(call: Call, p: seq<Poll>, q: seq<Poll>, n: nat)
    requires n <= |p| && n <= |q| && p[..n] == q[..n]
    ensures GoesOn(call, p, n) <==> GoesOn(call, q, n)
  {
    SlowDownsAgree(p, q, n);
    if 0 < n {
      assert p[n - 1] == p[..n][n - 1] == q[..n][n - 1] == q[n - 1];
    }
  }

  /** The world determines the polls and the outcome. */
  lemma PolledIsUnique(call: Call, p: seq<Poll>, o: Outcome, q: seq<Poll>, r: Outcome)
    requires Polled(call, p, o) && Polled(call, q, r)
    ensures p == q && o == r
  {
    var n := if |p| < |q| then |p| else |q|;
    PollsAgree(call, p, o, q, r, n);
    GoesOnAgrees(call, p, q, n);
    GoesOnIff(call, p, o, n);
    GoesOnIff(call, q, r, n);
    assert |p| == |q| && p == p[..n] == q[..n] == q;
  }

  // ----- Late polls -----

  /** A poll is sent before the deadline exactly when its sleep overshoots by less than the slack there
      was, which is never nothing. */
  lemma PollIsInTimeIff(call: Call, polls: seq<Poll>, outcome: Outcome, i: nat)
    requires Polled(call, polls, outcome) && i < |polls|
    ensures 0 < Slack(polls, call.start, Deadline(call), i)
    ensures polls[i].at < Deadline(call) <==> polls[i].round.overshoot < Slack(polls, call.start, Deadline(call), i)
  {
    assert OnClock(polls, call.start, Deadline(call), i);
  }

  /** Whatever the replies and latencies, sleeps that overshoot by `most` at most keep the deadline. */
  ghost predicate KeepsDeadline(most: nat) {
    forall call: Call, polls: seq<Poll>, outcome: Outcome :: Polled(call, polls, outcome) && Within(call.world, most) ==>
      AllInTime(polls, Deadline(call))
  }

  ghost predicate Within(world: seq<Round>, most: nat) {
    forall i :: 0 <= i < |world| ==> world[i].overshoot <= most
  }

  ghost predicate AllInTime(polls: seq<Poll>, deadline: int) {
    forall i :: 0 <= i < |polls| ==> polls[i].at < deadline
  }

  /** The first reply takes until a nanosecond before the last moment to start another interval, and
      that interval's sleep overshoots by `over`. */
  function LateCall(over: nat): Call {
    Call(1, 3, 0, [Round(0, 999_999_999, AuthorizationPending), Round(over, 0, Granted(true)), Round(0, 0, Granted(true))])
  }

  function LatePolls(over: nat): seq<Poll> {
    [Poll(1_000_000_000, 1, LateCall(over).world[0]), Poll(2_999_999_999 + over, 1, LateCall(over).world[1])]
  }

  /** A call whose second poll is sent at the deadline or after it. */
  lemma LatePoll(over: nat)
    requires 1 <= over
    ensures Polled(LateCall(over), LatePolls(over), Token)
    ensures Within(LateCall(over).world, over) && Deadline(LateCall(over)) <= LatePolls(over)[1].at
  {
    var call, polls := LateCall(over), LatePolls(over);
    var first, world := [polls[0]], call.world;
    assert Polling(call, [], 1, 0);
    NextPoll(call, [], 1, 0, polls[0]);
    assert [] + [polls[0]] == first;
    assert Polling(call, first, 1, 1_999_999_999);
    NextPoll(call, first, 1, 1_999_999_999, polls[1]);
    assert first + [polls[1]] == polls;
  }

  /** Only sleeps that never overshoot keep the deadline in every world. */
  lemma DeadlineKeptIff(most: nat)
    ensures KeepsDeadline(most) <==> most == 0
  {
    if most == 0 {
      forall call: Call, polls: seq<Poll>, outcome: Outcome | Polled(call, polls, outcome) && Within(call.world, most)
        ensures AllInTime(polls, Deadline(call))
      {
        forall i | 0 <= i < |polls| ensures polls[i].at < Deadline(call) {
          PollIsInTimeIff(call, polls, outcome, i);
          assert polls[i].round == call.world[i];
        }
      }
    } else {
      LatePoll(most);
      assert !AllInTime(LatePolls(most), Deadline(LateCall(most)));
    }
  }
}
