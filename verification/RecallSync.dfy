/**
 Synchronous recall and its backoff (hermes-plugin-honcho/recall_sync.py, with `_effective_cadence` of
 dialectic.py and the turn hooks of __init__.py).

 The class is one call as its thread runs it.  The state machine interleaves any number of calls with
 their workers, turn starts, session switches and explicit reasoning calls.  Turn numbers and the clock
 never go back.  With synchronous recall on, nothing else writes the cadence fields.
 */
module RecallSync {
  import opened Wrappers

  const NEVER := -999
  const BACKOFF_MAX := 8

  /** `_effective_cadence`. */
  function EffectiveCadence(cadence: nat, streak: nat): nat {
    if 0 < streak then if cadence + streak < cadence * BACKOFF_MAX then cadence + streak else cadence * BACKOFF_MAX
    else cadence
  }

  /** The backoff grows by a turn with every empty result, up to eight times the cadence. */
  lemma CadenceIs(cadence: nat, streak: nat)
    requires 1 <= cadence
    ensures var e := EffectiveCadence(cadence, streak);
      && e == (if cadence + streak <= 8 * cadence then cadence + streak else 8 * cadence)
      && cadence <= e <= EffectiveCadence(cadence, streak + 1) <= 8 * cadence
  {}

  datatype Settings = Settings(contextCadence: int, cadence: nat, firstTurnOnly: bool)

  predicate ContextDue(c: Settings, turn: int, lastContext: int) {
    !(c.firstTurnOnly && 1 < turn) && c.contextCadence <= turn - lastContext
  }

  predicate DialecticDue(c: Settings, turn: int, lastDialectic: int, streak: nat) {
    EffectiveCadence(c.cadence, streak) <= turn - lastDialectic
  }

  /** What a worker leaves behind: whether the dialectic text was empty. */
  datatype Found = Found(empty: bool)

  /** A recall under way: its generation, and what it read when it began.  `session` stands for the
      session key and the manager together. */
  datatype Call = Call(generation: nat, session: nat, turn: int, deadline: int)

  class Provider {
    const settings: Settings
    var turnCount: int
    var session: nat
    var generation: nat
    var workerAlive: bool
    var lastContextTurn: int
    var lastDialecticTurn: int
    var emptyStreak: nat

    constructor (c: Settings)
      ensures settings == c && lastContextTurn == NEVER == lastDialecticTurn && emptyStreak == 0
    {
      settings := c;
      turnCount, session, generation, workerAlive := 0, 0, 0, false;
      lastContextTurn, lastDialecticTurn, emptyStreak := NEVER, NEVER, 0;
    }

    /** Nothing superseded the call and its time is not up. */
    predicate IsLive(call: Call, now: int)
      reads this
    {
      call.generation == generation && call.session == session && call.turn == turnCount && now < call.deadline
    }

    /** `on_turn_start` supersedes every recall under way. */
    method OnTurnStart(turn: int)
      modifies this`turnCount, this`generation
      ensures turnCount == turn && old(generation) < generation
      ensures forall call: Call, now: int :: call.generation <= old(generation) ==> !IsLive(call, now)
    {
      generation := generation + 1;
      turnCount := turn;
    }

    /** `on_session_switch`, and the start of a session or a shutdown. */
    method OnSessionSwitch()
      modifies this`generation
      ensures old(generation) < generation
      ensures forall call: Call, now: int :: call.generation <= old(generation) ==> !IsLive(call, now)
    {
      generation := generation + 1;
    }

    /** An explicit reasoning call that succeeds: the next automatic lookup is a whole cadence away. */
    method ToolReasoning()
      modifies this`lastDialecticTurn
      ensures lastDialecticTurn == turnCount
      ensures forall turn: int :: DialecticDue(settings, turn, lastDialecticTurn, emptyStreak) ==>
        turnCount + settings.cadence <= turn
    {
      lastDialecticTurn := turnCount;
    }

    /** `prefetch_sync` once it has the slot, up to its generation and the turn it is for. */
    method BeginRecall(now: int, budget: nat) returns (call: Option<Call>)
      modifies this`generation
      ensures call.None? <==> workerAlive
      ensures call.None? ==> generation == old(generation)
      ensures call.Some? ==> forall t: int :: IsLive(call.value, t) <==> t < now + budget
      ensures call.Some? ==> forall other: Call, t: int :: other.generation <= old(generation) ==> !IsLive(other, t)
    {
      if workerAlive {
        return None;
      }
      generation := generation + 1;
      call := Some(Call(generation, session, turnCount, now + budget));
    }

    /** What the call is to look up, decided before its worker starts. */
    method Decide(call: Call, now: int) returns (context: bool, dialectic: bool)
      ensures var live := call.generation == generation && call.session == session && call.turn == turnCount && now < call.deadline;
        && context == (live && (settings.firstTurnOnly ==> call.turn <= 1)
                       && lastContextTurn + settings.contextCadence <= call.turn)
        && dialectic == (live && (lastDialecticTurn + settings.cadence + emptyStreak <= call.turn
                                  || lastDialecticTurn + 8 * settings.cadence <= call.turn))
      ensures dialectic ==> lastDialecticTurn + settings.cadence <= call.turn
    {
      if !IsLive(call, now) {
        return false, false;
      }
      context := ContextDue(settings, call.turn, lastContextTurn);
      dialectic := DialecticDue(settings, call.turn, lastDialecticTurn, emptyStreak);
    }

    /** The end of `prefetch_sync`, the wait for the worker being over: `ended` says whether the worker
        is, and `found` what it left. */
    method CommitRecall(call: Call, context: bool, dialectic: bool, ended: bool, found: Option<Found>, now: int)
      returns (committed: bool)
      modifies this`lastContextTurn, this`lastDialecticTurn, this`emptyStreak
      ensures committed ==
        (ended && found.Some? && call.generation == generation && call.session == session && call.turn == turnCount
         && now < call.deadline)
      ensures lastContextTurn == if committed && context then call.turn else old(lastContextTurn)
      ensures lastDialecticTurn == if committed && dialectic then call.turn else old(lastDialecticTurn)
      ensures emptyStreak ==
        if committed && dialectic then if found.value.empty then old(emptyStreak) + 1 else 0
        else old(emptyStreak)
      ensures committed && dialectic ==> forall turn: int ::
        DialecticDue(settings, turn, lastDialecticTurn, emptyStreak) ==> call.turn + settings.cadence <= turn
      ensures committed && context ==> forall turn: int ::
        ContextDue(settings, turn, lastContextTurn) ==> call.turn + settings.contextCadence <= turn
    {
      if !ended || found.None? || !IsLive(call, now) {
        return false;
      }
      if context {
        lastContextTurn := call.turn;
      }
      if dialectic {
        lastDialecticTurn := call.turn;
        emptyStreak := if found.value.empty then emptyStreak + 1 else 0;
      }
      committed := true;
    }
  }

  // ----- Any number of calls -----

  datatype Worker = Worker(alive: bool, found: Option<Found>)

  /** What a call saw when its wait for the worker was over. */
  datatype Seen = Seen(call: Call, ended: bool, found: Option<Found>, now: int, generation: nat, session: nat, turn: int)

  datatype Phase =
    | Idle
    | Entered(deadline: int)                       // holds the slot
    | Renewed(generation: nat, deadline: int)      // made a generation of its own
    | Started(call: Call)
    | Due(call: Call, context: bool, dialectic: bool)
    | Joining(call: Call, context: bool, dialectic: bool, worker: nat)
    | Committing(call: Call, context: bool, dialectic: bool, found: Found)
    | Leaving

  datatype Lookup = Lookup(turn: int, empty: bool)

  /** `lookups` are the dialectic lookups committed so far, `joins` what each caller's last wait saw. */
  datatype State = State(
    settings: Settings, now: int, turn: int, session: nat, generation: nat, generations: nat,
    slot: Option<nat>, thread: Option<nat>, workers: map<nat, Worker>, phases: map<nat, Phase>,
    lastContext: int, lastDialectic: int, streak: nat, lookups: seq<Lookup>, joins: map<nat, Seen>)

  datatype Action =
    | Tick(now: int)
    | TurnStart(turn: int)
    | Supersede                           // a session switch, a new session or a shutdown
    | SwitchSession(session: nat)
    | Reason                              // an explicit reasoning call returns
    | Enter(c: nat, budget: nat)
    | Renew(c: nat)
    | ReadTurn(c: nat)
    | NotReady(c: nat)
    | Decide(c: nat)
    | Spawn(c: nat, worker: nat)
    | Find(worker: nat, found: Found)     // the worker leaves its result
    | Exit(worker: nat)                   // the worker ends, with or without one
    | Join(c: nat)                        // the wait ends, in time or not
    | Commit(c: nat)
    | Leave(c: nat)

  function PhaseOf(s: State, c: nat): Phase {
    if c in s.phases then s.phases[c] else Idle
  }

  predicate Alive(s: State, w: nat) {
    w in s.workers && s.workers[w].alive
  }

  predicate Enabled(s: State, a: Action) {
    match a
    case Tick(now) => s.now <= now
    case TurnStart(turn) => s.turn <= turn
    case Supersede => true
    case SwitchSession(_) => true
    case Reason => true
    case Enter(c, _) => PhaseOf(s, c).Idle? && s.slot.None?
    case Renew(c) => PhaseOf(s, c).Entered?
    case ReadTurn(c) => PhaseOf(s, c).Renewed?
    case NotReady(c) => PhaseOf(s, c).Started?
    case Decide(c) => PhaseOf(s, c).Started?
    case Spawn(c, w) => PhaseOf(s, c).Due? && w !in s.workers
    case Find(w, _) => Alive(s, w) && s.workers[w].found.None?
    case Exit(w) => Alive(s, w)
    case Join(c) => PhaseOf(s, c).Joining?
    case Commit(c) => PhaseOf(s, c).Committing?
    case Leave(c) => PhaseOf(s, c).Leaving?
  }

  /** Nothing superseded the call and its time is not up. */
  predicate Live(s: State, call: Call) {
    call.generation == s.generation && call.session == s.session && call.turn == s.turn && s.now < call.deadline
  }

  /** The result the call may commit when its wait ends. */
  function Result(s: State, p: Phase): Option<Found>
    requires p.Joining?
  {
    if !Alive(s, p.worker) && p.worker in s.workers && Live(s, p.call) then s.workers[p.worker].found else None
  }

  function Witness(s: State, p: Phase): Seen
    requires p.Joining?
  {
    Seen(p.call, p.worker in s.workers && !s.workers[p.worker].alive,
         if p.worker in s.workers then s.workers[p.worker].found else None, s.now, s.generation, s.session, s.turn)
  }

  function Goto(s: State, c: nat, p: Phase): State {
    s.(phases := s.phases[c := p])
  }

  function Fresh(s: State): State {
    s.(generation := s.generations + 1, generations := s.generations + 1)
  }

  function Next(s: State, a: Action): State
    requires Enabled(s, a)
  {
    match a
    case Tick(now) => s.(now := now)
    case TurnStart(turn) => Fresh(s).(turn := turn)
    case Supersede => Fresh(s)
    case SwitchSession(session) => s.(session := session)
    case Reason => s.(lastDialectic := s.turn)
    case Enter(c, budget) => Goto(s.(slot := Some(c)), c, Entered(s.now + budget))
    case Renew(c) =>
      if s.thread.Some? && Alive(s, s.thread.value) then Goto(s, c, Leaving)
      else Goto(Fresh(s), c, Renewed(Fresh(s).generation, s.phases[c].deadline))
    case ReadTurn(c) => Goto(s, c, Started(Call(s.phases[c].generation, s.session, s.turn, s.phases[c].deadline)))
    case NotReady(c) => Goto(s, c, Leaving)
    case Decide(c) =>
      var call := s.phases[c].call;
      var context := ContextDue(s.settings, call.turn, s.lastContext);
      var dialectic := DialecticDue(s.settings, call.turn, s.lastDialectic, s.streak);
      if Live(s, call) && (context || dialectic) then Goto(s, c, Due(call, context, dialectic)) else Goto(s, c, Leaving)
    case Spawn(c, w) =>
      var p := s.phases[c];
      Goto(s.(workers := s.workers[w := Worker(true, None)], thread := Some(w)), c, Joining(p.call, p.context, p.dialectic, w))
    case Find(w, found) => s.(workers := s.workers[w := Worker(true, Some(found))])
    case Exit(w) => s.(workers := s.workers[w := s.workers[w].(alive := false)])
    case Join(c) =>
      var p := s.phases[c];
      var u := s.(joins := s.joins[c := Witness(s, p)]);
      (match Result(s, p)
       case Some(found) => Goto(u, c, Committing(p.call, p.context, p.dialectic, found))
       case None => Goto(u, c, Leaving))
    case Commit(c) => Committed(s, c, s.phases[c])
    case Leave(c) => Goto(s.(slot := None), c, Idle)
  }

  function Committed(s: State, c: nat, p: Phase): State
    requires p.Committing?
  {
    var u := Goto(s.(lastContext := if p.context then p.call.turn else s.lastContext), c, Leaving);
    if p.dialectic then
      u.(lastDialectic := p.call.turn, streak := if p.found.empty then s.streak + 1 else 0,
         lookups := s.lookups + [Lookup(p.call.turn, p.found.empty)])
    else u
  }

  function Initial(c: Settings): State {
    State(c, 0, 0, 0, 0, 0, None, None, map[], map[], NEVER, NEVER, 0, [], map[])
  }

  ghost predicate IsRun(s: State, actions: seq<Action>)
    decreases |actions|
  {
    actions == [] || (Enabled(s, actions[0]) && IsRun(Next(s, actions[0]), actions[1..]))
  }

  function After(s: State, actions: seq<Action>): State
    requires IsRun(s, actions)
    decreases |actions|
  {
    if actions == [] then s else After(Next(s, actions[0]), actions[1..])
  }

  /** How many lookups at the end found nothing. */
  function TrailingEmpty(lookups: seq<Lookup>): nat
    decreases |lookups|
  {
    if lookups == [] || !lookups[|lookups| - 1].empty then 0 else 1 + TrailingEmpty(lookups[..|lookups| - 1])
  }

  /** A lookup on `turn` keeps its distance from the lookups before it. */
  predicate FarEnough(c: Settings, lookups: seq<Lookup>, turn: int) {
    lookups == [] ||
    EffectiveCadence(c.cadence, TrailingEmpty(lookups)) <= turn - lookups[|lookups| - 1].turn
  }

  predicate SpacedAt(c: Settings, lookups: seq<Lookup>, i: nat)
    requires i < |lookups|
  {
    FarEnough(c, lookups[..i], lookups[i].turn)
  }

  ghost predicate Spaced(c: Settings, lookups: seq<Lookup>) {
    forall i :: 0 <= i < |lookups| ==> SpacedAt(c, lookups, i)
  }

  predicate PhaseOk(s: State, p: Phase) {
    match p
    case Started(call) => call.turn <= s.turn
    case Due(call, _, dialectic) => call.turn <= s.turn && (dialectic ==> FarEnough(s.settings, s.lookups, call.turn))
    case Joining(call, _, dialectic, _) => call.turn <= s.turn && (dialectic ==> FarEnough(s.settings, s.lookups, call.turn))
    case Committing(call, _, dialectic, _) => call.turn <= s.turn && (dialectic ==> FarEnough(s.settings, s.lookups, call.turn))
    case _ => true
  }

  /** No worker runs while a call is about to start one. */
  predicate NoneAlive(s: State) {
    s.thread.None? || !Alive(s, s.thread.value)
  }

  predicate BeforeSpawn(p: Phase) {
    p.Renewed? || p.Started? || p.Due?
  }

  ghost predicate SlotOk(s: State) {
    && (forall c :: c in s.phases && !s.phases[c].Idle? ==> s.slot == Some(c))
    && (forall c :: c in s.phases && BeforeSpawn(s.phases[c]) ==> NoneAlive(s))
    && (forall w: nat :: Alive(s, w) ==> s.thread == Some(w))
  }

  ghost predicate LookupsOk(s: State) {
    && Spaced(s.settings, s.lookups) && s.streak == TrailingEmpty(s.lookups)
    && (s.lookups != [] ==> s.lookups[|s.lookups| - 1].turn <= s.turn && s.lookups[|s.lookups| - 1].turn <= s.lastDialectic)
  }

  ghost predicate GapOk(s: State) {
    && LookupsOk(s)
    && forall c :: c in s.phases ==> PhaseOk(s, s.phases[c])
  }

  lemma SlotKeeps(s: State, a: Action)
    requires SlotOk(s) && Enabled(s, a)
    ensures SlotOk(Next(s, a))
  {}

  lemma {:induction false} SpacedOfNext(c: Settings, lookups: seq<Lookup>, l: Lookup)
    requires Spaced(c, lookups) && FarEnough(c, lookups, l.turn)
    ensures Spaced(c, lookups + [l])
    ensures TrailingEmpty(lookups + [l]) == if l.empty then TrailingEmpty(lookups) + 1 else 0
  {
    var more := lookups + [l];
    assert more[..|lookups|] == lookups;
    forall i | 0 <= i < |more| ensures SpacedAt(c, more, i) {
      if i < |lookups| {
        assert SpacedAt(c, lookups, i) && more[..i] == lookups[..i];
      }
    }
  }

  lemma CommitKeepsLookups(s: State, c: nat)
    requires LookupsOk(s) && Enabled(s, Commit(c)) && PhaseOk(s, s.phases[c])
    ensures LookupsOk(Next(s, Commit(c)))
  {
    var p := s.phases[c];
    if p.dialectic {
      SpacedOfNext(s.settings, s.lookups, Lookup(p.call.turn, p.found.empty));
    }
  }

  /** A commit leaves no other call in the slot. */
  lemma CommitKeepsGap(s: State, c: nat)
    requires SlotOk(s) && GapOk(s) && Enabled(s, Commit(c))
    ensures GapOk(Next(s, Commit(c)))
  {
    var u := Next(s, Commit(c));
    CommitKeepsLookups(s, c);
    forall d | d in u.phases ensures PhaseOk(u, u.phases[d]) {
      assert d != c ==> s.phases[d].Idle?;
    }
  }

  lemma DecideKeepsGap(s: State, c: nat)
    requires GapOk(s) && Enabled(s, Decide(c))
    ensures GapOk(Next(s, Decide(c)))
  {
    var u := Next(s, Decide(c));
    assert PhaseOk(s, s.phases[c]);
    forall d | d in u.phases ensures PhaseOk(u, u.phases[d]) {
      assert d != c ==> PhaseOk(s, s.phases[d]);
    }
  }

  lemma OthersKeepLookups(s: State, a: Action)
    requires LookupsOk(s) && Enabled(s, a) && !a.Commit?
    ensures LookupsOk(Next(s, a)) && Next(s, a).lookups == s.lookups && Next(s, a).settings == s.settings
    ensures s.turn <= Next(s, a).turn
  {}

  lemma OthersKeepGap(s: State, a: Action)
    requires GapOk(s) && Enabled(s, a) && !a.Commit? && !a.Decide?
    ensures GapOk(Next(s, a))
  {
    var u := Next(s, a);
    OthersKeepLookups(s, a);
    forall d | d in u.phases ensures PhaseOk(u, u.phases[d]) {
      assert d in s.phases ==> PhaseOk(s, s.phases[d]);
    }
  }

  lemma {:induction false} RunKeepsInv(s: State, actions: seq<Action>)
    requires SlotOk(s) && GapOk(s) && IsRun(s, actions)
    ensures SlotOk(After(s, actions)) && GapOk(After(s, actions))
    ensures After(s, actions).settings == s.settings
    decreases |actions|
  {
    if actions != [] {
      SlotKeeps(s, actions[0]);
      if actions[0].Commit? {
        CommitKeepsGap(s, actions[0].c);
      } else if actions[0].Decide? {
        DecideKeepsGap(s, actions[0].c);
      } else {
        OthersKeepGap(s, actions[0]);
      }
      RunKeepsInv(Next(s, actions[0]), actions[1..]);
    }
  }

  /** At most one recall worker is ever alive, even after its caller gave up. */
  lemma OneWorker(c: Settings, actions: seq<Action>, v: nat, w: nat)
    requires IsRun(Initial(c), actions)
    requires Alive(After(Initial(c), actions), v) && Alive(After(Initial(c), actions), w)
    ensures v == w
  {
    RunKeepsInv(Initial(c), actions);
  }

  /** Consecutive dialectic lookups are at least min(c + k, 8c) turns apart, `k` being the number of
      empty ones in a row before. */
  lemma LookupsBackOff(c: Settings, actions: seq<Action>, i: nat)
    requires 1 <= c.cadence && IsRun(Initial(c), actions) && i + 1 < |After(Initial(c), actions).lookups|
    ensures var l := After(Initial(c), actions).lookups; var k := TrailingEmpty(l[..i + 1]);
      (if c.cadence + k <= 8 * c.cadence then c.cadence + k else 8 * c.cadence) <= l[i + 1].turn - l[i].turn
  {
    RunKeepsInv(Initial(c), actions);
    var l := After(Initial(c), actions).lookups;
    assert SpacedAt(c, l, i + 1);
    CadenceIs(c.cadence, TrailingEmpty(l[..i + 1]));
  }

  /** The worker had ended, with a result, before the deadline, and nothing had superseded the call. */
  predicate OnTime(j: Seen) {
    && j.ended && j.found.Some? && j.now < j.call.deadline
    && j.generation == j.call.generation && j.session == j.call.session && j.turn == j.call.turn
  }

  /** A call that is to commit saw all that. */
  ghost predicate JoinsOk(s: State) {
    forall c :: c in s.phases && s.phases[c].Committing? ==>
      c in s.joins && OnTime(s.joins[c]) && s.joins[c].call == s.phases[c].call && s.joins[c].found == Some(s.phases[c].found)
  }

  lemma JoinsKeep(s: State, a: Action)
    requires JoinsOk(s) && Enabled(s, a)
    ensures JoinsOk(Next(s, a))
  {}

  /** The wait of a call is over: it goes on to commit exactly when it saw that. */
  lemma CommitsIff(s: State, c: nat)
    requires Enabled(s, Join(c))
    ensures PhaseOf(Next(s, Join(c)), c).Committing? <==> OnTime(Next(s, Join(c)).joins[c])
    ensures !PhaseOf(Next(s, Join(c)), c).Committing? ==> PhaseOf(Next(s, Join(c)), c).Leaving?
  {}

  /** The state after the first `k` steps of a run. */
  function StateAt(s: State, actions: seq<Action>, k: nat): State
    requires IsRun(s, actions) && k <= |actions|
    decreases k
  {
    if k == 0 then s else StateAt(Next(s, actions[0]), actions[1..], k - 1)
  }

  predicate SameCadences(s: State, u: State) {
    u.lastContext == s.lastContext && u.lastDialectic == s.lastDialectic && u.streak == s.streak
  }

  /** The step is a commit of a call that saw, at its own join, all it takes. */
  predicate Earned(s: State, a: Action) {
    && a.Commit? && PhaseOf(s, a.c).Committing?
    && a.c in s.joins && OnTime(s.joins[a.c]) && s.joins[a.c].call == s.phases[a.c].call
  }

  lemma StepIsEarned(s: State, a: Action)
    requires JoinsOk(s) && Enabled(s, a)
    ensures SameCadences(s, Next(s, a)) || a.Reason? || Earned(s, a)
  {}

  lemma {:induction false} RunIsEarned(s: State, actions: seq<Action>, k: nat)
    requires JoinsOk(s) && IsRun(s, actions) && k < |actions|
    ensures var before, after := StateAt(s, actions, k), StateAt(s, actions, k + 1);
      SameCadences(before, after) || actions[k].Reason? || Earned(before, actions[k])
    decreases k
  {
    if k == 0 {
      assert StateAt(s, actions, 1) == StateAt(Next(s, actions[0]), actions[1..], 0);
      StepIsEarned(s, actions[0]);
    } else {
      JoinsKeep(s, actions[0]);
      RunIsEarned(Next(s, actions[0]), actions[1..], k - 1);
    }
  }

  /** In every run each change of a cadence or the streak that no explicit call makes is the commit of a
      call whose worker had ended with a result, before the deadline, with generation, session and turn
      as when it began.  Late, failed and superseded calls, and workers that outlive their caller,
      change nothing. */
  lemma OnlyTimelyCallsMoveCadences(c: Settings, actions: seq<Action>, k: nat)
    requires IsRun(Initial(c), actions) && k < |actions|
    ensures var before, after := StateAt(Initial(c), actions, k), StateAt(Initial(c), actions, k + 1);
      (after.lastContext == before.lastContext && after.lastDialectic == before.lastDialectic && after.streak == before.streak)
      || actions[k].Reason?
      || (actions[k].Commit? && actions[k].c in before.joins
          && var j := before.joins[actions[k].c];
             j.ended && j.found.Some? && j.now < j.call.deadline
             && j.generation == j.call.generation && j.session == j.call.session && j.turn == j.call.turn)
  {
    RunIsEarned(Initial(c), actions, k);
  }

  /** A turn start, session switch or shutdown supersedes every call under way. */
  ghost predicate GenerationsOk(s: State) {
    s.generation <= s.generations
    && forall c :: c in s.phases ==> match s.phases[c]
         case Renewed(g, _) => g <= s.generations
         case Started(call) => call.generation <= s.generations
         case Due(call, _, _) => call.generation <= s.generations
         case Joining(call, _, _, _) => call.generation <= s.generations
         case _ => true
  }

  lemma GenerationsKeep(s: State, a: Action)
    requires GenerationsOk(s) && Enabled(s, a)
    ensures GenerationsOk(Next(s, a))
  {}

  lemma {:induction false} RunKeepsGenerations(s: State, actions: seq<Action>)
    requires GenerationsOk(s) && IsRun(s, actions)
    ensures GenerationsOk(After(s, actions))
    decreases |actions|
  {
    if actions != [] {
      GenerationsKeep(s, actions[0]);
      RunKeepsGenerations(Next(s, actions[0]), actions[1..]);
    }
  }

  /** The generation of a call under way. */
  function GenerationOf(p: Phase): Option<nat> {
    match p
    case Renewed(g, _) => Some(g)
    case Started(call) => Some(call.generation)
    case Due(call, _, _) => Some(call.generation)
    case Joining(call, _, _, _) => Some(call.generation)
    case Committing(call, _, _, _) => Some(call.generation)
    case _ => None
  }

  /** The call `g` of caller `d` is superseded, and not about to commit. */
  predicate Superseded(s: State, d: nat, g: nat) {
    g < s.generation <= s.generations && (GenerationOf(PhaseOf(s, d)) == Some(g) ==> !PhaseOf(s, d).Committing?)
  }

  lemma SupersededStays(s: State, d: nat, g: nat, a: Action)
    requires Superseded(s, d, g) && Enabled(s, a)
    ensures Superseded(Next(s, a), d, g)
  {}

  lemma {:induction false} RunStaysSuperseded(s: State, d: nat, g: nat, actions: seq<Action>)
    requires Superseded(s, d, g) && IsRun(s, actions)
    ensures Superseded(After(s, actions), d, g)
    decreases |actions|
  {
    if actions != [] {
      SupersededStays(s, d, g, actions[0]);
      RunStaysSuperseded(Next(s, actions[0]), d, g, actions[1..]);
    }
  }

  /** A call that has its generation when a turn starts, a session switches or the provider shuts down,
      and whose join has not succeeded yet, never commits, whatever follows. */
  lemma SupersededForGood(c: Settings, actions: seq<Action>, d: nat, g: nat, a: Action, more: seq<Action>)
    requires IsRun(Initial(c), actions) && (a.TurnStart? || a.Supersede?) && Enabled(After(Initial(c), actions), a)
    requires var p := PhaseOf(After(Initial(c), actions), d); GenerationOf(p) == Some(g) && !p.Committing?
    requires IsRun(Next(After(Initial(c), actions), a), more)
    ensures var p := PhaseOf(After(Next(After(Initial(c), actions), a), more), d);
      GenerationOf(p) == Some(g) ==> !p.Committing?
  {
    RunKeepsGenerations(Initial(c), actions);
    RunStaysSuperseded(Next(After(Initial(c), actions), a), d, g, more);
  }

  // ----- One call undisturbed -----

  /** Some run goes from the one state to the other. */
  ghost predicate Leads(s: State, u: State) {
    exists actions :: IsRun(s, actions) && After(s, actions) == u
  }

  lemma LeadsNowhere(s: State)
    ensures Leads(s, s)
  {
    assert IsRun(s, []) && After(s, []) == s;
  }

  lemma {:induction false} OneMore(s: State, actions: seq<Action>, a: Action)
    requires IsRun(s, actions) && Enabled(After(s, actions), a)
    ensures IsRun(s, actions + [a]) && After(s, actions + [a]) == Next(After(s, actions), a)
    decreases |actions|
  {
    if actions == [] {
      assert (actions + [a])[1..] == [];
    } else {
      OneMore(Next(s, actions[0]), actions[1..], a);
      assert (actions + [a])[1..] == actions[1..] + [a];
    }
  }

  lemma Step(s: State, u: State, a: Action) returns (v: State)
    requires Leads(s, u) && Enabled(u, a)
    ensures v == Next(u, a) && Leads(s, v)
  {
    v := Next(u, a);
    var actions :| IsRun(s, actions) && After(s, actions) == u;
    OneMore(s, actions, a);
  }

  /** Nothing that later recalls depend on differs, except that the other state has a new generation. */
  predicate SameButGeneration(s: State, u: State) {
    u.settings == s.settings && u.now == s.now && u.turn == s.turn && u.session == s.session
    && u.lastContext == s.lastContext && u.lastDialectic == s.lastDialectic && u.streak == s.streak && u.lookups == s.lookups
  }

  lemma BeginRun(s: State, c: nat, budget: nat) returns (u: State)
    requires s.slot.None? && PhaseOf(s, c).Idle? && NoneAlive(s)
    ensures Leads(s, u) && SameButGeneration(s, u) && u.slot == Some(c) && u.workers == s.workers
    ensures PhaseOf(u, c) == Started(Call(u.generation, s.session, s.turn, s.now + budget))
  {
    LeadsNowhere(s);
    u := Step(s, s, Enter(c, budget));
    u := Step(s, u, Renew(c));
    u := Step(s, u, ReadTurn(c));
  }

  lemma WorkRun(s: State, u: State, c: nat, w: nat, found: Found) returns (v: State)
    requires Leads(s, u) && u.slot == Some(c) && PhaseOf(u, c).Due? && w !in u.workers && Live(u, u.phases[c].call)
    ensures Leads(s, v) && SameButGeneration(u, v) && v.slot == Some(c) && w in v.workers
    ensures var p := u.phases[c]; PhaseOf(v, c) == Committing(p.call, p.context, p.dialectic, found)
  {
    v := Step(s, u, Spawn(c, w));
    v := Step(s, v, Find(w, found));
    v := Step(s, v, Exit(w));
    v := Step(s, v, Join(c));
  }

  /** With the slot free and no worker alive, a call that nothing supersedes and whose worker ends in time
      does what the class does: what is due is looked up, and exactly that moves. */
  lemma UndisturbedCall(s: State, c: nat, w: nat, budget: nat, found: Found) returns (u: State)
    requires s.slot.None? && PhaseOf(s, c).Idle? && NoneAlive(s) && w !in s.workers && 0 < budget
    ensures Leads(s, u) && u.slot.None? && PhaseOf(u, c).Idle?
    ensures var context := (s.settings.firstTurnOnly ==> s.turn <= 1) && s.lastContext + s.settings.contextCadence <= s.turn;
      var dialectic := s.lastDialectic + s.settings.cadence + s.streak <= s.turn
                       || s.lastDialectic + 8 * s.settings.cadence <= s.turn;
      && u.lastContext == (if context then s.turn else s.lastContext)
      && u.lastDialectic == (if dialectic then s.turn else s.lastDialectic)
      && u.streak == (if dialectic then if found.empty then s.streak + 1 else 0 else s.streak)
      && u.lookups == (if dialectic then s.lookups + [Lookup(s.turn, found.empty)] else s.lookups)
      && (w in u.workers <==> context || dialectic)
  {
    u := BeginRun(s, c, budget);
    u := Step(s, u, Decide(c));
    if u.phases[c].Due? {
      u := WorkRun(s, u, c, w, found);
      u := Step(s, u, Commit(c));
    }
    u := Step(s, u, Leave(c));
  }

  /** A turn, a session switch, and an explicit reasoning call each change what they are about, and what
      supersedes a call has a new generation. */
  lemma HooksRun(s: State, turn: int, session: nat) returns (u: State)
    requires s.turn <= turn && s.generation <= s.generations
    ensures Leads(s, u) && u.turn == turn && u.session == session && u.lastDialectic == turn && s.generation < u.generation
    ensures u.lastContext == s.lastContext && u.streak == s.streak && u.lookups == s.lookups && u.phases == s.phases
  {
    LeadsNowhere(s);
    u := Step(s, s, TurnStart(turn));
    u := Step(s, u, Supersede);
    u := Step(s, u, SwitchSession(session));
    u := Step(s, u, Reason);
  }

  /** A worker is started exactly by a call that is still live and for which something is due. */
  lemma DecideIff(s: State, c: nat)
    requires PhaseOf(s, c).Started?
    ensures var call := s.phases[c].call;
      var context := (s.settings.firstTurnOnly ==> call.turn <= 1) && s.lastContext + s.settings.contextCadence <= call.turn;
      var dialectic := s.lastDialectic + s.settings.cadence + s.streak <= call.turn
                       || s.lastDialectic + 8 * s.settings.cadence <= call.turn;
      var live := call.generation == s.generation && call.session == s.session && call.turn == s.turn && s.now < call.deadline;
      Next(s, Decide(c)) == s.(phases := s.phases[c :=
        if live && (context || dialectic) then Due(call, context, dialectic) else Leaving])
  {}

  /** While a worker is alive a call gives up at once and changes nothing. */
  lemma CallMeetsWorker(s: State, c: nat, budget: nat) returns (u: State)
    requires s.slot.None? && PhaseOf(s, c).Idle? && !NoneAlive(s)
    ensures Leads(s, u) && u == s.(phases := s.phases[c := Idle])
  {
    LeadsNowhere(s);
    u := Step(s, s, Enter(c, budget));
    u := Step(s, u, Renew(c));
    u := Step(s, u, Leave(c));
  }

  lemma GiveUpRun(s: State, u: State, c: nat, w: nat, at: nat) returns (v: State)
    requires Leads(s, u) && u.slot == Some(c) && PhaseOf(u, c).Due? && w !in u.workers && u.now <= at
    ensures Leads(s, v) && SameButGeneration(u.(now := at), v) && v.slot == Some(c) && PhaseOf(v, c).Leaving?
  {
    v := Step(s, u, Spawn(c, w));
    v := Step(s, v, Tick(at));
    v := Step(s, v, Join(c));
  }

  /** A worker that is still alive when its caller's wait ends leaves all as it was. */
  lemma CallGivesUp(s: State, c: nat, w: nat, budget: nat, at: nat) returns (u: State)
    requires s.slot.None? && PhaseOf(s, c).Idle? && NoneAlive(s) && w !in s.workers && 0 < budget && s.now <= at
    ensures Leads(s, u) && u.slot.None? && PhaseOf(u, c).Idle?
    ensures SameButGeneration(s.(now := u.now), u)
  {
    u := BeginRun(s, c, budget);
    u := Step(s, u, Decide(c));
    if u.phases[c].Due? {
      u := GiveUpRun(s, u, c, w, at);
    }
    u := Step(s, u, Leave(c));
  }
}
