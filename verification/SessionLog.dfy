/**
 One session's message list: appends, uploads under the flush lock, and trimming
 (`HonchoSession`, `_flush_session`, `_flush_session_locked` and `_trim_synced_messages` of
 hermes-plugin-honcho/session.py).

 The class is the code as one thread runs it.  The state machine after it interleaves any number
 of threads, one list or network operation at a time.
 */
module SessionLog {
  import opened Wrappers

  const RETENTION := 200

  /** A cached message; `id` is its identity, counting the session's messages from 0. */
  datatype Message = Message(id: nat, synced: bool)

  type Log = seq<Message>

  predicate HasUnsynced(log: Log) {
    exists i :: 0 <= i < |log| && !log[i].synced
  }

  /** The messages a flush selects. */
  function Unsynced(log: Log): seq<nat> {
    if log == [] then []
    else Unsynced(log[..|log| - 1]) + if log[|log| - 1].synced then [] else [log[|log| - 1].id]
  }

  /** `msg["_synced"] = ok` for the message `id`. */
  function Flag(log: Log, id: nat, ok: bool): Log {
    seq(|log|, i requires 0 <= i < |log| => if log[i].id == id then Message(id, ok) else log[i])
  }

  /** Pop synced messages from the front, `excess` of them at most. */
  function Trim(log: Log, excess: int): Log
    decreases |log|
  {
    if 0 < excess && log != [] && log[0].synced then Trim(log[1..], excess - 1) else log
  }

  function FlagAll(log: Log, ids: seq<nat>, ok: bool): Log
    decreases |ids|
  {
    if ids == [] then log else FlagAll(Flag(log, ids[0], ok), ids[1..], ok)
  }

  /** The list after a flush whose upload ended with `ok`. */
  function Flushed(log: Log, ok: bool): Log {
    var flagged := FlagAll(log, Unsynced(log), ok);
    if ok && Unsynced(log) != [] then Trim(flagged, |flagged| - RETENTION) else flagged
  }

  /** Ids are consecutive and the synced messages come first. */
  ghost predicate Wellformed(log: Log) {
    && (forall i :: 0 <= i < |log| ==> log[i].id == log[0].id + i)
    && (forall i, j :: 0 <= i < j < |log| && log[j].synced ==> log[i].synced)
  }

  /** What the server has, followed by what is unsynced, is everything added, in order. */
  ghost predicate Accounted(log: Log, added: nat, delivered: seq<nat>) {
    && Wellformed(log) && |log| <= added
    && (log != [] ==> log[0].id == added - |log|)
    && delivered + Unsynced(log) == seq(added, i => i)
  }

  /** The last 200 messages, or all if there are fewer, every one of them synced. */
  ghost predicate LastFlagged(log: Log, left: Log) {
    && |left| == (if |log| < 200 then |log| else 200)
    && forall i :: 0 <= i < |left| ==> left[i] == Message(log[|log| - |left| + i].id, true)
  }

  /** Where trimming stands: `log` is left of `start`, `excess` may still go. */
  ghost predicate TrimStands(start: Log, added: nat, delivered: seq<nat>, log: Log, excess: int) {
    && Accounted(log, added, delivered) && Unsynced(log) == Unsynced(start)
    && Trim(log, excess) == Trim(start, |start| - RETENTION)
  }

  lemma PopKeeps(start: Log, added: nat, delivered: seq<nat>, log: Log, excess: int)
    requires TrimStands(start, added, delivered, log, excess) && 0 < excess && log != [] && log[0].synced
    ensures TrimStands(start, added, delivered, log[1..], excess - 1)
  {
    UnsyncedOfTail(log);
    assert Trim(log, excess) == Trim(log[1..], excess - 1);
  }

  lemma TrimEnds(start: Log, added: nat, delivered: seq<nat>, log: Log, excess: int)
    requires TrimStands(start, added, delivered, log, excess) && !(0 < excess && log != [] && log[0].synced)
    ensures log == Trim(start, |start| - RETENTION) && Unsynced(log) == Unsynced(start)
  {
    assert Trim(log, excess) == log;
  }

  class HonchoSession {
    var messages: Log
    /** How many messages were ever added (the next identity), and those the server has. */
    var added: nat
    ghost var delivered: seq<nat>

    ghost predicate Valid()
      reads this
    {
      Accounted(messages, added, delivered)
    }

    /** A session built from the messages the server already had. */
    constructor (existing: nat)
      ensures Valid() && added == existing && |delivered| == existing
      ensures |messages| == existing && !HasUnsynced(messages)
    {
      messages := seq(existing, i requires 0 <= i => Message(i, true));
      added := existing;
      delivered := seq(existing, i => i);
      new;
      AllSynced(messages);
    }

    method AddMessage()
      requires Valid()
      modifies this
      ensures Valid() && added == old(added) + 1 && delivered == old(delivered)
      ensures messages == old(messages) + [Message(old(added), false)]
    {
      UnsyncedOfNext(messages, Message(added, false));
      messages := messages + [Message(added, false)];
      assert seq(added + 1, i => i) == seq(added, i => i) + [added];
      added := added + 1;
    }

    /** The loop of `_trim_synced_messages`. */
    method PopSynced(ghost start: Log, most: int) returns (excess: int)
      requires TrimStands(start, added, delivered, messages, most)
      modifies this`messages
      ensures TrimStands(start, added, delivered, messages, excess)
      ensures !(0 < excess && messages != [] && messages[0].synced)
    {
      excess := most;
      while excess > 0 && messages != [] && messages[0].synced
        invariant TrimStands(start, added, delivered, messages, excess)
      {
        PopKeeps(start, added, delivered, messages, excess);
        messages := messages[1..];
        excess := excess - 1;
      }
    }

    /** `_trim_synced_messages`. */
    method TrimSyncedMessages()
      requires Valid()
      modifies this`messages
      ensures Valid() && messages == Trim(old(messages), |old(messages)| - RETENTION)
      ensures Unsynced(messages) == Unsynced(old(messages))
      ensures |messages| <= |old(messages)| && messages == old(messages)[|old(messages)| - |messages|..]
      ensures messages == old(messages) || 200 <= |messages|
      ensures |messages| <= 200 || !messages[0].synced
    {
      ghost var start := messages;
      var excess := PopSynced(start, |messages| - RETENTION);
      TrimEnds(start, added, delivered, messages, excess);
      TrimIs(start, |start| - RETENTION);
    }

    /** The loop that sets `_synced` on the selected messages. */
    method FlagBatch(batch: seq<nat>, ok: bool)
      requires Wellformed(messages) && batch == Unsynced(messages)
      modifies this`messages
      ensures messages == FlagAll(old(messages), batch, ok)
    {
      ghost var log, n := messages, |messages| - |batch|;
      BatchIsSuffix(log);
      assert messages == FlagFrom(log, n, n, ok);
      for k := 0 to |batch|
        invariant messages == FlagFrom(log, n, n + k, ok)
      {
        FlagNext(log, n, n + k, ok);
        messages := Flag(messages, batch[k], ok);
      }
      FlagAllIs(log, ok);
    }

    /** `_flush_session_locked`, given how the upload ends. */
    method FlushSessionLocked(uploaded: bool) returns (ok: bool)
      requires Valid()
      modifies this
      ensures Valid() && added == old(added)
      ensures ok == (uploaded || !HasUnsynced(old(messages)))
      ensures messages == Flushed(old(messages), uploaded)
      ensures delivered == if uploaded then old(delivered) + Unsynced(old(messages)) else old(delivered)
      ensures ok ==> !HasUnsynced(messages)
      ensures !uploaded || !HasUnsynced(old(messages)) ==> messages == old(messages)
      ensures uploaded && HasUnsynced(old(messages)) ==> LastFlagged(old(messages), messages)
    {
      var newMessages := Unsynced(messages);
      NoneUnsynced(messages);
      FlushedIs(messages, uploaded);
      if newMessages == [] {
        assert Flushed(messages, uploaded) == messages;
        assert delivered + [] == delivered;
        return true;
      }
      FlagAllIs(messages, uploaded);
      FlagBatch(newMessages, uploaded);
      if uploaded {
        SyncedLog(messages);
        TrimLength(messages, |messages| - RETENTION);
        delivered := delivered + newMessages;
        assert delivered + [] == delivered;
        TrimSyncedMessages();
        NoneUnsynced(messages);
      }
      ok := uploaded;
    }
  }

  // ----- Facts about lists -----

  lemma UnsyncedOfNext(log: Log, m: Message)
    ensures Unsynced(log + [m]) == Unsynced(log) + if m.synced then [] else [m.id]
  {
    assert (log + [m])[..|log|] == log;
  }

  lemma {:induction false} AllSynced(log: Log)
    requires forall i :: 0 <= i < |log| ==> log[i].synced
    ensures Unsynced(log) == []
    decreases |log|
  {
    if log != [] {
      AllSynced(log[..|log| - 1]);
    }
  }

  lemma {:induction false} NoneUnsynced(log: Log)
    ensures Unsynced(log) == [] <==> !HasUnsynced(log)
    decreases |log|
  {
    if log != [] {
      NoneUnsynced(log[..|log| - 1]);
      assert HasUnsynced(log[..|log| - 1]) ==> HasUnsynced(log) by {
        if HasUnsynced(log[..|log| - 1]) {
          var i :| 0 <= i < |log| - 1 && !log[..|log| - 1][i].synced;
          assert !log[i].synced;
        }
      }
      if HasUnsynced(log) && log[|log| - 1].synced {
        var i :| 0 <= i < |log| && !log[i].synced;
        assert !log[..|log| - 1][i].synced;
      }
    }
  }

  lemma {:induction false} UnsyncedOfTail(log: Log)
    requires log != [] && log[0].synced
    ensures Unsynced(log[1..]) == Unsynced(log)
    decreases |log|
  {
    if 1 < |log| {
      UnsyncedOfTail(log[..|log| - 1]);
      assert log[1..][..|log| - 2] == log[..|log| - 1][1..];
    }
  }

  /** In a well-formed list the unsynced messages are the last ones. */
  lemma {:induction false} BatchIsSuffix(log: Log)
    requires Wellformed(log)
    ensures |Unsynced(log)| <= |log|
    ensures forall i :: 0 <= i < |log| ==> (log[i].synced <==> i < |log| - |Unsynced(log)|)
    ensures forall k :: 0 <= k < |Unsynced(log)| ==> Unsynced(log)[k] == log[|log| - |Unsynced(log)| + k].id
    decreases |log|
  {
    if log != [] {
      var front, last := log[..|log| - 1], log[|log| - 1];
      BatchIsSuffix(front);
      if last.synced {
        AllSynced(log);
      }
    }
  }

  /** The list with the messages from `i` to `j` flagged. */
  function FlagFrom(log: Log, i: nat, j: nat, ok: bool): Log {
    seq(|log|, k requires 0 <= k < |log| => if i <= k < j then Message(log[k].id, ok) else log[k])
  }

  lemma FlagNext(log: Log, i: nat, j: nat, ok: bool)
    requires Wellformed(log) && i <= j < |log|
    ensures Flag(FlagFrom(log, i, j, ok), log[j].id, ok) == FlagFrom(log, i, j + 1, ok)
  {}

  lemma {:induction false} FlagAllSteps(log: Log, n: nat, k: nat, ok: bool)
    requires Wellformed(log) && n == |log| - |Unsynced(log)| && k <= |Unsynced(log)|
    ensures FlagAll(FlagFrom(log, n, n + k, ok), Unsynced(log)[k..], ok) == FlagFrom(log, n, |log|, ok)
    decreases |Unsynced(log)| - k
  {
    BatchIsSuffix(log);
    if k < |Unsynced(log)| {
      var ids := Unsynced(log)[k..];
      assert ids[0] == log[n + k].id && ids[1..] == Unsynced(log)[k + 1..];
      FlagNext(log, n, n + k, ok);
      FlagAllSteps(log, n, k + 1, ok);
    }
  }

  lemma FlagTail(log: Log, n: nat, ok: bool)
    requires Wellformed(log) && n <= |log| && forall i :: 0 <= i < |log| ==> (log[i].synced <==> i < n)
    ensures Wellformed(FlagFrom(log, n, |log|, ok))
    ensures ok ==> forall i :: 0 <= i < |log| ==> FlagFrom(log, n, |log|, ok)[i].synced
    ensures !ok ==> FlagFrom(log, n, |log|, ok) == log
  {}

  /** Flagging the selected messages flags the tail of the list; a failed upload changes nothing. */
  lemma FlagAllIs(log: Log, ok: bool)
    requires Wellformed(log)
    ensures var n := |log| - |Unsynced(log)|;
      && 0 <= n && FlagAll(log, Unsynced(log), ok) == FlagFrom(log, n, |log|, ok)
      && Wellformed(FlagFrom(log, n, |log|, ok))
      && (ok ==> forall i :: 0 <= i < |log| ==> FlagFrom(log, n, |log|, ok)[i].synced)
      && (!ok ==> FlagFrom(log, n, |log|, ok) == log)
  {
    BatchIsSuffix(log);
    var n := |log| - |Unsynced(log)|;
    FlagTail(log, n, ok);
    FlagAllSteps(log, n, 0, ok);
    assert FlagFrom(log, n, n, ok) == log && Unsynced(log)[0..] == Unsynced(log);
  }

  lemma SyncedLog(log: Log)
    requires forall i :: 0 <= i < |log| ==> log[i].synced
    ensures Unsynced(log) == [] && !HasUnsynced(log)
  {
    AllSynced(log);
  }

  /** Trimming drops synced messages from the front, until enough are gone or an unsynced one is first. */
  lemma {:induction false} TrimIs(log: Log, excess: int)
    ensures var left := Trim(log, excess);
      && |left| <= |log| && left == log[|log| - |left|..]
      && (left == log || |log| - |left| <= excess)
      && (|log| - |left| >= excess || left == [] || !left[0].synced)
    decreases |log|
  {
    if 0 < excess && log != [] && log[0].synced {
      TrimIs(log[1..], excess - 1);
    }
  }

  /** A flush whose upload landed leaves the last 200 messages at most, flagged; any other leaves all as it was. */
  lemma FlushedIs(log: Log, ok: bool)
    requires Wellformed(log)
    ensures var left := Flushed(log, ok);
      if ok && HasUnsynced(log) then LastFlagged(log, left) else left == log
  {
    NoneUnsynced(log);
    FlagAllIs(log, ok);
    var flagged := FlagAll(log, Unsynced(log), ok);
    if ok {
      TrimLength(flagged, |flagged| - RETENTION);
      TrimIs(flagged, |flagged| - RETENTION);
    }
  }

  /** A list that is wholly synced shrinks to the retention limit. */
  lemma {:induction false} TrimLength(log: Log, excess: int)
    requires forall i :: 0 <= i < |log| ==> log[i].synced
    ensures |Trim(log, excess)| == if excess <= 0 then |log| else if |log| <= excess then 0 else |log| - excess
    decreases |log|
  {
    if 0 < excess && log != [] {
      TrimLength(log[1..], excess - 1);
    }
  }

  // ----- Any number of threads -----

  /** Where a thread stands inside `_flush_session`. */
  datatype Phase =
    | Outside
    | Holding                                          // has the flush lock
    | Selected(batch: seq<nat>)                        // has built `new_messages`
    | Answered(batch: seq<nat>, ok: bool, done: nat)   // the upload ended; `done` messages are flagged
    | Trimming(excess: int)

  /** `added` counts the messages ever added, `delivered` lists what the server has. */
  datatype State = State(log: Log, added: nat, delivered: seq<nat>, lock: Option<nat>, phases: map<nat, Phase>)

  datatype Action =
    | Append
    | Acquire(t: nat)
    | Select(t: nat)
    | Upload(t: nat, ok: bool)
    | FlagOne(t: nat)
    | StartTrim(t: nat)
    | PopOne(t: nat)
    | Release(t: nat)

  function PhaseOf(s: State, t: nat): Phase {
    if t in s.phases then s.phases[t] else Outside
  }

  predicate CanPop(log: Log, excess: int) {
    0 < excess && log != [] && log[0].synced
  }

  predicate Enabled(s: State, a: Action) {
    match a
    case Append => true
    case Acquire(t) => s.lock.None? && PhaseOf(s, t).Outside?
    case Select(t) => PhaseOf(s, t).Holding?
    case Upload(t, _) => PhaseOf(s, t).Selected? && PhaseOf(s, t).batch != []
    case FlagOne(t) => PhaseOf(s, t).Answered? && PhaseOf(s, t).done < |PhaseOf(s, t).batch|
    case StartTrim(t) =>
      PhaseOf(s, t).Answered? && PhaseOf(s, t).ok && PhaseOf(s, t).done == |PhaseOf(s, t).batch|
    case PopOne(t) => PhaseOf(s, t).Trimming? && CanPop(s.log, PhaseOf(s, t).excess)
    case Release(t) =>
      match PhaseOf(s, t)
      case Selected(batch) => batch == []
      case Answered(batch, ok, done) => !ok && done == |batch|
      case Trimming(excess) => !CanPop(s.log, excess)
      case _ => false
  }

  function Next(s: State, a: Action): State
    requires Enabled(s, a)
  {
    match a
    case Append => s.(log := s.log + [Message(s.added, false)], added := s.added + 1)
    case Acquire(t) => s.(lock := Some(t), phases := s.phases[t := Holding])
    case Select(t) => s.(phases := s.phases[t := Selected(Unsynced(s.log))])
    case Upload(t, ok) =>
      s.(delivered := if ok then s.delivered + s.phases[t].batch else s.delivered,
         phases := s.phases[t := Answered(s.phases[t].batch, ok, 0)])
    case FlagOne(t) =>
      var p := s.phases[t];
      s.(log := Flag(s.log, p.batch[p.done], p.ok), phases := s.phases[t := p.(done := p.done + 1)])
    case StartTrim(t) => s.(phases := s.phases[t := Trimming(|s.log| - RETENTION)])
    case PopOne(t) => s.(log := s.log[1..], phases := s.phases[t := Trimming(s.phases[t].excess - 1)])
    case Release(t) => s.(lock := None, phases := s.phases[t := Outside])
  }

  function Initial(existing: nat): State {
    State(seq(existing, i requires 0 <= i => Message(i, true)), existing, seq(existing, i => i), None, map[])
  }

  ghost predicate IsRun(s: State, actions: seq<Action>)
    decreases |actions|
  {
    actions == [] || (Enabled(s, actions[0]) && IsRun(Next(s, actions[0]), actions[1..]))
  }

  function After(s: State, actions: seq<Action>): State
    requires IsRun(s, actions)
    decreases |actions|
  {
    if actions == [] then s else After(Next(s, actions[0]), actions[1..])
  }

  /** The ids from `i` up to `j`. */
  function Ids(i: nat, j: nat): seq<nat>
    requires i <= j
  {
    seq(j - i, k requires 0 <= k => i + k)
  }

  /** The first message still in the list. */
  function First(s: State): int {
    s.added - |s.log|
  }

  /** Delivered messages whose flag is not set yet: the tail of a batch just uploaded. */
  function Lag(s: State): nat {
    if s.lock.Some? then
      match PhaseOf(s, s.lock.value)
      case Answered(batch, ok, done) => if ok && done <= |batch| then |batch| - done else 0
      case _ => 0
    else 0
  }

  /** The list holds the last ids; exactly those below `delivered - Lag` are flagged. */
  ghost predicate LogOk(s: State) {
    && 0 <= First(s) <= |s.delivered| - Lag(s) && |s.delivered| <= s.added
    && s.delivered == Ids(0, |s.delivered|)
    && forall i :: 0 <= i < |s.log| ==>
         s.log[i].id == First(s) + i && (s.log[i].synced <==> First(s) + i < |s.delivered| - Lag(s))
  }

  ghost predicate PhaseOk(s: State, p: Phase) {
    match p
    case Selected(batch) => |s.delivered| + |batch| <= s.added && batch == Ids(|s.delivered|, |s.delivered| + |batch|)
    case Answered(batch, ok, done) =>
      var from := if ok then |s.delivered| - |batch| else |s.delivered|;
      0 <= from && done <= |batch| && from + |batch| <= s.added && batch == Ids(from, from + |batch|)
    case _ => true
  }

  ghost predicate Inv(s: State) {
    && (forall t :: t in s.phases && !s.phases[t].Outside? ==> s.lock == Some(t))
    && (s.lock.Some? ==> PhaseOk(s, PhaseOf(s, s.lock.value)))
    && LogOk(s)
  }

  lemma AppendKeepsInv(s: State)
    requires Inv(s)
    ensures Inv(Next(s, Append))
  {
    var u := Next(s, Append);
    assert First(u) == First(s) && Lag(u) == Lag(s);
    forall i | 0 <= i < |u.log|
      ensures u.log[i].id == First(u) + i && (u.log[i].synced <==> First(u) + i < |u.delivered| - Lag(u))
    {
      assert i < |s.log| ==> u.log[i] == s.log[i];
    }
  }

  /** Without a batch waiting to be flagged, the unsynced messages are the undelivered ones. */
  lemma UnsyncedAre(s: State)
    requires LogOk(s) && Lag(s) == 0
    ensures Unsynced(s.log) == Ids(|s.delivered|, s.added)
  {
    BatchIsSuffix(s.log);
    var n := |Unsynced(s.log)|;
    assert n == s.added - |s.delivered| by {
      var i := |s.log| - n;
      assert i < |s.log| ==> !s.log[i].synced;
      assert 0 < i ==> s.log[i - 1].synced;
    }
  }

  lemma SelectKeepsInv(s: State, t: nat)
    requires Inv(s) && Enabled(s, Select(t))
    ensures Inv(Next(s, Select(t)))
    ensures Unsynced(s.log) == Ids(|s.delivered|, s.added)
  {
    assert s.lock == Some(t) && Lag(s) == 0;
    UnsyncedAre(s);
  }

  lemma UploadKeepsInv(s: State, t: nat, ok: bool)
    requires Inv(s) && Enabled(s, Upload(t, ok))
    ensures Inv(Next(s, Upload(t, ok)))
  {
    assert s.lock == Some(t) && Lag(s) == 0;
    var u, n := Next(s, Upload(t, ok)), |s.phases[t].batch|;
    if ok {
      assert u.delivered == Ids(0, |s.delivered| + n);
    }
  }

  lemma FlagKeepsInv(s: State, t: nat)
    requires Inv(s) && Enabled(s, FlagOne(t))
    ensures Inv(Next(s, FlagOne(t)))
  {
    assert s.lock == Some(t) && PhaseOk(s, s.phases[t]);
    var u, p := Next(s, FlagOne(t)), s.phases[t];
    var id := p.batch[p.done];
    assert First(u) == First(s);
    if p.ok {
      assert Lag(u) == Lag(s) - 1 && id == |s.delivered| - Lag(s);
    } else {
      assert Lag(u) == Lag(s) == 0 && id >= |s.delivered|;
    }
  }

  lemma OthersKeepInv(s: State, a: Action)
    requires Inv(s) && Enabled(s, a) && (a.Acquire? || a.StartTrim? || a.PopOne? || a.Release?)
    ensures Inv(Next(s, a))
  {
    var u := Next(s, a);
    assert !a.Acquire? ==> s.lock == Some(a.t) && PhaseOk(s, s.phases[a.t]);
    assert Lag(u) == Lag(s) == 0;
    if a.PopOne? {
      assert s.log[0].synced && First(u) == First(s) + 1;
    }
  }

  lemma StepKeepsInv(s: State, a: Action)
    requires Inv(s) && Enabled(s, a)
    ensures Inv(Next(s, a))
  {
    match a
    case Append => AppendKeepsInv(s);
    case Select(t) => SelectKeepsInv(s, t);
    case Upload(t, ok) => UploadKeepsInv(s, t, ok);
    case FlagOne(t) => FlagKeepsInv(s, t);
    case _ => OthersKeepInv(s, a);
  }

  lemma {:induction false} RunKeepsInv(s: State, actions: seq<Action>)
    requires Inv(s) && IsRun(s, actions)
    ensures Inv(After(s, actions))
    decreases |actions|
  {
    if actions != [] {
      StepKeepsInv(s, actions[0]);
      RunKeepsInv(Next(s, actions[0]), actions[1..]);
    }
  }

  /** After every run the server has a prefix of what was added, in order and without repeats; the
      synced messages come first in the list; and nothing undelivered has left it. */
  lemma DeliveryInOrder(existing: nat, actions: seq<Action>)
    requires IsRun(Initial(existing), actions)
    ensures var s := After(Initial(existing), actions);
      && |s.delivered| <= s.added && s.delivered == Ids(0, |s.delivered|)
      && Wellformed(s.log)
      && (forall id :: |s.delivered| <= id < s.added ==> Message(id, false) in s.log)
  {
    RunKeepsInv(Initial(existing), actions);
    var s := After(Initial(existing), actions);
    forall id | |s.delivered| <= id < s.added ensures Message(id, false) in s.log {
      assert s.log[id - First(s)] == Message(id, false);
    }
  }

  /** Whenever no upload is waiting to be flagged, the delivered messages followed by the unsynced
      ones are exactly the added ones, in order. */
  lemma NothingLostOrRepeated(existing: nat, actions: seq<Action>)
    requires IsRun(Initial(existing), actions)
    requires Lag(After(Initial(existing), actions)) == 0
    ensures var s := After(Initial(existing), actions);
      s.delivered + Unsynced(s.log) == Ids(0, s.added)
  {
    RunKeepsInv(Initial(existing), actions);
    UnsyncedAre(After(Initial(existing), actions));
  }

  /** An upload that succeeds sends only messages the server does not have. */
  lemma UploadsAreNew(existing: nat, actions: seq<Action>, t: nat)
    requires IsRun(Initial(existing), actions)
    requires Enabled(After(Initial(existing), actions), Upload(t, true))
    ensures var s := After(Initial(existing), actions);
      forall id :: id in s.phases[t].batch ==> id !in s.delivered
  {
    RunKeepsInv(Initial(existing), actions);
  }

  // ----- One thread undisturbed -----

  /** Some run goes from the one state to the other. */
  ghost predicate Leads(s: State, u: State) {
    exists actions :: IsRun(s, actions) && After(s, actions) == u
  }

  lemma LeadsNowhere(s: State)
    ensures Leads(s, s)
  {
    assert IsRun(s, []) && After(s, []) == s;
  }

  lemma {:induction false} OneMore(s: State, actions: seq<Action>, a: Action)
    requires IsRun(s, actions) && Enabled(After(s, actions), a)
    ensures IsRun(s, actions + [a]) && After(s, actions + [a]) == Next(After(s, actions), a)
    decreases |actions|
  {
    if actions == [] {
      assert (actions + [a])[1..] == [];
    } else {
      OneMore(Next(s, actions[0]), actions[1..], a);
      assert (actions + [a])[1..] == actions[1..] + [a];
    }
  }

  lemma Step(s: State, u: State, a: Action) returns (v: State)
    requires Leads(s, u) && Enabled(u, a)
    ensures v == Next(u, a) && Leads(s, v)
  {
    v := Next(u, a);
    var actions :| IsRun(s, actions) && After(s, actions) == u;
    OneMore(s, actions, a);
  }

  lemma {:induction false} FlagRun(s: State, u: State, t: nat) returns (v: State)
    requires Leads(s, u) && PhaseOf(u, t).Answered? && PhaseOf(u, t).done <= |PhaseOf(u, t).batch|
    ensures Leads(s, v)
    ensures var p := u.phases[t];
      v == u.(log := FlagAll(u.log, p.batch[p.done..], p.ok), phases := u.phases[t := Answered(p.batch, p.ok, |p.batch|)])
    decreases |PhaseOf(u, t).batch| - PhaseOf(u, t).done
  {
    var p := u.phases[t];
    v := u;
    if p.done < |p.batch| {
      var w := Step(s, u, FlagOne(t));
      v := FlagRun(s, w, t);
      assert p.batch[p.done..][1..] == p.batch[p.done + 1..] && p.batch[p.done..][0] == p.batch[p.done];
    } else {
      assert u.phases == u.phases[t := Answered(p.batch, p.ok, |p.batch|)];
    }
  }

  lemma {:induction false} PopRun(s: State, u: State, t: nat) returns (v: State)
    requires Leads(s, u) && PhaseOf(u, t).Trimming?
    ensures Leads(s, v) && PhaseOf(v, t).Trimming? && !CanPop(v.log, v.phases[t].excess)
    ensures v == u.(log := Trim(u.log, u.phases[t].excess), phases := u.phases[t := v.phases[t]])
    decreases |u.log|
  {
    v := u;
    if CanPop(u.log, u.phases[t].excess) {
      var w := Step(s, u, PopOne(t));
      v := PopRun(s, w, t);
    } else {
      assert u.phases == u.phases[t := u.phases[t]];
    }
  }

  lemma SelectRun(s: State, t: nat) returns (u: State)
    requires s.lock.None? && PhaseOf(s, t).Outside?
    ensures Leads(s, u) && u == s.(lock := Some(t), phases := s.phases[t := Selected(Unsynced(s.log))])
  {
    LeadsNowhere(s);
    u := Step(s, s, Acquire(t));
    u := Step(s, u, Select(t));
  }

  lemma UploadRun(s: State, u: State, t: nat, ok: bool) returns (v: State)
    requires Leads(s, u) && PhaseOf(u, t).Selected? && u.phases[t].batch != []
    ensures Leads(s, v)
    ensures var batch := u.phases[t].batch;
      v == u.(log := FlagAll(u.log, batch, ok), delivered := if ok then u.delivered + batch else u.delivered,
              phases := u.phases[t := Answered(batch, ok, |batch|)])
  {
    var batch := u.phases[t].batch;
    v := Step(s, u, Upload(t, ok));
    v := FlagRun(s, v, t);
    assert batch[0..] == batch;
  }

  /** A flush that no other thread disturbs is that of the class: it leaves the same list and delivers the
      same messages. */
  lemma UndisturbedFlush(s: State, t: nat, ok: bool) returns (u: State)
    requires s.lock.None? && PhaseOf(s, t).Outside?
    ensures Leads(s, u)
    ensures u == s.(log := Flushed(s.log, ok), delivered := if ok then s.delivered + Unsynced(s.log) else s.delivered,
                    phases := s.phases[t := Outside])
  {
    u := SelectRun(s, t);
    if Unsynced(s.log) != [] {
      u := UploadRun(s, u, t, ok);
      if ok {
        u := Step(s, u, StartTrim(t));
        u := PopRun(s, u, t);
      }
    } else {
      assert s.delivered + [] == s.delivered && FlagAll(s.log, [], ok) == s.log;
    }
    u := Step(s, u, Release(t));
  }
}
