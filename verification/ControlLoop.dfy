/**
 The server's control channel loop (src/server.rs, `ControlChannel::run`): the
 count of data channels requested and not yet arrived, and the deadline that
 ends a stuck control channel.

 One `Turn` is one completed `select!` with the body of its branch: the branch that
 woke, the instant it did, and the instant its body was done. Bodies that write to
 the client may take any time, and during a write nothing else is polled. `After`
 is the state after a script of turns; `ControlChannel.Run` is the loop itself,
 proved to compute it.
 */
module ControlLoop {
  import opened Basics

  const MIN_DATA_CHANNEL_TIMEOUT: nat := 10
  const U64_MAX: nat := 0xFFFF_FFFF_FFFF_FFFF

  /** The budget of a requested data channel, in seconds. */
  function DataChannelTimeout(heartbeatInterval: nat): (t: nat)
    requires heartbeatInterval <= U64_MAX
    ensures MIN_DATA_CHANNEL_TIMEOUT <= t <= U64_MAX
    ensures heartbeatInterval <= t
    ensures heartbeatInterval < 5 ==> t == 10
    ensures 5 <= heartbeatInterval <= U64_MAX / 2 ==> t == 2 * heartbeatInterval
    ensures heartbeatInterval > U64_MAX / 2 ==> t == U64_MAX
  {
    var doubled := if 2 * heartbeatInterval > U64_MAX then U64_MAX else 2 * heartbeatInterval;
    Max(doubled, MIN_DATA_CHANNEL_TIMEOUT)
  }

  datatype Wake =
    | Request(written: bool)    // a data channel request; was the command written?
    | RequestsClosed            // every requester is gone
    | Arrived                   // a data channel was handed over
    | ArrivalsClosed            // the handle of this control channel was dropped
    | DeadlineFired
    | Heartbeat(written: bool)
    | Shutdown

  datatype Turn = Turn(at: nat, until: nat, wake: Wake)

  /** The branches whose body writes to the client. */
  predicate Writes(w: Wake) { w.Request? || w.Heartbeat? }

  datatype State =
    | Waiting(pending: nat, deadline: Option<nat>, arrivalsClosed: bool)
    | Stopped
    | Stuck

  const Start := Waiting(0, None, false)

  /** What one turn does to the loop's variables. */
  function Step(timeout: nat, s: State, t: Turn): State {
    if !s.Waiting? then s else
    match t.wake
    case Request(false) => Stopped
    case Request(true) =>
      s.(pending := s.pending + 1,
         deadline := if s.deadline.None? then Some(t.until + timeout) else s.deadline)
    case RequestsClosed => Stopped
    case Arrived =>
      var left := if s.pending == 0 then 0 else s.pending - 1;
      s.(pending := left, deadline := if left > 0 then Some(t.at + timeout) else None)
    case ArrivalsClosed => s.(arrivalsClosed := true)
    case DeadlineFired => Stuck
    case Heartbeat(written) => if written then s else Stopped
    case Shutdown => Stopped
  }

  /**
   Can a loop that came to its `select!` at `now` go through this turn? If the
   deadline is due by then, some branch runs at once, though not necessarily this
   one; if it is not, no branch runs later than it is.
   */
  predicate Enabled(s: State, now: nat, t: Turn) {
    && s.Waiting?
    && now <= t.at <= t.until
    && (s.deadline.Some? ==> t.at <= Max(now, s.deadline.value))
    && (!Writes(t.wake) ==> t.until == t.at)
    && (t.wake.DeadlineFired? ==> s.deadline.Some? && s.deadline.value <= t.at)
    && (t.wake.Arrived? || t.wake.ArrivalsClosed? ==> !s.arrivalsClosed)
  }

  function After(timeout: nat, turns: seq<Turn>): State {
    if turns == [] then Start
    else Step(timeout, After(timeout, turns[..|turns|-1]), turns[|turns|-1])
  }

  /** When the last turn was done: the loop is at its `select!` again. */
  function Now(turns: seq<Turn>): nat { if turns == [] then 0 else turns[|turns|-1].until }

  /** The scripts the loop can really go through. */
  predicate Possible(timeout: nat, turns: seq<Turn>) {
    turns == [] ||
    (var before, t := turns[..|turns|-1], turns[|turns|-1];
     Possible(timeout, before) && Enabled(After(timeout, before), Now(before), t))
  }

  /** One more turn. */
  lemma Further(timeout: nat, turns: seq<Turn>, t: Turn)
    requires Possible(timeout, turns) && Enabled(After(timeout, turns), Now(turns), t)
    ensures Possible(timeout, turns + [t]) && Now(turns + [t]) == t.until
    ensures After(timeout, turns + [t]) == Step(timeout, After(timeout, turns), t)
  {
    assert (turns + [t])[..|turns + [t]| - 1] == turns;
  }

  // ----- When the loop is over -----

  /** What ends the loop: shutdown, nobody left to ask, the alarm, or a write that failed. */
  predicate Ends(w: Wake) {
    w.Shutdown? || w.RequestsClosed? || w.DeadlineFired? || w == Request(false) || w == Heartbeat(false)
  }

  /** The first turn that ends the loop. */
  predicate FirstEnd(turns: seq<Turn>, k: nat) {
    k < |turns| && Ends(turns[k].wake) && forall j :: 0 <= j < k ==> !Ends(turns[j].wake)
  }

  /**
   For every script: the loop goes on if and only if no turn ends it; otherwise it is
   stuck or stopped, by which of them came first. It has seen the arrival queue closed
   if and only if some turn said so.
   */
  lemma {:induction false} OutcomeIs(timeout: nat, turns: seq<Turn>)
    ensures var s := After(timeout, turns);
            && (s.Waiting? <==> forall k :: 0 <= k < |turns| ==> !Ends(turns[k].wake))
            && (s.Waiting? ==>
                  (s.arrivalsClosed <==> exists k :: 0 <= k < |turns| && turns[k].wake == ArrivalsClosed))
    ensures forall k: nat :: FirstEnd(turns, k) ==>
              After(timeout, turns) == if turns[k].wake == DeadlineFired then Stuck else Stopped
  {
    if turns != [] {
      var before, t := turns[..|turns|-1], turns[|turns|-1];
      OutcomeIs(timeout, before);
      assert forall k :: 0 <= k < |before| ==> before[k] == turns[k];
      forall k: nat | FirstEnd(turns, k)
        ensures After(timeout, turns) == if turns[k].wake == DeadlineFired then Stuck else Stopped
      {
        assert k < |before| ==> FirstEnd(before, k);
      }
    }
  }

  // ----- Requests and their answers -----

  /** When the command for each request still without a data channel was written, oldest first. */
  function Outstanding(turns: seq<Turn>): seq<nat> {
    if turns == [] then [] else
    var before, t := Outstanding(turns[..|turns|-1]), turns[|turns|-1];
    if t.wake == Request(true) then before + [t.until]
    else if t.wake.Arrived? && before != [] then before[1..]
    else before
  }

  /** (commanded, arrival taken) for each request that got its data channel, in order. */
  function Answered(turns: seq<Turn>): seq<(nat, nat)> {
    if turns == [] then [] else
    var rest, t := turns[..|turns|-1], turns[|turns|-1];
    if t.wake.Arrived? && Outstanding(rest) != [] then Answered(rest) + [(Outstanding(rest)[0], t.at)]
    else Answered(rest)
  }

  /** When the command for each request was written, oldest first. */
  function RequestTimes(turns: seq<Turn>): seq<nat> {
    if turns == [] then [] else
    var rest, t := RequestTimes(turns[..|turns|-1]), turns[|turns|-1];
    if t.wake == Request(true) then rest + [t.until] else rest
  }

  /** The k-th answered request is the k-th request: nothing is answered twice or out of order. */
  lemma {:induction false} AnsweredInOrder(turns: seq<Turn>)
    ensures |RequestTimes(turns)| == |Answered(turns)| + |Outstanding(turns)|
    ensures forall k :: 0 <= k < |Answered(turns)| ==> Answered(turns)[k].0 == RequestTimes(turns)[k]
    ensures RequestTimes(turns)[|Answered(turns)|..] == Outstanding(turns)
  {
    if turns != [] {
      AnsweredInOrder(turns[..|turns|-1]);
    }
  }

  /** When the last arrival was taken; 0 if none was. */
  function LastArrival(turns: seq<Turn>): nat {
    if turns == [] then 0
    else if turns[|turns|-1].wake.Arrived? then turns[|turns|-1].at
    else LastArrival(turns[..|turns|-1])
  }

  /** Every request gets its data channel, and is waited for, strictly within the timeout. */
  ghost predicate Prompt(timeout: nat, turns: seq<Turn>) {
    && (forall i :: 0 <= i < |Answered(turns)| ==> Answered(turns)[i].1 < Answered(turns)[i].0 + timeout)
    && (forall i :: 0 <= i < |Outstanding(turns)| ==> Now(turns) < Outstanding(turns)[i] + timeout)
  }

  lemma {:induction false} PastIsPast(timeout: nat, turns: seq<Turn>)
    requires Possible(timeout, turns)
    ensures forall r :: r in Outstanding(turns) ==> r <= Now(turns)
    ensures LastArrival(turns) <= Now(turns)
  {
    if turns != [] {
      var before, t := turns[..|turns|-1], turns[|turns|-1];
      PastIsPast(timeout, before);
      forall r | r in Outstanding(turns) ensures r <= t.until {
        assert r in Outstanding(before) || r == t.until;
      }
    }
  }

  /**
   The exact meaning of the loop's two variables: the deadline is armed exactly
   while something is pending, one timeout after the later of the last arrival
   and the oldest outstanding request.
   */
  lemma {:induction false} DeadlineExact(timeout: nat, turns: seq<Turn>)
    requires Possible(timeout, turns)
    ensures var s := After(timeout, turns);
            s.Waiting? ==>
              && s.pending == |Outstanding(turns)|
              && (s.deadline.Some? <==> s.pending > 0)
              && (s.pending > 0 ==>
                    s.deadline == Some(Max(LastArrival(turns), Outstanding(turns)[0]) + timeout))
  {
    if turns != [] {
      var before := turns[..|turns|-1];
      DeadlineExact(timeout, before);
      PastIsPast(timeout, before);
      if Outstanding(turns) != [] {
        assert Outstanding(turns)[0] in Outstanding(before) || Outstanding(turns)[0] == Now(turns);
      }
    }
  }

  /** If every request is answered strictly within the timeout, the alarm never fires. */
  lemma {:induction false} NoFalseAlarm(timeout: nat, turns: seq<Turn>)
    requires Possible(timeout, turns) && Prompt(timeout, turns)
    ensures After(timeout, turns) != Stuck
  {
    if turns != [] {
      var before, t := turns[..|turns|-1], turns[|turns|-1];
      assert Prompt(timeout, before) by {
        var asked, answered := Outstanding(before), Answered(before);
        assert forall i :: 0 <= i < |answered| ==> answered[i] == Answered(turns)[i];
        if t.wake.Arrived? && asked != [] {
          assert Answered(turns)[|answered|] == (asked[0], t.at);
          assert forall i :: 0 < i < |asked| ==> asked[i] == Outstanding(turns)[i-1];
        } else {
          assert forall i :: 0 <= i < |asked| ==> asked[i] == Outstanding(turns)[i];
        }
      }
      NoFalseAlarm(timeout, before);
      if t.wake.DeadlineFired? {
        assert Outstanding(turns) == Outstanding(before);
        DeadlineExact(timeout, before);
      }
    }
  }

  /**
   When the alarm fires, a whole timeout has passed with a request outstanding and no
   arrival taken. It fires at the deadline, or when the write is done that was in
   progress then: exactly at the deadline if and only if no write went past it.
   */
  lemma AlarmIsJustified(timeout: nat, turns: seq<Turn>, t: Turn)
    requires Possible(timeout, turns + [t]) && t.wake.DeadlineFired?
    ensures Outstanding(turns) != []
    ensures var due := Max(LastArrival(turns), Outstanding(turns)[0]) + timeout;
            && After(timeout, turns).deadline == Some(due)
            && t.at == Max(due, Now(turns))
            && (t.at == due <==> Now(turns) <= due)
  {
    assert (turns + [t])[..|turns + [t]| - 1] == turns;
    DeadlineExact(timeout, turns);
  }

  predicate NoArrival(turns: seq<Turn>) {
    forall t :: t in turns ==> !t.wake.Arrived?
  }

  /** Turns the loop takes without leaving it of its own accord. */
  predicate NoExit(turns: seq<Turn>) {
    forall t :: t in turns ==>
      t.wake == Request(true) || t.wake == Heartbeat(true) || t.wake.ArrivalsClosed? || t.wake.DeadlineFired?
  }

  /** Requests and heartbeats do not move an armed deadline. */
  lemma {:induction false} DeadlineFrozen(timeout: nat, turns: seq<Turn>, more: seq<Turn>, due: nat)
    requires Possible(timeout, turns + more) && NoArrival(more)
    requires After(timeout, turns).Waiting? && After(timeout, turns).deadline == Some(due)
    ensures var s' := After(timeout, turns + more);
            && (s'.Waiting? ==> s'.deadline == Some(due))
            && (NoExit(more) ==> !s'.Stopped?)
  {
    if more == [] {
      assert turns + more == turns;
    } else {
      var before, t := more[..|more|-1], more[|more|-1];
      assert (turns + more)[..|turns + more| - 1] == turns + before;
      assert (turns + more)[|turns + more| - 1] == t;
      assert t in more && forall u :: u in before ==> u in more;
      DeadlineFrozen(timeout, turns, before, due);
    }
  }

  /** With no arrival, a turn begun after the deadline was due was begun the instant the turn before was done. */
  lemma {:induction false} NoIdling(timeout: nat, turns: seq<Turn>, more: seq<Turn>, due: nat, k: nat)
    requires Possible(timeout, turns + more) && NoArrival(more) && k < |more|
    requires After(timeout, turns).Waiting? && After(timeout, turns).deadline == Some(due)
    ensures Now(turns + more[..k]) <= more[k].at <= Max(due, Now(turns + more[..k]))
    decreases |more|
  {
    var before := more[..|more|-1];
    assert (turns + more)[..|turns + more| - 1] == turns + before;
    assert forall t :: t in before ==> t in more;
    if k < |before| {
      assert before[..k] == more[..k];
      NoIdling(timeout, turns, before, due, k);
    } else {
      DeadlineFrozen(timeout, turns, before, due);
      assert Enabled(After(timeout, turns + before), Now(turns + before), more[k]);
    }
  }

  /**
   `turns` is every turn done by the instant `clock`, and `writing` is when the write
   in progress was begun, if one is. A loop with none that still waits at `clock` has
   been at its `select!` since its last turn, and its deadline was not due before.
   */
  predicate Covers(timeout: nat, turns: seq<Turn>, writing: Option<nat>, clock: nat) {
    && Possible(timeout, turns)
    && Now(turns) <= clock
    && var s := After(timeout, turns);
       match writing
       case None => s.Waiting? && s.deadline.Some? ==> clock <= Max(Now(turns), s.deadline.value)
       case Some(since) =>
         && s.Waiting? && Now(turns) <= since <= clock
         && (s.deadline.Some? ==> since <= Max(Now(turns), s.deadline.value))
  }

  /**
   With something pending and no further arrival, a loop that is not over once its
   deadline has passed is busy writing, or has this instant stopped writing; unless
   it was stopped, it ends as stuck, by the alarm.
   */
  lemma StuckLoopEnds(
      timeout: nat, turns: seq<Turn>, more: seq<Turn>, writing: Option<nat>, clock: nat, due: nat)
    requires Possible(timeout, turns) && After(timeout, turns).Waiting?
    requires After(timeout, turns).pending > 0 && After(timeout, turns).deadline == Some(due)
    requires Covers(timeout, turns + more, writing, clock) && NoArrival(more) && due < clock
    ensures Outstanding(turns) != [] && due == Max(LastArrival(turns), Outstanding(turns)[0]) + timeout
    ensures writing.None? && Now(turns + more) < clock ==> !After(timeout, turns + more).Waiting?
    ensures NoExit(more) && !After(timeout, turns + more).Waiting? ==> EndedByAlarm(timeout, turns, more, due)
  {
    DeadlineExact(timeout, turns);
    DeadlineFrozen(timeout, turns, more, due);
    if NoExit(more) && !After(timeout, turns + more).Waiting? {
      EndsByAlarm(timeout, turns, more, due);
    }
  }

  /**
   The loop is stuck since the last of the turns, the alarm: it ran at the deadline, or
   the instant a write across the deadline was done.
   */
  predicate EndedByAlarm(timeout: nat, turns: seq<Turn>, more: seq<Turn>, due: nat) {
    && After(timeout, turns + more) == Stuck
    && more != []
    && var last, before := more[|more|-1], Now(turns + more[..|more|-1]);
       && last.wake.DeadlineFired? && last.at == Max(due, before)
       && (last.at == due <==> before <= due)
  }

  lemma EndsByAlarm(timeout: nat, turns: seq<Turn>, more: seq<Turn>, due: nat)
    requires Possible(timeout, turns + more) && NoArrival(more) && NoExit(more)
    requires After(timeout, turns).Waiting? && After(timeout, turns).deadline == Some(due)
    requires !After(timeout, turns + more).Waiting?
    ensures EndedByAlarm(timeout, turns, more, due)
  {
    assert turns + [] == turns;
    var before, t := more[..|more|-1], more[|more|-1];
    assert (turns + more)[..|turns + more| - 1] == turns + before;
    assert (turns + more)[|turns + more| - 1] == t;
    assert t in more && forall u :: u in before ==> u in more;
    DeadlineFrozen(timeout, turns, before, due);
    NoIdling(timeout, turns, more, due, |before|);
    assert After(timeout, turns + more) == Step(timeout, After(timeout, turns + before), t);
  }

  /** Whenever the deadline is due at a `select!`, its branch is the one that runs. */
  predicate AlarmWins(turns: seq<Turn>, writing: Option<nat>, due: nat) {
    && (forall t :: t in turns && due <= t.at ==> t.wake.DeadlineFired?)
    && (writing.Some? ==> writing.value < due)
  }

  /** A write begun before `due` goes on at `clock`, or was done this instant. */
  predicate WriteAcross(turns: seq<Turn>, writing: Option<nat>, due: nat, clock: nat) {
    match writing
    case Some(since) => since < due
    case None => turns != [] && turns[|turns|-1].at < due < clock == turns[|turns|-1].until
  }

  /**
   If the alarm wins whenever it is due, then with no further arrival the loop is over
   by the later of the deadline and the end of the one write in progress then.
   */
  lemma AlarmEndsLoop(
      timeout: nat, turns: seq<Turn>, more: seq<Turn>, writing: Option<nat>, clock: nat, due: nat)
    requires Possible(timeout, turns) && After(timeout, turns).Waiting?
    requires After(timeout, turns).pending > 0 && After(timeout, turns).deadline == Some(due)
    requires Covers(timeout, turns + more, writing, clock) && NoArrival(more) && due < clock
    requires AlarmWins(turns + more, writing, due)
    ensures After(timeout, turns + more).Waiting? ==> WriteAcross(turns + more, writing, due, clock)
    ensures NoExit(more) && !After(timeout, turns + more).Waiting? ==> EndedByAlarm(timeout, turns, more, due)
  {
    var all := turns + more;
    DeadlineFrozen(timeout, turns, more, due);
    StuckLoopEnds(timeout, turns, more, writing, clock, due);
    if After(timeout, all).Waiting? && writing.None? {
      var last := all[|all|-1];
      assert Now(all) == clock && last in all;
      assert After(timeout, all) == Step(timeout, After(timeout, all[..|all|-1]), last);
    }
  }

  /** A write may hold the alarm back for as long as it takes. */
  lemma WriteDelaysAlarm(timeout: nat, delay: nat) returns (turns: seq<Turn>)
    ensures Covers(timeout, turns, None, timeout + delay) && Now(turns) == timeout + delay
    ensures After(timeout, turns) == Waiting(1, Some(timeout), false) && RequestTimes(turns) == [0]
  {
    var request, beat := Turn(0, 0, Request(true)), Turn(0, timeout + delay, Heartbeat(true));
    Further(timeout, [], request);
    Further(timeout, [] + [request], beat);
    turns := [] + [request] + [beat];
    assert turns[..1] == [] + [request] && ([] + [request])[..0] == [];
    assert RequestTimes(turns[..1]) == [0];
  }

  /** An arrival taken after the deadline was due disarms it, if its branch runs before the alarm's. */
  lemma LateArrivalRescues(timeout: nat, delay: nat) returns (turns: seq<Turn>)
    ensures Possible(timeout, turns) && LastArrival(turns) == timeout + delay
    ensures RequestTimes(turns) == [0] && After(timeout, turns) == Waiting(0, None, false)
  {
    var late := timeout + delay;
    var before := WriteDelaysAlarm(timeout, delay);
    Further(timeout, before, Turn(late, late, Arrived));
    turns := before + [Turn(late, late, Arrived)];
    assert turns[..|turns|-1] == before;
  }

  /** The loop as it is written: two local variables, updated turn by turn. */
  class ControlChannel {
    const dataChTimeout: nat
    var pendingDataCh: nat
    var dataChDeadline: Option<nat>
    var arrivedRxClosed: bool

    constructor (timeout: nat)
      ensures dataChTimeout == timeout
      ensures Waiting(pendingDataCh, dataChDeadline, arrivedRxClosed) == Start
    {
      dataChTimeout := timeout;
      pendingDataCh := 0;
      dataChDeadline := None;
      arrivedRxClosed := false;
    }

    /** Runs the loop over a script; the result says whether it is still waiting at its end. */
    method Run(turns: seq<Turn>) returns (outcome: State)
      requires Waiting(pendingDataCh, dataChDeadline, arrivedRxClosed) == Start
      modifies this
      ensures outcome == After(dataChTimeout, turns)
      ensures outcome.Waiting? ==> outcome == Waiting(pendingDataCh, dataChDeadline, arrivedRxClosed)
    {
      var i := 0;
      while i < |turns|
        invariant 0 <= i <= |turns|
        invariant After(dataChTimeout, turns[..i]) == Waiting(pendingDataCh, dataChDeadline, arrivedRxClosed)
      {
        var turn := turns[i];
        assert turns[..i+1][..i] == turns[..i];
        match turn.wake {
          case Request(written) =>
            if !written {
              OverIsOver(dataChTimeout, turns, i + 1);
              return Stopped;
            }
            pendingDataCh := pendingDataCh + 1;
            if dataChDeadline.None? {
              dataChDeadline := Some(turn.until + dataChTimeout);
            }
          case RequestsClosed =>
            OverIsOver(dataChTimeout, turns, i + 1);
            return Stopped;
          case Arrived =>
            pendingDataCh := if pendingDataCh == 0 then 0 else pendingDataCh - 1;
            dataChDeadline := if pendingDataCh > 0 then Some(turn.at + dataChTimeout) else None;
          case ArrivalsClosed =>
            arrivedRxClosed := true;
          case DeadlineFired =>
            OverIsOver(dataChTimeout, turns, i + 1);
            return Stuck;
          case Heartbeat(written) =>
            if !written {
              OverIsOver(dataChTimeout, turns, i + 1);
              return Stopped;
            }
          case Shutdown =>
            OverIsOver(dataChTimeout, turns, i + 1);
            return Stopped;
        }
        i := i + 1;
      }
      assert turns[..i] == turns;
      return Waiting(pendingDataCh, dataChDeadline, arrivedRxClosed);
    }
  }

  /** A loop that has ended stays as it ended. */
  lemma {:induction false} OverIsOver(timeout: nat, turns: seq<Turn>, n: nat)
    requires n <= |turns| && !After(timeout, turns[..n]).Waiting?
    ensures After(timeout, turns) == After(timeout, turns[..n])
  {
    if n == |turns| {
      assert turns[..n] == turns;
    } else {
      assert turns[..|turns|-1][..n] == turns[..n];
      OverIsOver(timeout, turns[..|turns|-1], n);
    }
  }
}
