/**
 The client's count of consecutive data channel setup failures (src/client.rs,
 `run_data_channel`, `note_data_channel_failure`): tasks share an atomic u32 and a
 rebuild signal queue of capacity one. Counting and signalling are separate steps
 of a task, with any steps of other tasks in between.
 */
module FailureCounter {
  import opened Runs

  const MAX_CONSECUTIVE_DATA_CHANNEL_FAILURES: nat := 3
  const U32: nat := 0x1_0000_0000

  datatype Task =
    | SettingUp
    | Counted(failures: nat, at: nat)  // the value it counted to, and how much history there was then
    | Forwarding
    | Finished

  datatype State = State(
    count: nat,           // the shared atomic
    signals: seq<nat>,    // force_rebuild
    tasks: seq<Task>,
    setups: seq<bool>)    // the outcome of every setup so far, in the order of the atomic's updates

  datatype Step =
    | Spawn
    | SetupFails(t: nat)
    | Signal(t: nat)          // the failed task signals if it counted far enough
    | SetupSucceeds(t: nat)
    | ForwardingEnds(t: nat)  // with or without an error
    | TakeSignal              // the control channel receives

  /** `fetch_add(1) + 1` on 32 bits. */
  function Incremented(count: nat): nat { if count + 1 == U32 then 0 else count + 1 }

  lemma IncrementWraps(n: nat)
    ensures Incremented(n % U32) == (n + 1) % U32
  {
  }

  const Init := State(0, [], [], [])

  predicate Enabled(s: State, step: Step) {
    match step
    case Spawn => true
    case SetupFails(t) => t < |s.tasks| && s.tasks[t].SettingUp?
    case Signal(t) => t < |s.tasks| && s.tasks[t].Counted?
    case SetupSucceeds(t) => t < |s.tasks| && s.tasks[t].SettingUp?
    case ForwardingEnds(t) => t < |s.tasks| && s.tasks[t].Forwarding?
    case TakeSignal => s.signals != []
  }

  function Next(s: State, step: Step): State
    requires Enabled(s, step)
  {
    match step
    case Spawn => s.(tasks := s.tasks + [SettingUp])
    case SetupFails(t) =>
      var n := Incremented(s.count);
      s.(count := n, tasks := s.tasks[t := Counted(n, |s.setups| + 1)], setups := s.setups + [false])
    case Signal(t) =>
      var n := s.tasks[t].failures;
      s.(tasks := s.tasks[t := Finished],
         signals := if n >= MAX_CONSECUTIVE_DATA_CHANNEL_FAILURES && s.signals == [] then [n] else s.signals)
    case SetupSucceeds(t) => s.(count := 0, tasks := s.tasks[t := Forwarding], setups := s.setups + [true])
    case ForwardingEnds(t) => s.(tasks := s.tasks[t := Finished])
    case TakeSignal => s.(signals := s.signals[1..])
  }

  /** Setup failures since the last successful setup. */
  function Streak(setups: seq<bool>): nat {
    if setups == [] || setups[|setups|-1] then 0 else 1 + Streak(setups[..|setups|-1])
  }

  /** `n` was counted when `at` setups had ended. */
  predicate Honest(s: State, n: nat, at: nat) {
    0 < at <= |s.setups| && !s.setups[at-1] && n == Streak(s.setups[..at]) % U32
  }

  ghost predicate Inv(s: State) {
    && s.count == Streak(s.setups) % U32
    && |s.signals| <= 1
    && (forall t :: 0 <= t < |s.tasks| && s.tasks[t].Counted? ==> Honest(s, s.tasks[t].failures, s.tasks[t].at))
    && (s.signals != [] ==>
          && s.signals[0] >= MAX_CONSECUTIVE_DATA_CHANNEL_FAILURES
          && exists at: nat :: Honest(s, s.signals[0], at))
  }

  /** The history only grows. */
  predicate Extends(s: State, s': State) {
    |s.setups| <= |s'.setups| && s'.setups[..|s.setups|] == s.setups
  }

  lemma NextExtends(s: State, step: Step)
    requires Enabled(s, step)
    ensures Extends(s, Next(s, step))
    ensures forall t :: 0 <= t < |s.tasks| && !(step.SetupFails? && t == step.t) && Next(s, step).tasks[t].Counted? ==>
              s.tasks[t] == Next(s, step).tasks[t]
    ensures forall t :: |s.tasks| <= t < |Next(s, step).tasks| ==> !Next(s, step).tasks[t].Counted?
  {
  }

  lemma HonestStays(s: State, s': State, n: nat, at: nat)
    requires Honest(s, n, at) && Extends(s, s')
    ensures Honest(s', n, at)
  {
    assert s'.setups[..at] == s.setups[..at];
    assert s'.setups[at-1] == s.setups[at-1];
  }

  lemma KeepsTasksHonest(s: State, step: Step)
    requires Inv(s) && Enabled(s, step)
    ensures var s' := Next(s, step);
            forall t :: 0 <= t < |s'.tasks| && s'.tasks[t].Counted? ==> Honest(s', s'.tasks[t].failures, s'.tasks[t].at)
  {
    var s' := Next(s, step);
    NextExtends(s, step);
    forall t | 0 <= t < |s'.tasks| && s'.tasks[t].Counted?
      ensures Honest(s', s'.tasks[t].failures, s'.tasks[t].at)
    {
      if step.SetupFails? && t == step.t {
        OwnCountIsHonest(s, t);
      } else {
        HonestStays(s, s', s.tasks[t].failures, s.tasks[t].at);
      }
    }
  }

  lemma OwnCountIsHonest(s: State, t: nat)
    requires Inv(s) && Enabled(s, SetupFails(t))
    ensures var s' := Next(s, SetupFails(t)); Honest(s', s'.tasks[t].failures, s'.tasks[t].at)
  {
    var s' := Next(s, SetupFails(t));
    IncrementWraps(Streak(s.setups));
    assert s'.setups[..|s'.setups|] == s'.setups;
    assert s'.setups[..|s.setups|] == s.setups;
  }

  lemma KeepsCount(s: State, step: Step)
    requires s.count == Streak(s.setups) % U32 && Enabled(s, step)
    ensures Next(s, step).count == Streak(Next(s, step).setups) % U32
  {
    IncrementWraps(Streak(s.setups));
    assert (s.setups + [false])[..|s.setups|] == s.setups;
  }

  lemma KeepsSignals(s: State, step: Step)
    requires Inv(s) && Enabled(s, step)
    ensures var s' := Next(s, step);
            s'.signals != [] ==>
              && |s'.signals| == 1
              && s'.signals[0] >= MAX_CONSECUTIVE_DATA_CHANNEL_FAILURES
              && exists at: nat :: Honest(s', s'.signals[0], at)
  {
    var s' := Next(s, step);
    NextExtends(s, step);
    if s.signals != [] {
      var at: nat :| Honest(s, s.signals[0], at);
      HonestStays(s, s', s.signals[0], at);
    } else if step.Signal? {
      HonestStays(s, s', s.tasks[step.t].failures, s.tasks[step.t].at);
    }
  }

  lemma KeepsInv(s: State, step: Step)
    requires Inv(s) && Enabled(s, step)
    ensures Inv(Next(s, step))
  {
    KeepsCount(s, step);
    KeepsTasksHonest(s, step);
    KeepsSignals(s, step);
  }

  /** Every reachable state satisfies the invariant. */
  lemma Reachable(run: seq<Step>, end: State)
    requires Leads(Enabled, Next, Init, run, end)
    ensures Inv(end)
  {
    forall s, step | Inv(s) && Enabled(s, step) ensures Inv(Next(s, step)) {
      KeepsInv(s, step);
    }
    Always(Enabled, Next, Inv, Init, run, end);
  }

  /** The outcomes of the setups of a run: how a task's forwarding ends is not among them. */
  function Outcomes(run: seq<Step>): seq<bool> {
    if run == [] then []
    else (if run[0].SetupFails? then [false] else if run[0].SetupSucceeds? then [true] else []) + Outcomes(run[1..])
  }

  lemma {:induction false} SetupsAreOutcomes(s: State, run: seq<Step>, end: State)
    requires Leads(Enabled, Next, s, run, end)
    ensures end.setups == s.setups + Outcomes(run)
    decreases |run|
  {
    if run != [] {
      SetupsAreOutcomes(Next(s, run[0]), run[1..], end);
    }
  }

  /**
   In every interleaving the counter is the number of setup failures since the last
   successful setup, modulo 2^32: exactly that number as long as it fits. Forwarding,
   signals and the control channel make no difference.
   */
  lemma CountIsStreak(run: seq<Step>, end: State)
    requires Leads(Enabled, Next, Init, run, end)
    ensures end.count == Streak(Outcomes(run)) % U32
    ensures end.count == Streak(Outcomes(run)) <==> Streak(Outcomes(run)) < U32
  {
    Reachable(run, end);
    SetupsAreOutcomes(Init, run, end);
    assert end.setups == Outcomes(run);
    FitsIff(Streak(Outcomes(run)));
  }

  lemma FitsIff(n: nat)
    ensures n % U32 == n <==> n < U32
  {
  }

  /**
   At most one rebuild signal is pending, and a pending one reports a number of
   failures in a row, at least three, that some task really counted to.
   */
  lemma SignalsAreEarned(run: seq<Step>, end: State)
    requires Leads(Enabled, Next, Init, run, end)
    ensures |end.signals| <= 1
    ensures end.signals != [] ==>
              && end.signals[0] >= MAX_CONSECUTIVE_DATA_CHANNEL_FAILURES
              && exists at: nat :: 0 < at <= |end.setups|
                   && end.signals[0] == Streak(end.setups[..at]) % U32
                   && Streak(end.setups[..at]) >= MAX_CONSECUTIVE_DATA_CHANNEL_FAILURES
  {
    Reachable(run, end);
    if end.signals != [] {
      var at: nat :| Honest(end, end.signals[0], at);
      assert Streak(end.setups[..at]) >= end.signals[0];
    }
  }

  /** The last `n` setups all failed. */
  predicate LastFailed(setups: seq<bool>, n: nat) {
    n <= |setups| && forall i :: |setups| - n <= i < |setups| ==> !setups[i]
  }

  lemma {:induction false} StreakAtLeast(setups: seq<bool>, n: nat)
    ensures Streak(setups) >= n <==> LastFailed(setups, n)
  {
    if n > 0 && setups != [] {
      var before := setups[..|setups|-1];
      if !setups[|setups|-1] {
        StreakAtLeast(before, n - 1);
        assert forall i :: 0 <= i < |before| ==> before[i] == setups[i];
      }
    }
  }

  /**
   A signal may be late. When a task signals, the counter is still at least what the
   task counted to if and only if that many setups, the latest ones, have all failed.
   */
  lemma SignalIsCurrentIff(run: seq<Step>, end: State, t: nat)
    requires Leads(Enabled, Next, Init, run, end) && Enabled(end, Signal(t)) && Streak(Outcomes(run)) < U32
    ensures end.count >= end.tasks[t].failures <==> LastFailed(Outcomes(run), end.tasks[t].failures)
  {
    CountIsStreak(run, end);
    StreakAtLeast(Outcomes(run), end.tasks[t].failures);
  }

  /**
   When a task enqueues a signal, the counter stands at the threshold or above if and
   only if the last three setups have all failed.
   */
  lemma ThresholdHoldsIff(run: seq<Step>, end: State, t: nat)
    requires Leads(Enabled, Next, Init, run, end) && Enabled(end, Signal(t)) && Streak(Outcomes(run)) < U32
    requires end.signals == [] && Next(end, Signal(t)).signals != []
    ensures end.count >= MAX_CONSECUTIVE_DATA_CHANNEL_FAILURES
            <==> LastFailed(Outcomes(run), MAX_CONSECUTIVE_DATA_CHANNEL_FAILURES)
    ensures Next(end, Signal(t)).signals == [end.tasks[t].failures]
    ensures end.tasks[t].failures >= MAX_CONSECUTIVE_DATA_CHANNEL_FAILURES
  {
    CountIsStreak(run, end);
    StreakAtLeast(Outcomes(run), MAX_CONSECUTIVE_DATA_CHANNEL_FAILURES);
  }

  /**
   After a task's turn to signal, a signal is pending if and only if one was, or the
   task's failure was at least the third in a row.
   */
  lemma ThirdFailureSignals(run: seq<Step>, end: State, t: nat)
    requires Leads(Enabled, Next, Init, run, end) && Enabled(end, Signal(t))
    requires end.tasks[t].at <= |Outcomes(run)| && Streak(Outcomes(run)[..end.tasks[t].at]) < U32
    ensures Next(end, Signal(t)).signals != [] <==>
              end.signals != [] || LastFailed(Outcomes(run)[..end.tasks[t].at], MAX_CONSECUTIVE_DATA_CHANNEL_FAILURES)
    ensures end.signals != [] ==> Next(end, Signal(t)).signals == end.signals
  {
    CountedHonestly(run, end, t);
    FitsIff(Streak(Outcomes(run)[..end.tasks[t].at]));
    StreakAtLeast(Outcomes(run)[..end.tasks[t].at], MAX_CONSECUTIVE_DATA_CHANNEL_FAILURES);
  }

  lemma CountedHonestly(run: seq<Step>, end: State, t: nat)
    requires Leads(Enabled, Next, Init, run, end) && Enabled(end, Signal(t))
    ensures |end.signals| <= 1 && end.tasks[t].at <= |Outcomes(run)|
    ensures end.tasks[t].failures == Streak(Outcomes(run)[..end.tasks[t].at]) % U32
  {
    Reachable(run, end);
    SetupsAreOutcomes(Init, run, end);
    assert end.setups == Outcomes(run);
    assert Honest(end, end.tasks[t].failures, end.tasks[t].at);
  }

  /** A taken signal is gone, and makes room for the next. */
  lemma TakenSignalIsGone(run: seq<Step>, end: State)
    requires Leads(Enabled, Next, Init, run, end) && Enabled(end, TakeSignal)
    ensures Next(end, TakeSignal).signals == [] && Next(end, TakeSignal).count == end.count
  {
    Reachable(run, end);
  }

  // ----- Two runs -----

  /** `n` tasks are spawned. */
  lemma {:induction false} Spawning(n: nat) returns (run: seq<Step>, tasks: seq<Task>)
    ensures |tasks| == n && (forall t :: 0 <= t < n ==> tasks[t] == SettingUp)
    ensures Leads(Enabled, Next, Init, run, State(0, [], tasks, []))
  {
    if n == 0 {
      run, tasks := [], [];
    } else {
      run, tasks := Spawning(n - 1);
      LeadsFurther(Enabled, Next, Init, run, State(0, [], tasks, []), Spawn);
      run, tasks := run + [Spawn], tasks + [SettingUp];
    }
  }

  /** The first `n` of `m` tasks fail; none of them gets to signal. */
  lemma {:induction false} Failing(n: nat, m: nat) returns (run: seq<Step>, end: State)
    requires n <= m
    ensures Leads(Enabled, Next, Init, run, end)
    ensures |end.tasks| == m && (forall t :: n <= t < m ==> end.tasks[t] == SettingUp)
    ensures forall t :: 0 <= t < n ==> end.tasks[t] == Counted((t + 1) % U32, t + 1)
    ensures end.signals == [] && end.setups == seq(n, _ => false) && end.count == n % U32
  {
    if n == 0 {
      var tasks;
      run, tasks := Spawning(m);
      end := State(0, [], tasks, []);
    } else {
      run, end := Failing(n - 1, m);
      LeadsFurther(Enabled, Next, Init, run, end, SetupFails(n - 1));
      IncrementWraps(n - 1);
      run, end := run + [SetupFails(n - 1)], Next(end, SetupFails(n - 1));
    }
  }

  lemma {:induction false} AllFailed(n: nat)
    ensures Streak(seq(n, _ => false)) == n
  {
    StreakAtLeast(seq(n, _ => false), n);
    StreakAtLeast(seq(n, _ => false), n + 1);
  }

  /** A signal can be enqueued when the counter stands at 0: three tasks fail, and a fourth succeeds in between. */
  lemma LateSignal() returns (run: seq<Step>, end: State)
    ensures Leads(Enabled, Next, Init, run + [Signal(2)], end)
    ensures end.count == 0 && end.signals == [MAX_CONSECUTIVE_DATA_CHANNEL_FAILURES]
  {
    run, end := Failing(3, 4);
    LeadsFurther(Enabled, Next, Init, run, end, SetupSucceeds(3));
    run, end := run + [SetupSucceeds(3)], Next(end, SetupSucceeds(3));
    LeadsFurther(Enabled, Next, Init, run, end, Signal(2));
    end := Next(end, Signal(2));
  }

  /** A counter can wrap: after 2^32 failures in a row it stands at 0. */
  lemma CountWraps() returns (run: seq<Step>, end: State)
    ensures Leads(Enabled, Next, Init, run, end)
    ensures end.count == 0 && Streak(Outcomes(run)) == U32
  {
    run, end := Failing(U32, U32);
    AllFailed(U32);
    SetupsAreOutcomes(Init, run, end);
    assert [] + Outcomes(run) == Outcomes(run);
  }
}
