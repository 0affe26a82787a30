/**
 The main loop's instance generations (src/lib.rs, `run_with_config`): a general
 change stops the running instance task, waits for it and starts the next one,
 while tasks end on their own, the watcher may quit and shutdown may be requested
 at any moment. Generations are numbered as they are started.
 */
module Generations {
  import opened Basics
  import opened Runs

  datatype Task = Task(signalled: bool, finished: bool)

  datatype Phase =
    | Receiving           // waiting for an event or for shutdown
    | Restarting(old_: nat)  // the old generation is signalled; waiting for it to finish
    | Stopping(last: nat)    // out of the loop; waiting for the last generation to finish
    | Exited

  datatype Main = Main(
    tasks: seq<Task>,                    // every generation ever started
    lastInstance: Option<nat>,
    instanceShutdownTx: Option<nat>,     // the generation this sender reaches
    phase: Phase,
    shutdownRequested: bool,             // sent on the process-level channel
    watcherSignalled: bool,              // what the watcher has received on it
    streamClosed: bool)                  // the watcher has gone

  datatype Step =
    | GeneralEvent
    | ServiceEvent
    | Joined            // the awaited generation has finished
    | Leave             // the loop's shutdown branch, or the end of the event stream
    | TaskFinishes(g: nat)
    | RequestShutdown
    | WatcherReceives
    | WatcherQuits

  const Init := Main([], None, None, Receiving, false, false, false)

  predicate Enabled(m: Main, step: Step) {
    match step
    case GeneralEvent => m.phase.Receiving?
    case ServiceEvent => m.phase.Receiving?
    case Joined =>
      (match m.phase
       case Restarting(g) => g < |m.tasks| && m.tasks[g].finished
       case Stopping(g) => g < |m.tasks| && m.tasks[g].finished
       case _ => false)
    case Leave => m.phase.Receiving? && (m.shutdownRequested || m.streamClosed)
    case TaskFinishes(g) => g < |m.tasks|
    case RequestShutdown => true
    case WatcherReceives => m.shutdownRequested
    case WatcherQuits => true
  }

  /** `instance_shutdown_tx.take()`, and a signal through it. */
  function SignalInstance(m: Main): Main {
    match m.instanceShutdownTx
    case Some(g) =>
      if g < |m.tasks| then m.(tasks := m.tasks[g := m.tasks[g].(signalled := true)], instanceShutdownTx := None)
      else m.(instanceShutdownTx := None)
    case None => m
  }

  function Spawn(m: Main): Main {
    m.(tasks := m.tasks + [Task(false, false)],
       lastInstance := Some(|m.tasks|), instanceShutdownTx := Some(|m.tasks|), phase := Receiving)
  }

  function Next(m: Main, step: Step): Main
    requires Enabled(m, step)
  {
    match step
    case GeneralEvent =>
      if m.lastInstance.Some? then
        SignalInstance(m).(lastInstance := None, phase := Restarting(m.lastInstance.value))
      else Spawn(m)
    case ServiceEvent => m
    case Joined => if m.phase.Restarting? then Spawn(m) else m.(phase := Exited)
    case Leave =>
      SignalInstance(m).(lastInstance := None,
        phase := if m.lastInstance.Some? then Stopping(m.lastInstance.value) else Exited)
    case TaskFinishes(g) => m.(tasks := m.tasks[g := m.tasks[g].(finished := true)])
    case RequestShutdown => m.(shutdownRequested := true)
    case WatcherReceives => m.(watcherSignalled := true)
    case WatcherQuits => m.(streamClosed := true)
  }

  /** The one generation that may still be running. */
  function Current(m: Main): Option<nat> {
    match m.phase
    case Receiving => m.lastInstance
    case Restarting(g) => Some(g)
    case Stopping(g) => Some(g)
    case Exited => None
  }

  predicate Inv(m: Main) {
    && (Current(m).Some? ==> Current(m).value == |m.tasks| - 1)
    && (forall g :: 0 <= g < |m.tasks| && Current(m) != Some(g) ==> m.tasks[g].finished && m.tasks[g].signalled)
    && (forall g :: 0 <= g < |m.tasks| && m.tasks[g].signalled ==> !(m.phase.Receiving? && m.lastInstance == Some(g)))
    && m.instanceShutdownTx == (if m.phase.Receiving? then m.lastInstance else None)
    && (m.phase.Restarting? || m.phase.Stopping? ==> m.tasks[Current(m).value].signalled && m.lastInstance.None?)
    && (m.phase.Receiving? ==> (m.lastInstance.None? <==> m.tasks == []))
    && (m.phase.Stopping? || m.phase.Exited? ==> m.shutdownRequested || m.streamClosed)
    && (m.watcherSignalled ==> m.shutdownRequested)
  }

  lemma KeepsInv(m: Main, step: Step)
    requires Inv(m) && Enabled(m, step)
    ensures Inv(Next(m, step))
  {
  }

  /** Every reachable state satisfies the invariant. */
  lemma Reachable(run: seq<Step>, end: Main)
    requires Leads(Enabled, Next, Init, run, end)
    ensures Inv(end)
  {
    forall m, step | Inv(m) && Enabled(m, step) ensures Inv(Next(m, step)) {
      KeepsInv(m, step);
    }
    Always(Enabled, Next, Inv, Init, run, end);
  }

  /** At most one generation runs, and none once the main loop has returned. */
  lemma AtMostOneGeneration(run: seq<Step>, end: Main)
    requires Leads(Enabled, Next, Init, run, end)
    ensures forall g, h :: 0 <= g < h < |end.tasks| ==> end.tasks[g].finished || end.tasks[h].finished
    ensures end.phase.Exited? ==> forall g :: 0 <= g < |end.tasks| ==> end.tasks[g].finished
  {
    Reachable(run, end);
  }

  /**
   A general change signals the old generation and nothing else: not the watcher,
   not the process-level channel, not the generation it starts. So a run in which
   nobody asks for shutdown and the watcher does not quit stays inside the loop,
   whatever it restarts, and leaves the watcher alone.
   */
  lemma RestartStaysInside(run: seq<Step>, end: Main)
    requires Leads(Enabled, Next, Init, run, end)
    ensures RequestShutdown !in run && WatcherQuits !in run ==>
              (end.phase.Receiving? || end.phase.Restarting?) && !end.watcherSignalled
    ensures end.phase.Receiving? && end.lastInstance.Some? ==>
              end.lastInstance.value < |end.tasks| && !end.tasks[end.lastInstance.value].signalled
  {
    Reachable(run, end);
    FlagsAreRequests(Init, run, end);
  }

  /** The flags record exactly what was asked for. */
  lemma {:induction false} FlagsAreRequests(m: Main, run: seq<Step>, end: Main)
    requires Leads(Enabled, Next, m, run, end)
    ensures end.shutdownRequested <==> m.shutdownRequested || RequestShutdown in run
    ensures end.streamClosed <==> m.streamClosed || WatcherQuits in run
    decreases |run|
  {
    if run != [] {
      FlagsAreRequests(Next(m, run[0]), run[1..], end);
      assert run == [run[0]] + run[1..];
    }
  }

  function GeneralEvents(run: seq<Step>): nat {
    if run == [] then 0 else (if run[0] == GeneralEvent then 1 else 0) + GeneralEvents(run[1..])
  }

  lemma {:induction false} EventsStart(m: Main, run: seq<Step>, end: Main)
    requires Inv(m) && Leads(Enabled, Next, m, run, end)
    ensures |end.tasks| + (if end.phase.Restarting? then 1 else 0)
            == |m.tasks| + (if m.phase.Restarting? then 1 else 0) + GeneralEvents(run)
    decreases |run|
  {
    if run != [] {
      KeepsInv(m, run[0]);
      EventsStart(Next(m, run[0]), run[1..], end);
    }
  }

  /**
   Every general event starts a generation, the first as well as the later ones, which
   wait for the one before to finish; and every generation but the current one has been
   signalled and has finished.
   */
  lemma EveryEventStartsOne(run: seq<Step>, end: Main)
    requires Leads(Enabled, Next, Init, run, end)
    ensures |end.tasks| + (if end.phase.Restarting? then 1 else 0) == GeneralEvents(run)
    ensures forall g :: 0 <= g < |end.tasks| - 1 ==> end.tasks[g].signalled && end.tasks[g].finished
    ensures end.phase.Receiving? && end.tasks != [] ==> end.lastInstance == Some(|end.tasks| - 1)
    ensures end.phase.Restarting? || end.phase.Stopping? ==> end.tasks != [] && end.tasks[|end.tasks|-1].signalled
  {
    Reachable(run, end);
    EventsStart(Init, run, end);
  }

  /** A general event replaces a running generation once that has finished. */
  lemma RestartCompletes(m: Main, g: nat)
    requires Inv(m) && m.phase.Receiving? && m.lastInstance == Some(g)
    ensures exists end :: Leads(Enabled, Next, m, [GeneralEvent, TaskFinishes(g), Joined], end)
              && end.phase.Receiving? && end.lastInstance == Some(g + 1) && |end.tasks| == g + 2
              && end.tasks[g] == Task(true, true) && end.tasks[g + 1] == Task(false, false)
  {
    var m1 := Next(m, GeneralEvent);
    var m2 := Next(m1, TaskFinishes(g));
    assert Leads(Enabled, Next, m, [], m);
    LeadsFurther(Enabled, Next, m, [], m, GeneralEvent);
    LeadsFurther(Enabled, Next, m, [] + [GeneralEvent], m1, TaskFinishes(g));
    LeadsFurther(Enabled, Next, m, [] + [GeneralEvent] + [TaskFinishes(g)], m2, Joined);
    assert [] + [GeneralEvent] + [TaskFinishes(g)] + [Joined] == [GeneralEvent, TaskFinishes(g), Joined];
    assert Next(m2, Joined).tasks[g] == Task(true, true);
  }

  /** A shutdown stops the generation that runs, waits for it and reaches the watcher. */
  lemma ShutdownCompletes(m: Main, g: nat)
    requires Inv(m) && m.phase.Receiving? && m.lastInstance == Some(g)
    ensures exists end :: Leads(Enabled, Next, m, [RequestShutdown, WatcherReceives, Leave, TaskFinishes(g), Joined], end)
              && end.phase.Exited? && end.watcherSignalled && |end.tasks| == g + 1 && end.tasks[g] == Task(true, true)
  {
    var m1 := Next(m, RequestShutdown);
    var m2 := Next(m1, WatcherReceives);
    var m3 := Next(m2, Leave);
    var m4 := Next(m3, TaskFinishes(g));
    var run := [RequestShutdown, WatcherReceives, Leave, TaskFinishes(g), Joined];
    assert Leads(Enabled, Next, m, [], m);
    LeadsFurther(Enabled, Next, m, [], m, RequestShutdown);
    LeadsFurther(Enabled, Next, m, [] + [RequestShutdown], m1, WatcherReceives);
    LeadsFurther(Enabled, Next, m, [] + [RequestShutdown] + [WatcherReceives], m2, Leave);
    LeadsFurther(Enabled, Next, m, [] + [RequestShutdown] + [WatcherReceives] + [Leave], m3, TaskFinishes(g));
    LeadsFurther(Enabled, Next, m, [] + [RequestShutdown] + [WatcherReceives] + [Leave] + [TaskFinishes(g)], m4, Joined);
    assert [] + [RequestShutdown] + [WatcherReceives] + [Leave] + [TaskFinishes(g)] + [Joined] == run;
  }
}
