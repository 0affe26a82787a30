/**
 The supply of data channels of one control channel: the queues between the pool,
 the control loop, the client and the handshake router (src/server.rs,
 `ControlChannelHandle::new`, `do_data_channel_handshake`).

 The client opens at most one data channel for each command it was sent. A data
 channel is a number, given out in the order of opening.
 */
module Supply {
  import opened Basics
  import ControlLoop

  const CHAN_SIZE: nat := 2048
  const DATA_CH_CAPACITY: nat := CHAN_SIZE * 2

  /** A write of the control loop in progress: a command, or else a heartbeat. */
  datatype Write = Write(since: nat, command: bool)

  datatype Stock = Stock(
    timeout: nat,
    clock: nat,
    loop: ControlLoop.State,
    script: seq<ControlLoop.Turn>,  // the loop's turns so far
    writing: Option<Write>,
    requests: nat,       // data_ch_req: requests the loop has not taken yet
    written: nat,        // commands the loop has begun to write to the client
    dialled: nat,        // data channels the client has opened so far
    transit: set<nat>,   // opened, not yet at the server's router
    lost: nat,           // opened, and broken before the router queued them
    queue: seq<nat>,     // data_ch: routed, not yet taken by the pool
    handed: nat,         // ever put in `queue`
    signals: nat,        // queued, but their arrival is not yet signalled
    arrivals: nat,       // data_ch_arrived: signals the loop has not taken yet
    dropped: bool)       // the handle of the control channel is gone

  /** The constructor sends one request for every channel to cache. */
  function Init(timeout: nat, poolSize: nat): Stock {
    Stock(timeout, 0, ControlLoop.Start, [], None, poolSize, 0, 0, {}, 0, [], 0, 0, 0, false)
  }

  /** The loop is there to take requests. */
  predicate Listens(s: Stock) { s.loop.Waiting? }

  /** The control channel lives: the loop runs and its handle is registered. */
  predicate Alive(s: Stock) { Listens(s) && !s.dropped }

  /** The loop is at its `select!`. */
  predicate Selecting(s: Stock) { Listens(s) && s.writing.None? }

  /** Commands whose data channel has not been queued. */
  function Unanswered(s: Stock): int { s.written - s.handed }

  /** What the pool can still count on: requested, commanded or queued. */
  function Credit(s: Stock): int { s.requests + Unanswered(s) + |s.queue| }

  /** A command is being written: the client may have it, the loop has not counted it yet. */
  function Uncounted(s: Stock): nat { if s.writing.Some? && s.writing.value.command then 1 else 0 }

  datatype Move =
    | TakeRequest           // the loop begins to write a CreateDataChannel command
    | Beat                  // ... or a heartbeat
    | WriteEnds(ok: bool)   // the write is done, or has failed
    | Open                  // the client opens a data channel for a command
    | Lose(channel: nat)    // it breaks on its way
    | HandOver(channel: nat) // the router queues it
    | Signal                // the router signals its arrival
    | TakeArrival           // the loop takes the signal
    | Fire                  // the deadline fires: the loop ends
    | Drop                  // the handle is dropped
    | CloseArrivals         // the loop sees the arrival queue closed
    | Stop                  // the loop sees the shutdown signal and ends
    | Tick(delay: nat)      // time passes

  predicate Enabled(s: Stock, m: Move) {
    match m
    case TakeRequest => Selecting(s) && s.requests > 0
    case Beat => Selecting(s)
    case WriteEnds(_) => s.writing.Some?
    case Open => s.dialled < s.written
    case Lose(c) => c in s.transit
    case HandOver(c) => !s.dropped && c in s.transit && |s.queue| < DATA_CH_CAPACITY
    case Signal => s.signals > 0
    case TakeArrival => Selecting(s) && !s.loop.arrivalsClosed && s.arrivals > 0
    case Fire => Selecting(s) && s.loop.deadline.Some? && s.loop.deadline.value <= s.clock
    case Drop => !s.dropped && s.signals == 0  // the router holds the map's lock from queueing to signalling
    case CloseArrivals => Selecting(s) && !s.loop.arrivalsClosed && s.dropped && s.arrivals == 0
    case Stop => Selecting(s) && s.dropped
    case Tick(d) => Selecting(s) && s.loop.deadline.Some? ==> s.clock + d <= Max(s.clock, s.loop.deadline.value)
  }

  /** The loop goes through a turn that ends now. */
  function TurnDone(s: Stock, t: ControlLoop.Turn): Stock {
    s.(loop := ControlLoop.Step(s.timeout, s.loop, t), script := s.script + [t], writing := None)
  }

  function Instant(s: Stock, w: ControlLoop.Wake): Stock { TurnDone(s, ControlLoop.Turn(s.clock, s.clock, w)) }

  function WakeOf(w: Write, ok: bool): ControlLoop.Wake {
    if w.command then ControlLoop.Request(ok) else ControlLoop.Heartbeat(ok)
  }

  function Next(s: Stock, m: Move): Stock
    requires Enabled(s, m)
  {
    match m
    case TakeRequest =>
      s.(requests := s.requests - 1, written := s.written + 1, writing := Some(Write(s.clock, true)))
    case Beat => s.(writing := Some(Write(s.clock, false)))
    case WriteEnds(ok) =>
      var w := s.writing.value;
      TurnDone(s, ControlLoop.Turn(w.since, s.clock, WakeOf(w, ok)))
    case Open => s.(dialled := s.dialled + 1, transit := s.transit + {s.dialled})
    case Lose(c) => s.(transit := s.transit - {c}, lost := s.lost + 1)
    case HandOver(c) =>
      s.(transit := s.transit - {c}, queue := s.queue + [c], handed := s.handed + 1, signals := s.signals + 1)
    case Signal => s.(signals := s.signals - 1, arrivals := s.arrivals + 1)
    case TakeArrival => Instant(s.(arrivals := s.arrivals - 1), ControlLoop.Arrived)
    case Fire => Instant(s, ControlLoop.DeadlineFired)
    case Drop => s.(dropped := true)
    case CloseArrivals => Instant(s, ControlLoop.ArrivalsClosed)
    case Stop => Instant(s, ControlLoop.Shutdown)
    case Tick(d) => s.(clock := s.clock + d)
  }

  /** A pool asks for one more data channel. */
  function Request(s: Stock): Stock { s.(requests := s.requests + 1) }

  /** A pool takes the oldest queued data channel. */
  function Take(s: Stock): Stock
    requires s.queue != []
  {
    s.(queue := s.queue[1..])
  }

  predicate Inv(s: Stock) {
    && (forall c :: c in s.transit ==> c < s.dialled)
    && s.dialled == s.handed + |s.transit| + s.lost
    && s.dialled <= s.written
    && |s.queue| <= s.handed
    && (s.writing.Some? ==> s.loop.Waiting?)
    && (s.loop.Waiting? ==>
          && (s.loop.arrivalsClosed ==> s.dropped)
          && s.loop.pending + Uncounted(s) == Unanswered(s) + s.signals + s.arrivals
          && (s.loop.deadline.Some? <==> s.loop.pending > 0)
          && (s.loop.deadline.Some? ==> s.loop.deadline.value <= s.clock + s.timeout))
  }

  lemma InitInv(timeout: nat, poolSize: nat)
    ensures Inv(Init(timeout, poolSize)) && ScriptInv(Init(timeout, poolSize))
    ensures Alive(Init(timeout, poolSize)) && Credit(Init(timeout, poolSize)) == poolSize
  {
  }

  /** The moves of the control loop. */
  predicate OfLoop(m: Move) {
    match m
    case TakeRequest => true
    case Beat => true
    case WriteEnds(_) => true
    case TakeArrival => true
    case Fire => true
    case CloseArrivals => true
    case Stop => true
    case _ => false
  }

  /**
   Every move keeps the books: the loop's counter is exactly the commands it has
   written whose arrival it has not taken, so its saturating subtraction never
   saturates, and no move of a live supply creates or destroys credit.
   */
  lemma MoveKeepsInv(s: Stock, m: Move)
    requires Inv(s) && Enabled(s, m)
    ensures Inv(Next(s, m))
    ensures Listens(Next(s, m)) ==> Listens(s) && Credit(Next(s, m)) == Credit(s)
    ensures Alive(Next(s, m)) ==> Alive(s)
    ensures m.TakeArrival? ==> s.loop.pending > 0
  {
    if OfLoop(m) {
      LoopMoveKeepsInv(s, m);
    } else {
      RouterMoveKeepsInv(s, m);
    }
  }

  lemma LoopMoveKeepsInv(s: Stock, m: Move)
    requires Inv(s) && Enabled(s, m) && OfLoop(m)
    ensures Inv(Next(s, m))
    ensures Listens(Next(s, m)) ==> Listens(s) && Credit(Next(s, m)) == Credit(s)
    ensures Alive(Next(s, m)) ==> Alive(s)
    ensures m.TakeArrival? ==> s.loop.pending > 0
  {
    assert Next(s, m).transit == s.transit;
  }

  lemma RouterMoveKeepsInv(s: Stock, m: Move)
    requires Inv(s) && Enabled(s, m) && !OfLoop(m)
    ensures Inv(Next(s, m))
    ensures Listens(Next(s, m)) ==> Listens(s) && Credit(Next(s, m)) == Credit(s)
    ensures Alive(Next(s, m)) ==> Alive(s)
  {
    TransitCount(s, m);
  }

  /** Outside the loop, data channels only move from the client through transit to the queue. */
  lemma TransitCount(s: Stock, m: Move)
    requires Enabled(s, m) && !OfLoop(m) && forall c :: c in s.transit ==> c < s.dialled
    ensures var s' := Next(s, m);
            && (forall c :: c in s'.transit ==> c < s'.dialled)
            && s'.dialled - s'.handed - |s'.transit| - s'.lost == s.dialled - s.handed - |s.transit| - s.lost
  {
    match m
    case Open =>
      var t := s.transit + {s.dialled};
      assert s.dialled !in s.transit;
      assert |t| == |s.transit| + 1;
    case Lose(c) => assert |s.transit| == |s.transit - {c}| + 1;
    case HandOver(c) => assert |s.transit| == |s.transit - {c}| + 1;
    case _ =>
  }

  lemma RequestAndTake(s: Stock)
    requires Inv(s)
    ensures Inv(Request(s)) && Credit(Request(s)) == Credit(s) + 1
    ensures s.queue != [] ==> Inv(Take(s)) && Credit(Take(s)) == Credit(s) - 1
  {
  }

  // ----- The loop's own history -----

  /** Where the loop is, at `clock`, after its script: at its `select!`, in a write, or over. */
  predicate ScriptInv(s: Stock) {
    && ControlLoop.Possible(s.timeout, s.script)
    && s.loop == ControlLoop.After(s.timeout, s.script)
    && ControlLoop.Covers(
         s.timeout, s.script, if s.writing.Some? then Some(s.writing.value.since) else None, s.clock)
  }

  /** What the loop does in the system is a script that the loop alone can go through. */
  lemma MoveKeepsScript(s: Stock, m: Move)
    requires Inv(s) && ScriptInv(s) && Enabled(s, m)
    ensures ScriptInv(Next(s, m))
  {
    match m
    case WriteEnds(ok) =>
      var w := s.writing.value;
      ControlLoop.Further(s.timeout, s.script, ControlLoop.Turn(w.since, s.clock, WakeOf(w, ok)));
    case TakeArrival => InstantKeepsScript(s, ControlLoop.Arrived);
    case Fire => InstantKeepsScript(s, ControlLoop.DeadlineFired);
    case CloseArrivals => InstantKeepsScript(s, ControlLoop.ArrivalsClosed);
    case Stop => InstantKeepsScript(s, ControlLoop.Shutdown);
    case _ =>
  }

  lemma InstantKeepsScript(s: Stock, w: ControlLoop.Wake)
    requires ScriptInv(s) && Selecting(s) && !ControlLoop.Writes(w)
    requires w.DeadlineFired? ==> s.loop.deadline.Some? && s.loop.deadline.value <= s.clock
    requires w.Arrived? || w.ArrivalsClosed? ==> !s.loop.arrivalsClosed
    ensures ScriptInv(Instant(s, w))
  {
    ControlLoop.Further(s.timeout, s.script, ControlLoop.Turn(s.clock, s.clock, w));
  }

  /**
   If every command's arrival is taken strictly within the timeout of its writing, the
   control channel is not declared stuck; if it is, a whole timeout had passed with a
   command outstanding and no arrival taken, and it was declared at that very instant
   or when a write across it was done.
   */
  lemma AlarmInContext(s: Stock)
    requires ScriptInv(s)
    ensures ControlLoop.Prompt(s.timeout, s.script) ==> s.loop != ControlLoop.Stuck
    ensures s.loop == ControlLoop.Stuck ==> StuckRightly(s)
  {
    if s.loop == ControlLoop.Stuck {
      var before, t := s.script[..|s.script|-1], s.script[|s.script|-1];
      assert before + [t] == s.script;
      ControlLoop.AlarmIsJustified(s.timeout, before, t);
    }
    if ControlLoop.Prompt(s.timeout, s.script) {
      ControlLoop.NoFalseAlarm(s.timeout, s.script);
    }
  }

  /** The loop's last turn was the alarm, and there was reason for it. */
  predicate StuckRightly(s: Stock) {
    && s.script != []
    && var before, t := s.script[..|s.script|-1], s.script[|s.script|-1];
       && t.wake.DeadlineFired?
       && ControlLoop.Outstanding(before) != []
       && var due := Max(ControlLoop.LastArrival(before), ControlLoop.Outstanding(before)[0]) + s.timeout;
          t.at == Max(due, ControlLoop.Now(before))
  }

  /** Left alone, a loop with an armed deadline comes to be stuck, at the deadline if it is not past. */
  lemma AlarmComes(s: Stock)
    requires Inv(s) && Selecting(s) && s.loop.deadline.Some?
    ensures var due := s.loop.deadline.value;
            var wait := Tick(if due <= s.clock then 0 else due - s.clock);
            && Enabled(s, wait) && Enabled(Next(s, wait), Fire)
            && Next(Next(s, wait), Fire).loop == ControlLoop.Stuck
            && Next(Next(s, wait), Fire).clock == Max(s.clock, due)
  {
  }

  /** A write takes whatever time it takes, and a dropped handle is noticed after it. */
  lemma DropIsNoticed(s: Stock, delay: nat)
    requires Inv(s) && Listens(s) && s.writing.Some? && !s.dropped && s.signals == 0
    ensures var s1 := Next(s, Drop);
            && Enabled(s1, Tick(delay)) && !Enabled(s1, Stop)
            && var s2 := Next(s1, Tick(delay));
               && s2.clock == s.clock + delay && Enabled(s2, WriteEnds(true))
               && Enabled(Next(s2, WriteEnds(true)), Stop)
  {
  }

  // ----- After the loop -----

  /** The loop is over, and `s'` is as far as it got in `s`: no further command, no further turn. */
  predicate OverSince(s: Stock, s': Stock) {
    && !Listens(s') && s'.writing.None?
    && s'.loop == s.loop && s'.written == s.written && s'.script == s.script
  }

  /** A move ends the loop exactly if it is the alarm, a failed write or the shutdown signal seen. */
  lemma OverIff(s: Stock, m: Move)
    requires Inv(s) && Listens(s) && Enabled(s, m)
    ensures !Listens(Next(s, m)) <==> m == Fire || m == Stop || m == WriteEnds(false)
    ensures !Listens(Next(s, m)) ==>
              && Next(s, m).loop == (if m == Fire then ControlLoop.Stuck else ControlLoop.Stopped)
              && Next(s, m).written == s.written && OverSince(Next(s, m), Next(s, m))
  {
  }

  /** The closing of the arrival queue is seen once, and changes nothing else about the loop. */
  lemma ClosingIsSeenOnce(s: Stock)
    requires Inv(s) && Enabled(s, CloseArrivals)
    ensures !Enabled(Next(s, CloseArrivals), CloseArrivals) && !Enabled(Next(s, CloseArrivals), TakeArrival)
    ensures var l, l' := s.loop, Next(s, CloseArrivals).loop;
            l'.Waiting? && l'.pending == l.pending && l'.deadline == l.deadline
  {
  }

  lemma MoveKeepsOver(s: Stock, s': Stock, m: Move)
    requires OverSince(s, s') && Enabled(s', m)
    ensures OverSince(s, Next(s', m))
  {
  }

  // ----- Where the data channels are -----

  /** Where the data channels of the supply are, counted with multiplicity. */
  ghost function Places(s: Stock): multiset<nat> { multiset(s.transit) + multiset(s.queue) }

  /** Every place but the supply's is `held`: is every data channel in one place at most? */
  ghost predicate OnePlaceEach(s: Stock, held: multiset<nat>) {
    forall c :: Places(s)[c] + held[c] <= (if c < s.dialled then 1 else 0)
  }

  lemma MoveKeepsPlaces(s: Stock, m: Move, held: multiset<nat>)
    requires Enabled(s, m) && OnePlaceEach(s, held)
    ensures OnePlaceEach(Next(s, m), held)
  {
    var s' := Next(s, m);
    match m
    case Open =>
      assert Places(s)[s.dialled] == 0;
      assert Places(s') == Places(s) + multiset{s.dialled};
    case Lose(c) => assert Places(s') == Places(s) - multiset{c};
    case HandOver(c) => assert Places(s') == Places(s);
    case _ => assert Places(s') == Places(s);
  }

  /** Taking a data channel moves it from the queue to the taker. */
  lemma TakeKeepsPlaces(s: Stock, held: seq<nat>)
    requires s.queue != [] && OnePlaceEach(s, multiset(held))
    ensures OnePlaceEach(Take(s), multiset(held + [s.queue[0]]))
  {
    var c := s.queue[0];
    assert s.queue == [c] + s.queue[1..];
    assert Places(s) == Places(Take(s)) + multiset{c};
    assert multiset(held + [c]) == multiset(held) + multiset{c};
  }

  lemma DropKeepsPlaces(s: Stock, s': Stock, held: multiset<nat>, held': multiset<nat>)
    requires OnePlaceEach(s, held) && held' <= held && (s' == s || s' == Request(s))
    ensures OnePlaceEach(s', held')
  {
    assert Places(s') == Places(s);
  }

  /** The moves that serve: everything but failures, time, heartbeats and the end. */
  predicate Quiet(m: Move) {
    m.TakeRequest? || m == WriteEnds(true) || m.Open? || m.HandOver? || m.Signal? || m.TakeArrival?
  }

  /** How much quiet work is left; every quiet move does some of it. */
  function Work(s: Stock): int {
    8 * s.requests + 6 * (s.written - s.dialled) + 5 * |s.transit| + 2 * |s.queue| + 2 * s.signals + s.arrivals
    + |s.writing.AsSeq()|
  }

  lemma QuietMovesWork(s: Stock, m: Move)
    requires Inv(s) && Enabled(s, m) && Quiet(m)
    ensures Work(Next(s, m)) < Work(s)
    ensures Alive(s) ==> Alive(Next(s, m))
    ensures Next(s, m).lost == s.lost
  {
    match m
    case Open => assert s.dialled !in s.transit;
    case HandOver(c) => assert |s.transit| == |s.transit - {c}| + 1;
    case _ =>
  }

  /** A live supply in which no quiet move is possible has everything it can ever get in its queue. */
  lemma NoQuietMove(s: Stock)
    requires Inv(s) && Alive(s) && s.lost == 0 && |s.queue| < DATA_CH_CAPACITY
    requires forall m :: Quiet(m) ==> !Enabled(s, m)
    ensures Credit(s) == |s.queue| && s.loop.pending == 0 && s.loop.deadline.None?
  {
    assert !Enabled(s, WriteEnds(true));
    assert !Enabled(s, TakeRequest) && !Enabled(s, Open) && !Enabled(s, Signal) && !Enabled(s, TakeArrival);
    assert forall c :: c in s.transit ==> Enabled(s, HandOver(c));
    assert s.transit == {};
  }
}
