/**
 A TCP service on the server: the visitor listener (src/server.rs,
 `tcp_listen_and_send`) and the connection pool (`run_tcp_connection_pool`) around
 one control channel's supply of data channels. A run is any interleaving of the
 steps of these tasks, the control loop, the router and the client. Visitors are
 numbered in the order in which they are accepted.
 */
module TcpPool {
  import opened Basics
  import ControlLoop
  import opened Runs
  import opened Supply

  const TCP_POOL_SIZE: nat := 8

  datatype Pool = Pool(
    supply: Stock,
    accepted: nat,             // visitors the listener has asked a data channel for
    inHand: Option<nat>,       // accepted, not yet in the visitor queue
    waiting: seq<nat>,         // the visitor queue
    current: Option<nat>,      // the visitor the pool is serving
    starting: Option<nat>,     // the data channel being told to start forwarding
    usedChannels: seq<nat>,    // data channels matched so far ...
    servedVisitors: seq<nat>,  // ... and their visitors
    listening: bool,
    pooling: bool)

  datatype Step =
    | Accept        // a visitor connects; a data channel is requested for it
    | PassVisitor   // the listener queues it
    | PickVisitor   // the pool takes the next visitor
    | TakeChannel   // ... and the next data channel
    | StartOk       // the start command is written: they are matched
    | StartFailed   // the data channel is broken: the pool requests another
    | StopListening // shutdown signal
    | ChannelsClosed // no data channel will come any more: the pool ends
    | VisitorsClosed // no visitor will
    | Inner(move: Move)

  function Init(timeout: nat): Pool {
    Pool(Supply.Init(timeout, TCP_POOL_SIZE), 0, None, [], None, None, [], [], true, true)
  }

  predicate Enabled(p: Pool, step: Step) {
    match step
    case Accept => p.listening && p.inHand.None?
    case PassVisitor => p.inHand.Some? && (p.pooling ==> |p.waiting| < CHAN_SIZE)
    case PickVisitor => p.pooling && p.current.None? && p.waiting != []
    case TakeChannel => p.pooling && p.current.Some? && p.starting.None? && p.supply.queue != []
    case StartOk => p.starting.Some?
    case StartFailed => p.starting.Some?
    case StopListening => p.listening && p.inHand.None? && p.supply.dropped
    case ChannelsClosed =>
      p.pooling && p.current.Some? && p.starting.None? && p.supply.queue == [] && p.supply.dropped
    case VisitorsClosed => p.pooling && p.current.None? && p.waiting == [] && p.inHand.None? && !p.listening
    case Inner(m) => Supply.Enabled(p.supply, m)
  }

  /** The pool task returns: its visitor and the visitor queue are dropped. */
  function EndPool(p: Pool): Pool { p.(starting := None, current := None, waiting := [], pooling := false) }

  function Next(p: Pool, step: Step): Pool
    requires Enabled(p, step)
  {
    match step
    case Accept =>
      if Listens(p.supply) then
        p.(supply := Request(p.supply), accepted := p.accepted + 1, inHand := Some(p.accepted))
      else p.(listening := false)
    case PassVisitor => p.(inHand := None, waiting := if p.pooling then p.waiting + p.inHand.AsSeq() else p.waiting)
    case PickVisitor => p.(current := Some(p.waiting[0]), waiting := p.waiting[1..])
    case TakeChannel => p.(starting := Some(p.supply.queue[0]), supply := Take(p.supply))
    case StartOk =>
      p.(usedChannels := p.usedChannels + p.starting.AsSeq(),
         servedVisitors := p.servedVisitors + p.current.AsSeq(), starting := None, current := None)
    case StartFailed =>
      if Listens(p.supply) then p.(supply := Request(p.supply), starting := None)
      else EndPool(p)
    case StopListening => p.(listening := false)
    case ChannelsClosed => EndPool(p)
    case VisitorsClosed => EndPool(p)
    case Inner(m) => p.(supply := Supply.Next(p.supply, m))
  }

  /** Visitors accepted and not yet matched to a data channel. */
  function Unserved(p: Pool): nat { |p.inHand.AsSeq()| + |p.waiting| + |p.current.AsSeq()| }

  /** Every visitor from the first served to the one just accepted, in line. */
  function VisitorLine(p: Pool): seq<nat> {
    p.servedVisitors + p.current.AsSeq() + p.waiting + p.inHand.AsSeq()
  }

  /** The data channels the pool holds or has matched. */
  function Held(p: Pool): seq<nat> { p.usedChannels + p.starting.AsSeq() }

  ghost predicate ChannelsInv(p: Pool) { OnePlaceEach(p.supply, multiset(Held(p))) }

  predicate InOrder(line: seq<nat>, bound: nat) {
    && (forall i, j :: 0 <= i < j < |line| ==> line[i] < line[j])
    && (forall i :: 0 <= i < |line| ==> line[i] < bound)
  }

  predicate LineInv(p: Pool) {
    && |p.usedChannels| == |p.servedVisitors|
    && (p.starting.Some? ==> p.current.Some?)
    && |p.waiting| <= CHAN_SIZE
    && InOrder(VisitorLine(p), p.accepted)
    && (Alive(p.supply) ==> p.listening && p.pooling && |VisitorLine(p)| == p.accepted)
  }

  /** The conservation law. */
  predicate CreditInv(p: Pool) {
    Alive(p.supply) ==> Credit(p.supply) + |p.starting.AsSeq()| == TCP_POOL_SIZE + Unserved(p)
  }

  ghost predicate PoolInv(p: Pool) {
    Supply.Inv(p.supply) && ScriptInv(p.supply) && CreditInv(p) && LineInv(p) && ChannelsInv(p)
  }

  lemma KeepsCredit(p: Pool, step: Step)
    requires Supply.Inv(p.supply) && CreditInv(p) && LineInv(p) && Enabled(p, step)
    ensures Supply.Inv(Next(p, step).supply) && CreditInv(Next(p, step))
    ensures Alive(Next(p, step).supply) ==> Alive(p.supply)
  {
    RequestAndTake(p.supply);
    if step.Inner? {
      MoveKeepsInv(p.supply, step.move);
    }
  }

  lemma KeepsLine(p: Pool, step: Step)
    requires LineInv(p) && Enabled(p, step)
    requires Alive(Next(p, step).supply) ==> Alive(p.supply)
    ensures LineInv(Next(p, step))
  {
    if Drops(p, step) {
      LeavingTheLine(p, step);
    } else if step.Accept? {
      assert VisitorLine(Next(p, step)) == VisitorLine(p) + if Listens(p.supply) then [p.accepted] else [];
    } else {
      StayingInLine(p, step);
    }
  }

  /** Visitors are dropped only when the pool ends or has ended. */
  predicate Drops(p: Pool, step: Step) {
    || step.ChannelsClosed? || step.VisitorsClosed?
    || (step.StartFailed? && !Listens(p.supply))
    || (step.PassVisitor? && !p.pooling)
  }

  lemma StayingInLine(p: Pool, step: Step)
    requires LineInv(p) && Enabled(p, step) && !Drops(p, step) && !step.Accept?
    ensures VisitorLine(Next(p, step)) == VisitorLine(p)
  {
    if step.PickVisitor? {
      assert p.waiting == [p.waiting[0]] + p.waiting[1..];
    }
  }

  lemma LeavingTheLine(p: Pool, step: Step)
    requires LineInv(p) && Enabled(p, step) && Drops(p, step)
    ensures InOrder(VisitorLine(Next(p, step)), p.accepted)
  {
    var line, n := VisitorLine(p), |VisitorLine(p)|;
    if step.PassVisitor? {
      ShorterLine(line, n - 1, n, p.accepted);
      assert VisitorLine(Next(p, step)) == line[..n-1] + line[n..];
    } else {
      var k := |p.servedVisitors|;
      ShorterLine(line, k, n - |p.inHand.AsSeq()|, p.accepted);
      assert VisitorLine(Next(p, step)) == line[..k] + line[n-|p.inHand.AsSeq()|..];
    }
  }

  /** Leaving the line does not change the order of the others. */
  lemma ShorterLine(line: seq<nat>, from: nat, to: nat, bound: nat)
    requires InOrder(line, bound) && from <= to <= |line|
    ensures InOrder(line[..from] + line[to..], bound)
  {
  }

  lemma KeepsChannels(p: Pool, step: Step)
    requires (p.starting.Some? ==> p.current.Some?) && ChannelsInv(p) && Enabled(p, step)
    ensures ChannelsInv(Next(p, step))
  {
    if step.Inner? {
      MoveKeepsPlaces(p.supply, step.move, multiset(Held(p)));
    } else if step.TakeChannel? {
      TakeKeepsPlaces(p.supply, Held(p));
      assert Held(Next(p, step)) == Held(p) + [p.supply.queue[0]];
    } else {
      KeepsHeld(p, step);
      DropKeepsPlaces(p.supply, Next(p, step).supply, multiset(Held(p)), multiset(Held(Next(p, step))));
    }
  }

  /** Outside the supply a data channel is only matched, or dropped as broken. */
  lemma KeepsHeld(p: Pool, step: Step)
    requires (p.starting.Some? ==> p.current.Some?) && Enabled(p, step) && !step.Inner? && !step.TakeChannel?
    ensures multiset(Held(Next(p, step))) <= multiset(Held(p))
    ensures Next(p, step).supply == p.supply || Next(p, step).supply == Request(p.supply)
  {
    HeldAfter(p, step);
    PartOf(Held(Next(p, step)), if step.StartFailed? then p.starting.AsSeq() else []);
  }

  lemma PartOf(a: seq<nat>, b: seq<nat>)
    ensures multiset(a) <= multiset(a + b)
  {
    assert multiset(a + b) == multiset(a) + multiset(b);
  }

  lemma HeldAfter(p: Pool, step: Step)
    requires (p.starting.Some? ==> p.current.Some?) && Enabled(p, step) && !step.Inner? && !step.TakeChannel?
    ensures Held(p) == Held(Next(p, step)) + if step.StartFailed? then p.starting.AsSeq() else []
  {
    if step.VisitorsClosed? {
      assert p.starting.None?;
    }
  }

  lemma KeepsInv(p: Pool, step: Step)
    requires PoolInv(p) && Enabled(p, step)
    ensures PoolInv(Next(p, step))
  {
    KeepsCredit(p, step);
    KeepsLine(p, step);
    KeepsChannels(p, step);
    if step.Inner? {
      MoveKeepsScript(p.supply, step.move);
    }
  }

  /** Every reachable state satisfies the invariant. */
  lemma Reachable(timeout: nat, run: seq<Step>, p: Pool)
    requires Leads(Enabled, Next, Init(timeout), run, p)
    ensures PoolInv(p)
  {
    InitInv(timeout, TCP_POOL_SIZE);
    forall q, step | PoolInv(q) && Enabled(q, step) ensures PoolInv(Next(q, step)) {
      KeepsInv(q, step);
    }
    Always(Enabled, Next, PoolInv, Init(timeout), run, p);
  }

  /**
   In every interleaving, while the control channel lives: what is requested,
   commanded, queued or being started is the pool size plus the visitors not yet
   matched. So a visitor who waits always has supply on the way.
   */
  lemma Conservation(timeout: nat, run: seq<Step>, p: Pool)
    requires Leads(Enabled, Next, Init(timeout), run, p)
    ensures Alive(p.supply) ==>
              && p.supply.requests + (p.supply.written - p.supply.handed) + |p.supply.queue|
                 + |p.starting.AsSeq()| == TCP_POOL_SIZE + Unserved(p)
              && p.accepted == |p.servedVisitors| + Unserved(p)
  {
    Reachable(timeout, run, p);
  }

  /** No data channel serves two visitors, no visitor gets two, and they are served in order. */
  lemma OneChannelPerVisitor(timeout: nat, run: seq<Step>, p: Pool)
    requires Leads(Enabled, Next, Init(timeout), run, p)
    ensures |p.usedChannels| == |p.servedVisitors|
    ensures forall i, j :: 0 <= i < j < |p.usedChannels| ==> p.usedChannels[i] != p.usedChannels[j]
    ensures forall i, j :: 0 <= i < j < |p.servedVisitors| ==> p.servedVisitors[i] < p.servedVisitors[j]
    ensures forall c :: c in p.usedChannels ==>
              c < p.supply.dialled && c !in p.supply.transit && c !in p.supply.queue
    ensures Alive(p.supply) ==> forall i :: 0 <= i < |p.servedVisitors| ==> p.servedVisitors[i] == i
  {
    Reachable(timeout, run, p);
    UsedOnce(p);
    var line := VisitorLine(p);
    assert p.servedVisitors == line[..|p.servedVisitors|];
    if Alive(p.supply) {
      IncreasingIsIdentity(line, p.accepted);
    }
  }

  lemma UsedOnce(p: Pool)
    requires ChannelsInv(p)
    ensures forall i, j :: 0 <= i < j < |p.usedChannels| ==> p.usedChannels[i] != p.usedChannels[j]
    ensures forall c :: c in p.usedChannels ==>
              c < p.supply.dialled && c !in p.supply.transit && c !in p.supply.queue
  {
    var used := p.usedChannels;
    assert multiset(Held(p)) == multiset(used) + multiset(p.starting.AsSeq());
    forall i, j | 0 <= i < j < |used| ensures used[i] != used[j] {
      assert used == used[..j] + [used[j]] + used[j+1..];
      assert used[i] in used[..j];
      assert multiset(used)[used[j]] >= multiset(used[..j])[used[j]] + 1;
      assert Places(p.supply)[used[j]] + multiset(Held(p))[used[j]] <= 1;
    }
    forall c | c in used
      ensures c < p.supply.dialled && c !in p.supply.transit && c !in p.supply.queue
    {
      assert multiset(used)[c] >= 1 && Places(p.supply)[c] + multiset(Held(p))[c] <= 1;
    }
  }

  lemma {:induction false} IncreasingIsIdentity(line: seq<nat>, n: nat)
    requires |line| == n && InOrder(line, n)
    ensures forall i :: 0 <= i < n ==> line[i] == i
  {
    if n > 0 {
      var shorter := line[..n-1];
      assert forall i :: 0 <= i < n - 1 ==> shorter[i] < line[n-1];
      IncreasingIsIdentity(shorter, n - 1);
      assert forall i :: 0 <= i < n - 1 ==> line[i] == shorter[i];
      assert n > 1 ==> shorter[n-2] < line[n-1];
    }
  }

  /** The router's send into the bounded data channel queue never has to wait. */
  lemma HandOverNeverWaits(timeout: nat, run: seq<Step>, p: Pool)
    requires Leads(Enabled, Next, Init(timeout), run, p) && Alive(p.supply)
    ensures |p.supply.queue| <= TCP_POOL_SIZE + CHAN_SIZE + 2 < DATA_CH_CAPACITY
    ensures forall c :: c in p.supply.transit ==> Supply.Enabled(p.supply, HandOver(c))
  {
    Reachable(timeout, run, p);
  }

  /** A lost data channel is never forgotten: once its command is written the alarm stays armed, due within one timeout. */
  lemma LostIsNoticed(timeout: nat, run: seq<Step>, p: Pool)
    requires Leads(Enabled, Next, Init(timeout), run, p) && Alive(p.supply)
    ensures var s := p.supply;
            && s.loop.pending + Uncounted(s) >= s.lost
            && (s.lost > Uncounted(s) ==> s.loop.deadline.Some? && s.loop.deadline.value <= s.clock + s.timeout)
  {
    Reachable(timeout, run, p);
  }

  /** In every interleaving a control channel is declared stuck only for a reason, and never one that is prompt. */
  lemma StuckOnlyForAReason(timeout: nat, run: seq<Step>, p: Pool)
    requires Leads(Enabled, Next, Init(timeout), run, p)
    ensures ControlLoop.Prompt(p.supply.timeout, p.supply.script) ==> p.supply.loop != ControlLoop.Stuck
    ensures p.supply.loop == ControlLoop.Stuck ==> StuckRightly(p.supply)
  {
    Reachable(timeout, run, p);
    AlarmInContext(p.supply);
  }

  /** The steps that serve visitors: no new visitor, no failure, no passing of time. */
  predicate Serving(step: Step) {
    match step
    case PassVisitor => true
    case PickVisitor => true
    case TakeChannel => true
    case StartOk => true
    case Inner(m) => Quiet(m)
    case _ => false
  }

  /** No serving step is possible. */
  ghost predicate NothingToServe(p: Pool) { forall step :: Serving(step) ==> !Enabled(p, step) }

  predicate AtRest(p: Pool) {
    && Unserved(p) == 0 && p.starting.None?
    && |p.supply.queue| == TCP_POOL_SIZE
    && p.supply.loop.Waiting? && p.supply.loop.pending == 0 && p.supply.loop.deadline.None?
  }

  /** Unless the pool is at rest, or data channels were lost, some serving step is possible. */
  lemma NotStuck(p: Pool)
    requires PoolInv(p) && Alive(p.supply) && p.supply.lost == 0
    requires NothingToServe(p)
    ensures AtRest(p) && |p.servedVisitors| == p.accepted
  {
    forall m | Quiet(m) ensures !Supply.Enabled(p.supply, m) {
      assert !Enabled(p, Inner(m));
    }
    NoQuietMove(p.supply);
    assert !Enabled(p, PassVisitor) && !Enabled(p, PickVisitor) && !Enabled(p, TakeChannel) && !Enabled(p, StartOk);
  }

  function Work(p: Pool): int {
    Supply.Work(p.supply) + |p.starting.AsSeq()|
    + 4 * |p.inHand.AsSeq()| + 3 * |p.waiting| + 2 * |p.current.AsSeq()|
  }

  lemma ServingStepsWork(p: Pool, step: Step)
    requires Supply.Inv(p.supply) && Alive(p.supply) && p.listening && p.pooling
    requires (p.starting.Some? ==> p.current.Some?) && Enabled(p, step) && Serving(step)
    ensures Work(Next(p, step)) < Work(p)
    ensures Alive(Next(p, step).supply) && Next(p, step).supply.lost == p.supply.lost
    ensures Next(p, step).accepted == p.accepted
  {
    if step.Inner? {
      QuietMovesWork(p.supply, step.move);
    }
  }

  /** A reachable state with a live control channel, nothing lost and so many visitors accepted. */
  ghost predicate Serves(p: Pool, accepted: nat) {
    PoolInv(p) && Alive(p.supply) && p.supply.lost == 0 && p.accepted == accepted
  }

  lemma KeepsServing(p: Pool, step: Step)
    requires Serves(p, p.accepted) && Enabled(p, step) && Serving(step)
    ensures Serves(Next(p, step), p.accepted) && Work(Next(p, step)) < Work(p)
  {
    ServingStepsWork(p, step);
    KeepsInv(p, step);
  }

  /**
   From any reachable state of a live control channel that has lost no data
   channel, serving steps in any order come to an end after at most `Work` steps;
   and where they end, every visitor accepted is served and exactly TCP_POOL_SIZE
   data channels are cached.
   */
  lemma EveryVisitorIsServed(p: Pool, run: seq<Step>, end: Pool)
    requires PoolInv(p) && Alive(p.supply) && p.supply.lost == 0
    requires Leads(Enabled, Next, p, run, end) && forall i :: 0 <= i < |run| ==> Serving(run[i])
    ensures |run| <= Work(p)
    ensures PoolInv(end) && Alive(end.supply)
    ensures NothingToServe(end) ==> AtRest(end) && |end.servedVisitors| == p.accepted
  {
    var serves := (q: Pool) => Serves(q, p.accepted);
    forall q, step | serves(q) && Enabled(q, step) && Serving(step)
      ensures serves(Next(q, step)) && Work(Next(q, step)) < Work(q)
    {
      KeepsServing(q, step);
    }
    Bounded(Enabled, Next, Serving, serves, Work, p, run, end);
    if NothingToServe(end) {
      NotStuck(end);
    }
  }

  // ----- The end -----

  /**
   Once the loop has seen the shutdown signal, no run makes it write another command
   or take another turn, and no further visitor is accepted.
   */
  lemma NothingAfterStop(p: Pool, run: seq<Step>, end: Pool)
    requires PoolInv(p) && Enabled(p, Inner(Stop)) && Leads(Enabled, Next, Next(p, Inner(Stop)), run, end)
    ensures end.supply.loop == ControlLoop.Stopped
    ensures end.supply.written == p.supply.written && end.accepted == p.accepted
  {
    var q := Next(p, Inner(Stop));
    var over := (r: Pool) => OverSince(q.supply, r.supply) && r.accepted == q.accepted;
    OverIff(p.supply, Stop);
    forall r, step | over(r) && Enabled(r, step) ensures over(Next(r, step)) {
      if step.Inner? {
        MoveKeepsOver(q.supply, r.supply, step.move);
      }
    }
    Always(Enabled, Next, over, q, run, end);
  }

  /** The steps by which the tasks of a dropped control channel come to their ends. */
  predicate Closing(step: Step) {
    match step
    case Accept => false
    case Inner(m) => m.Stop? || m.WriteEnds?
    case _ => true
  }

  ghost predicate NothingToClose(p: Pool) { forall step :: Closing(step) ==> !Enabled(p, step) }

  function OneIf(b: bool): nat { if b then 1 else 0 }

  function Unclosed(p: Pool): int {
    OneIf(Listens(p.supply)) + |p.supply.writing.AsSeq()| + 2 * |p.supply.queue| + |p.starting.AsSeq()|
    + 3 * |p.inHand.AsSeq()| + 2 * |p.waiting| + |p.current.AsSeq()| + OneIf(p.listening) + OneIf(p.pooling)
  }

  lemma ClosingStepsClose(p: Pool, step: Step)
    requires p.supply.dropped && Enabled(p, step) && Closing(step)
    ensures Next(p, step).supply.dropped && Unclosed(Next(p, step)) < Unclosed(p)
  {
  }

  /**
   Once the handle is dropped, the closing steps come to an end, in any order, and
   then every task has: the loop, the listener and the pool, with nothing in hand.
   */
  lemma EveryTaskEnds(p: Pool, run: seq<Step>, end: Pool)
    requires p.supply.dropped
    requires Leads(Enabled, Next, p, run, end) && forall i :: 0 <= i < |run| ==> Closing(run[i])
    ensures |run| <= Unclosed(p)
    ensures NothingToClose(end) ==>
              && !Listens(end.supply) && !end.listening && !end.pooling
              && end.inHand.None? && end.starting.None?
  {
    var dropped := (q: Pool) => q.supply.dropped;
    forall q, step | dropped(q) && Enabled(q, step) && Closing(step)
      ensures dropped(Next(q, step)) && Unclosed(Next(q, step)) < Unclosed(q)
    {
      ClosingStepsClose(q, step);
    }
    Bounded(Enabled, Next, Closing, dropped, Unclosed, p, run, end);
    if NothingToClose(end) {
      NotStuckClosing(end);
    }
  }

  lemma NotStuckClosing(p: Pool)
    requires p.supply.dropped && NothingToClose(p)
    ensures !Listens(p.supply) && !p.listening && !p.pooling && p.inHand.None? && p.starting.None?
  {
    assert !Enabled(p, Inner(WriteEnds(true))) && !Enabled(p, Inner(Stop)) && !Enabled(p, StartOk);
    assert !Enabled(p, PickVisitor) && !Enabled(p, TakeChannel) && !Enabled(p, ChannelsClosed);
    assert !Enabled(p, PassVisitor) && !Enabled(p, StopListening) && !Enabled(p, VisitorsClosed);
  }

  /** No step of the listener or the pool is idle: a listener refused by the loop, too, comes to its end. */
  lemma StepsAreNotIdle(p: Pool, step: Step)
    requires PoolInv(p) && Enabled(p, step) && !step.Inner?
    ensures Next(p, step) != p
    ensures step.Accept? && !Listens(p.supply) ==> !Next(p, step).listening && Next(p, step).accepted == p.accepted
  {
    assert step.PickVisitor? ==> |p.waiting[1..]| < |p.waiting|;
  }

  predicate EndsPool(p: Pool, step: Step) {
    step.ChannelsClosed? || step.VisitorsClosed? || (step.StartFailed? && !Listens(p.supply))
  }

  /** A pool that has ended does not come back: no run makes it serve another visitor or use another data channel. */
  lemma EndedPoolIsOver(p: Pool, step: Step, run: seq<Step>, end: Pool)
    requires PoolInv(p) && Enabled(p, step) && EndsPool(p, step)
    requires Leads(Enabled, Next, Next(p, step), run, end)
    ensures !end.pooling && end.current.None? && end.waiting == [] && end.starting.None?
    ensures end.servedVisitors == p.servedVisitors && end.usedChannels == p.usedChannels
  {
    var over := (r: Pool) =>
      && !r.pooling && r.current.None? && r.waiting == [] && r.starting.None?
      && r.servedVisitors == p.servedVisitors && r.usedChannels == p.usedChannels;
    Always(Enabled, Next, over, Next(p, step), run, end);
  }

  // ----- One visitor -----

  /** Data channels are used in the order in which they were handed over. */
  lemma ChannelsInOrder(p: Pool, c: nat)
    ensures Enabled(p, TakeChannel) ==>
              p.supply.queue == Next(p, TakeChannel).starting.AsSeq() + Next(p, TakeChannel).supply.queue
    ensures Enabled(p, Inner(HandOver(c))) ==> Next(p, Inner(HandOver(c))).supply.queue == p.supply.queue + [c]
  {
  }

  /** At rest, a visitor is served at once: with the oldest cached data channel, before any other is asked for. */
  lemma CachedChannelServesAtOnce(p: Pool)
    requires PoolInv(p) && Alive(p.supply) && AtRest(p)
    ensures exists end :: Leads(Enabled, Next, p, [Accept, PassVisitor, PickVisitor, TakeChannel, StartOk], end)
              && end.servedVisitors == p.servedVisitors + [p.accepted]
              && end.usedChannels == p.usedChannels + [p.supply.queue[0]]
              && end.supply == Request(Take(p.supply))
  {
    var p' := p.(supply := Request(p.supply), accepted := p.accepted + 1, waiting := [p.accepted]);
    var end := p'.(supply := Take(p'.supply), waiting := [],
                   servedVisitors := p.servedVisitors + [p.accepted],
                   usedChannels := p.usedChannels + [p.supply.queue[0]]);
    VisitorComesIn(p);
    VisitorIsMatched(p');
    LeadsOn(Enabled, Next, p, [Accept, PassVisitor], p', [PickVisitor, TakeChannel, StartOk], end);
    assert [Accept, PassVisitor] + [PickVisitor, TakeChannel, StartOk]
           == [Accept, PassVisitor, PickVisitor, TakeChannel, StartOk];
  }

  lemma VisitorComesIn(p: Pool)
    requires Listens(p.supply) && p.listening && p.pooling && p.inHand.None? && p.waiting == []
    ensures Leads(Enabled, Next, p, [Accept, PassVisitor],
                  p.(supply := Request(p.supply), accepted := p.accepted + 1, waiting := [p.accepted]))
  {
    LeadsFurther(Enabled, Next, p, [], p, Accept);
    LeadsFurther(Enabled, Next, p, [] + [Accept], Next(p, Accept), PassVisitor);
    assert [] + [Accept] + [PassVisitor] == [Accept, PassVisitor];
    assert p.waiting + [p.accepted] == [p.accepted];
  }

  lemma VisitorIsMatched(p: Pool)
    requires p.pooling && p.starting.None? && p.current.None? && |p.waiting| == 1 && p.supply.queue != []
    ensures Leads(Enabled, Next, p, [PickVisitor, TakeChannel, StartOk],
                  p.(supply := Take(p.supply), waiting := [],
                     servedVisitors := p.servedVisitors + p.waiting, usedChannels := p.usedChannels + [p.supply.queue[0]]))
  {
    var p1 := Next(p, PickVisitor);
    LeadsFurther(Enabled, Next, p, [], p, PickVisitor);
    LeadsFurther(Enabled, Next, p, [] + [PickVisitor], p1, TakeChannel);
    LeadsFurther(Enabled, Next, p, [] + [PickVisitor] + [TakeChannel], Next(p1, TakeChannel), StartOk);
    assert [] + [PickVisitor] + [TakeChannel] + [StartOk] == [PickVisitor, TakeChannel, StartOk];
    assert p.waiting == [p.waiting[0]] && p.waiting[1..] == [];
  }
}
