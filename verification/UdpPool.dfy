/**
 A UDP service on the server (src/server.rs, `run_udp_connection_pool`): one data
 channel at a time carries all visitors' datagrams; a broken session or a failed
 start asks for exactly one replacement.
 */
module UdpPool {
  import opened Basics
  import ControlLoop
  import opened Runs
  import opened Supply

  const UDP_POOL_SIZE: nat := 1

  datatype Pool = Pool(
    supply: Stock,
    starting: Option<nat>,  // taken, being told to start forwarding
    session: Option<nat>,   // forwarding
    past: seq<nat>,         // data channels of broken sessions and failed starts
    pooling: bool)

  datatype Step =
    | TakeChannel
    | StartOk
    | StartFailed
    | SessionBroken
    | Shutdown
    | ChannelsClosed  // no data channel will come any more: the pool ends
    | Inner(move: Move)

  function Init(timeout: nat): Pool {
    Pool(Supply.Init(timeout, UDP_POOL_SIZE), None, None, [], true)
  }

  predicate Enabled(p: Pool, step: Step) {
    match step
    case TakeChannel => p.pooling && p.starting.None? && p.session.None? && p.supply.queue != []
    case StartOk => p.pooling && p.starting.Some?
    case StartFailed => p.pooling && p.starting.Some?
    case SessionBroken => p.pooling && p.session.Some?
    case Shutdown => p.pooling && p.session.Some? && p.supply.dropped
    case ChannelsClosed =>
      p.pooling && p.starting.None? && p.session.None? && p.supply.queue == [] && p.supply.dropped
    case Inner(m) => Supply.Enabled(p.supply, m)
  }

  /** Ask for a replacement; if the loop is over, the pool ends instead. */
  function Replace(p: Pool): Pool {
    if Listens(p.supply) then p.(supply := Request(p.supply)) else p.(pooling := false)
  }

  function Next(p: Pool, step: Step): Pool
    requires Enabled(p, step)
  {
    match step
    case TakeChannel => p.(starting := Some(p.supply.queue[0]), supply := Take(p.supply))
    case StartOk => p.(session := p.starting, starting := None)
    case StartFailed => Replace(p.(starting := None, past := p.past + p.starting.AsSeq()))
    case SessionBroken => Replace(p.(session := None, past := p.past + p.session.AsSeq()))
    case Shutdown => p.(session := None, past := p.past + p.session.AsSeq(), pooling := false)
    case ChannelsClosed => p.(pooling := false)
    case Inner(m) => p.(supply := Supply.Next(p.supply, m))
  }

  /** The data channels the pool holds or held. */
  function Held(p: Pool): seq<nat> { p.past + p.starting.AsSeq() + p.session.AsSeq() }

  ghost predicate ChannelsInv(p: Pool) { OnePlaceEach(p.supply, multiset(Held(p))) }

  /** The conservation law. */
  predicate CreditInv(p: Pool) {
    && (p.starting.None? || p.session.None?)
    && (Alive(p.supply) ==>
          && p.pooling
          && Credit(p.supply) + |p.starting.AsSeq()| + |p.session.AsSeq()| == UDP_POOL_SIZE)
  }

  ghost predicate PoolInv(p: Pool) {
    Supply.Inv(p.supply) && ScriptInv(p.supply) && CreditInv(p) && ChannelsInv(p)
  }

  lemma KeepsCredit(p: Pool, step: Step)
    requires Supply.Inv(p.supply) && CreditInv(p) && Enabled(p, step)
    ensures Supply.Inv(Next(p, step).supply) && CreditInv(Next(p, step))
  {
    RequestAndTake(p.supply);
    if step.Inner? {
      MoveKeepsInv(p.supply, step.move);
    }
  }

  lemma KeepsChannels(p: Pool, step: Step)
    requires CreditInv(p) && ChannelsInv(p) && Enabled(p, step)
    ensures ChannelsInv(Next(p, step))
  {
    if step.Inner? {
      MoveKeepsPlaces(p.supply, step.move, multiset(Held(p)));
    } else if step.TakeChannel? {
      TakeKeepsPlaces(p.supply, Held(p));
      assert Held(Next(p, step)) == Held(p) + [p.supply.queue[0]];
    } else {
      KeepsHeld(p, step);
      DropKeepsPlaces(p.supply, Next(p, step).supply, multiset(Held(p)), multiset(Held(p)));
    }
  }

  lemma KeepsHeld(p: Pool, step: Step)
    requires CreditInv(p) && Enabled(p, step) && !step.Inner? && !step.TakeChannel?
    ensures Held(Next(p, step)) == Held(p)
    ensures Next(p, step).supply == p.supply || Next(p, step).supply == Request(p.supply)
  {
  }

  lemma KeepsInv(p: Pool, step: Step)
    requires PoolInv(p) && Enabled(p, step)
    ensures PoolInv(Next(p, step))
  {
    KeepsCredit(p, step);
    KeepsChannels(p, step);
    if step.Inner? {
      MoveKeepsScript(p.supply, step.move);
    }
  }

  /** Every reachable state satisfies the invariant. */
  lemma Reachable(timeout: nat, run: seq<Step>, p: Pool)
    requires Leads(Enabled, Next, Init(timeout), run, p)
    ensures PoolInv(p)
  {
    InitInv(timeout, UDP_POOL_SIZE);
    forall q, step | PoolInv(q) && Enabled(q, step) ensures PoolInv(Next(q, step)) {
      KeepsInv(q, step);
    }
    Always(Enabled, Next, PoolInv, Init(timeout), run, p);
  }

  /**
   Through any number of broken sessions and failed starts, while the control
   channel lives there is exactly one data channel: requested, commanded, queued,
   being started or forwarding. So the client never holds a spare one, and the
   service is never without one for good.
   */
  lemma ExactlyOne(timeout: nat, run: seq<Step>, p: Pool)
    requires Leads(Enabled, Next, Init(timeout), run, p)
    ensures Alive(p.supply) ==>
              p.supply.requests + (p.supply.written - p.supply.handed) + |p.supply.queue|
              + |p.starting.AsSeq()| + |p.session.AsSeq()| == UDP_POOL_SIZE
  {
    Reachable(timeout, run, p);
  }

  /** A data channel that failed or whose session broke is never used again. */
  lemma NeverReused(timeout: nat, run: seq<Step>, p: Pool, c: nat)
    requires Leads(Enabled, Next, Init(timeout), run, p) && c in p.past
    ensures p.session != Some(c) && p.starting != Some(c)
    ensures c !in p.supply.queue && c !in p.supply.transit
    ensures multiset(p.past)[c] == 1
  {
    Reachable(timeout, run, p);
    assert multiset(Held(p)) == multiset(p.past) + multiset(p.starting.AsSeq()) + multiset(p.session.AsSeq());
    assert Places(p.supply)[c] + multiset(Held(p))[c] <= 1;
  }

  /** In every interleaving a control channel is declared stuck only for a reason, and never one that is prompt. */
  lemma StuckOnlyForAReason(timeout: nat, run: seq<Step>, p: Pool)
    requires Leads(Enabled, Next, Init(timeout), run, p)
    ensures ControlLoop.Prompt(p.supply.timeout, p.supply.script) ==> p.supply.loop != ControlLoop.Stuck
    ensures p.supply.loop == ControlLoop.Stuck ==> StuckRightly(p.supply)
  {
    Reachable(timeout, run, p);
    AlarmInContext(p.supply);
  }

  /** The steps that bring a session up. */
  predicate Serving(step: Step) {
    step.TakeChannel? || step.StartOk? || (step.Inner? && Quiet(step.move))
  }

  /** No serving step is possible. */
  ghost predicate NothingToServe(p: Pool) { forall step :: Serving(step) ==> !Enabled(p, step) }

  function Work(p: Pool): int { Supply.Work(p.supply) + |p.starting.AsSeq()| }

  lemma ServingStepsWork(p: Pool, step: Step)
    requires Supply.Inv(p.supply) && Alive(p.supply) && Enabled(p, step) && Serving(step)
    ensures Work(Next(p, step)) < Work(p)
    ensures Alive(Next(p, step).supply) && Next(p, step).supply.lost == p.supply.lost
  {
    if step.Inner? {
      QuietMovesWork(p.supply, step.move);
    }
  }

  lemma NotStuck(p: Pool)
    requires Supply.Inv(p.supply) && CreditInv(p) && Alive(p.supply) && p.supply.lost == 0
    requires NothingToServe(p)
    ensures p.session.Some? && Credit(p.supply) == 0 && p.supply.loop.deadline.None?
  {
    forall m | Quiet(m) ensures !Supply.Enabled(p.supply, m) {
      assert !Enabled(p, Inner(m));
    }
    assert Credit(p.supply) <= 1;
    NoQuietMove(p.supply);
    assert !Enabled(p, TakeChannel) && !Enabled(p, StartOk);
  }

  /** A reachable state with a live control channel and nothing lost. */
  ghost predicate Serves(p: Pool) { PoolInv(p) && Alive(p.supply) && p.supply.lost == 0 }

  lemma KeepsServing(p: Pool, step: Step)
    requires Serves(p) && Enabled(p, step) && Serving(step)
    ensures Serves(Next(p, step)) && Work(Next(p, step)) < Work(p)
  {
    ServingStepsWork(p, step);
    KeepsInv(p, step);
  }

  /**
   From any reachable state of a live control channel that has lost no data
   channel, serving steps come to an end within `Work` steps, with a session up,
   nothing else on the way, and the deadline disarmed.
   */
  lemma SessionComesUp(p: Pool, run: seq<Step>, end: Pool)
    requires PoolInv(p) && Alive(p.supply) && p.supply.lost == 0
    requires Leads(Enabled, Next, p, run, end) && forall i :: 0 <= i < |run| ==> Serving(run[i])
    ensures |run| <= Work(p)
    ensures PoolInv(end) && Alive(end.supply)
    ensures NothingToServe(end) ==>
              end.session.Some? && Credit(end.supply) == 0 && end.supply.loop.deadline.None?
  {
    forall q, step | Serves(q) && Enabled(q, step) && Serving(step)
      ensures Serves(Next(q, step)) && Work(Next(q, step)) < Work(q)
    {
      KeepsServing(q, step);
    }
    Bounded(Enabled, Next, Serving, Serves, Work, p, run, end);
    if NothingToServe(end) {
      NotStuck(end);
    }
  }

  // ----- The end -----

  /** Once the loop has seen the shutdown signal, no run makes it write another command or take another turn. */
  lemma NothingAfterStop(p: Pool, run: seq<Step>, end: Pool)
    requires PoolInv(p) && Enabled(p, Inner(Stop)) && Leads(Enabled, Next, Next(p, Inner(Stop)), run, end)
    ensures end.supply.loop == ControlLoop.Stopped && end.supply.written == p.supply.written
  {
    var q := Next(p, Inner(Stop));
    var over := (r: Pool) => OverSince(q.supply, r.supply);
    OverIff(p.supply, Stop);
    forall r, step | over(r) && Enabled(r, step) ensures over(Next(r, step)) {
      if step.Inner? {
        MoveKeepsOver(q.supply, r.supply, step.move);
      }
    }
    Always(Enabled, Next, over, q, run, end);
  }

  /** The steps by which the tasks of a dropped control channel come to their ends. */
  predicate Closing(step: Step) { step.Inner? ==> step.move.Stop? || step.move.WriteEnds? }

  ghost predicate NothingToClose(p: Pool) { forall step :: Closing(step) ==> !Enabled(p, step) }

  function OneIf(b: bool): nat { if b then 1 else 0 }

  function Unclosed(p: Pool): int {
    OneIf(Listens(p.supply)) + |p.supply.writing.AsSeq()| + 3 * |p.supply.queue|
    + 2 * |p.starting.AsSeq()| + |p.session.AsSeq()| + OneIf(p.pooling)
  }

  lemma ClosingStepsClose(p: Pool, step: Step)
    requires p.supply.dropped && (p.starting.None? || p.session.None?) && Enabled(p, step) && Closing(step)
    ensures Next(p, step).supply.dropped && (Next(p, step).starting.None? || Next(p, step).session.None?)
    ensures Unclosed(Next(p, step)) < Unclosed(p)
  {
  }

  /** Once the handle is dropped, the closing steps come to an end, and then the loop and the pool have. */
  lemma EveryTaskEnds(p: Pool, run: seq<Step>, end: Pool)
    requires p.supply.dropped && (p.starting.None? || p.session.None?)
    requires Leads(Enabled, Next, p, run, end) && forall i :: 0 <= i < |run| ==> Closing(run[i])
    ensures |run| <= Unclosed(p)
    ensures NothingToClose(end) ==> !Listens(end.supply) && !end.pooling
  {
    var dropped := (q: Pool) => q.supply.dropped && (q.starting.None? || q.session.None?);
    forall q, step | dropped(q) && Enabled(q, step) && Closing(step)
      ensures dropped(Next(q, step)) && Unclosed(Next(q, step)) < Unclosed(q)
    {
      ClosingStepsClose(q, step);
    }
    Bounded(Enabled, Next, Closing, dropped, Unclosed, p, run, end);
    if NothingToClose(end) {
      NotStuckClosing(end);
    }
  }

  lemma NotStuckClosing(p: Pool)
    requires p.supply.dropped && NothingToClose(p)
    ensures !Listens(p.supply) && !p.pooling
  {
    assert !Enabled(p, Inner(WriteEnds(true))) && !Enabled(p, Inner(Stop));
    assert !Enabled(p, TakeChannel) && !Enabled(p, StartOk);
    assert !Enabled(p, Step.Shutdown) && !Enabled(p, ChannelsClosed);
  }

  predicate EndsPool(p: Pool, step: Step) {
    || step.Shutdown? || step.ChannelsClosed?
    || ((step.StartFailed? || step.SessionBroken?) && !Listens(p.supply))
  }

  /** A pool that has ended does not come back: no run makes it take or use another data channel. */
  lemma EndedPoolIsOver(p: Pool, step: Step, run: seq<Step>, end: Pool)
    requires PoolInv(p) && Enabled(p, step) && EndsPool(p, step)
    requires Leads(Enabled, Next, Next(p, step), run, end)
    ensures !end.pooling && end.session.None? && end.starting.None? && end.past == Next(p, step).past
  {
    var q := Next(p, step);
    var over := (r: Pool) => !r.pooling && r.session.None? && r.starting.None? && r.past == q.past;
    Always(Enabled, Next, over, q, run, end);
  }

  /** A session can break at any time; its replacement is asked for, and nothing else of the supply changes. */
  lemma BrokenSessionIsReplaced(p: Pool)
    requires PoolInv(p) && Alive(p.supply) && p.session.Some?
    ensures Enabled(p, SessionBroken)
    ensures var p' := Next(p, SessionBroken);
            && p'.supply == p.supply.(requests := 1) && p'.session.None? && p'.starting.None? && p'.pooling
            && p'.past == p.past + [p.session.value]
  {
  }
}
