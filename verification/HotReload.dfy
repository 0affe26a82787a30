/**
 Hot reload as a whole: the watcher loop (src/config_watcher.rs), the generation
 loop that restarts or forwards (src/lib.rs, `run_with_config`) and the instance,
 in any interleaving. The outcome must be what a fresh start from the last valid
 configuration gives.
 */
module HotReload {
  import opened Config
  import opened ConfigWatcher
  import opened Instances
  import opened Runs

  // ----- The watcher loop -----

  /** One file event: the file does not load, or loads as `config`. */
  datatype Scan = Invalid | Loaded(config: Config, orders: Orders)

  ghost predicate ScansFit(old_: Config, scans: seq<Scan>) {
    forall k :: 0 <= k < |scans| && scans[k].Loaded? ==>
      && WellNamed(scans[k].config)
      && OrdersFit(scans[k].orders, LastValid(old_, scans[..k]), scans[k].config)
  }

  /** The configuration of the last scan that loaded. */
  function LastValid(old_: Config, scans: seq<Scan>): Config {
    if scans == [] then old_
    else if scans[|scans|-1].Loaded? then scans[|scans|-1].config
    else LastValid(old_, scans[..|scans|-1])
  }

  /** The loop of `config_watcher`: what it sends, and the configuration it ends up holding. */
  method Watch(origin: Config, scans: seq<Scan>, ghost f: Flags) returns (sent: seq<ConfigChange>, old_: Config)
    requires ScansFit(origin, scans)
    ensures old_ == LastValid(origin, scans)
    ensures DeliverAll(Boot(origin, f), f, sent) == Boot(LastValid(origin, scans), f)
  {
    sent, old_ := [], origin;
    for i := 0 to |scans|
      invariant old_ == LastValid(origin, scans[..i])
      invariant DeliverAll(Boot(origin, f), f, sent) == Boot(old_, f)
    {
      assert scans[..i+1][..i] == scans[..i];
      if scans[i].Loaded? {
        var events := CalculateEvents(old_, scans[i].config, scans[i].orders).GetOr([]);
        RescanLeadsToNew(old_, scans[i].config, scans[i].orders, f);
        DeliverConcat(Boot(origin, f), f, sent, events);
        sent := sent + events;
        old_ := scans[i].config;
      }
    }
    assert scans[..|scans|] == scans;
  }

  // ----- Watcher, generation loop and instance running side by side -----

  datatype System = System(
    flags: Flags,
    old_: Config,                // what the watcher compares with
    events: seq<ConfigChange>,   // watcher to generation loop
    instance: Instance,
    updates: seq<ConfigChange>)  // generation loop to instance

  datatype Step =
    | Rescan(scan: Scan)  // the watcher handles a file event
    | Take                // the generation loop handles an event
    | Update              // the instance handles a forwarded change

  /** The watcher starts by announcing the configuration it loaded first. */
  function Init(f: Flags, origin: Config): System { System(f, origin, [General(origin)], Down, []) }

  ghost predicate Enabled(s: System, step: Step) {
    match step
    case Rescan(Invalid) => true
    case Rescan(Loaded(c, o)) => WellNamed(c) && OrdersFit(o, s.old_, c)
    case Take => s.events != []
    case Update => s.updates != []
  }

  ghost function Next(s: System, step: Step): System
    requires Enabled(s, step)
  {
    match step
    case Rescan(Invalid) => s
    case Rescan(Loaded(c, o)) => s.(old_ := c, events := s.events + CalculateEvents(s.old_, c, o).GetOr([]))
    case Take =>
      var e, s' := s.events[0], s.(events := s.events[1..]);
      if e.General? then s'.(instance := Boot(e.config, s.flags), updates := [])
      else s'.(updates := s.updates + [e])
    case Update => s.(instance := Apply(s.instance, s.updates[0]), updates := s.updates[1..])
  }

  /** Working off everything still queued would give a fresh start from the watcher's configuration. */
  ghost predicate Inv(s: System) {
    && DeliverAll(s.instance, s.flags, s.updates + s.events) == Boot(s.old_, s.flags)
    && (forall k :: 0 <= k < |s.updates| ==> !s.updates[k].General?)
  }

  lemma KeepsInv(s: System, step: Step)
    requires Inv(s) && Enabled(s, step)
    ensures Inv(Next(s, step))
  {
    match step
    case Rescan(scan) => RescanKeepsInv(s, scan);
    case Take => TakeKeepsInv(s);
    case Update => UpdateKeepsInv(s);
  }

  lemma RescanKeepsInv(s: System, scan: Scan)
    requires Inv(s) && Enabled(s, Rescan(scan))
    ensures Inv(Next(s, Rescan(scan)))
  {
    if scan.Loaded? {
      var more := CalculateEvents(s.old_, scan.config, scan.orders).GetOr([]);
      RescanLeadsToNew(s.old_, scan.config, scan.orders, s.flags);
      assert s.updates + (s.events + more) == s.updates + s.events + more;
      DeliverConcat(s.instance, s.flags, s.updates + s.events, more);
    }
  }

  lemma TakeKeepsInv(s: System)
    requires Inv(s) && Enabled(s, Take)
    ensures Inv(Next(s, Take))
  {
    var e, rest := s.events[0], s.events[1..];
    assert s.updates + s.events == (s.updates + [e]) + rest;
    if e.General? {
      DeliverConcat(s.instance, s.flags, s.updates + [e], rest);
      assert (s.updates + [e])[..|s.updates|] == s.updates;
      assert [] + rest == rest;
    }
  }

  lemma UpdateKeepsInv(s: System)
    requires Inv(s) && Enabled(s, Update)
    ensures Inv(Next(s, Update))
  {
    var first, rest := [s.updates[0]], s.updates[1..] + s.events;
    assert s.updates + s.events == first + rest;
    DeliverConcat(s.instance, s.flags, first, rest);
    assert first[..0] == [];
  }

  function ScansOf(run: seq<Step>): seq<Scan> {
    if run == [] then []
    else (if run[0].Rescan? then [run[0].scan] else []) + ScansOf(run[1..])
  }

  lemma {:induction false} LastValidConcat(old_: Config, a: seq<Scan>, b: seq<Scan>)
    ensures LastValid(old_, a + b) == LastValid(LastValid(old_, a), b)
  {
    if b == [] {
      assert a + b == a;
    } else {
      assert (a + b)[..|a + b| - 1] == a + b[..|b|-1];
      LastValidConcat(old_, a, b[..|b|-1]);
    }
  }

  /** The invariant over whole runs; the watcher holds the last valid configuration. */
  lemma {:induction false} Reachable(s: System, run: seq<Step>, end: System)
    requires Inv(s) && Leads(Enabled, Next, s, run, end)
    ensures Inv(end) && end.flags == s.flags && end.old_ == LastValid(s.old_, ScansOf(run))
    decreases |run|
  {
    if run != [] {
      KeepsInv(s, run[0]);
      Reachable(Next(s, run[0]), run[1..], end);
      var first := if run[0].Rescan? then [run[0].scan] else [];
      LastValidConcat(s.old_, first, ScansOf(run[1..]));
      assert first != [] ==> first[..0] == [];
    }
  }

  /**
   After any run, once both queues are drained, the instance goes by exactly the
   general settings and services of the last valid configuration: it is what a
   fresh start would give. Before that, draining is all that is missing.
   */
  lemma Converges(f: Flags, origin: Config, run: seq<Step>, end: System)
    requires Leads(Enabled, Next, Init(f, origin), run, end)
    ensures DeliverAll(end.instance, f, end.updates + end.events) == Boot(LastValid(origin, ScansOf(run)), f)
    ensures end.events == [] && end.updates == [] ==> end.instance == Boot(LastValid(origin, ScansOf(run)), f)
  {
    Start(f, origin);
    Reachable(Init(f, origin), run, end);
  }

  /** The steps that work off what is queued. */
  predicate Draining(step: Step) { step.Take? || step.Update? }

  lemma DrainingStepsDrain(s: System, step: Step)
    requires Enabled(s, step) && Draining(step)
    ensures Next(s, step).old_ == s.old_ && Next(s, step).flags == s.flags
    ensures 2 * |Next(s, step).events| + |Next(s, step).updates| < 2 * |s.events| + |s.updates|
  {
  }

  /**
   When no further file event is handled, the queues are worked off in boundedly many
   steps, in any order, and then the instance is that of the last valid configuration.
   */
  lemma Drains(f: Flags, origin: Config, run: seq<Step>, s: System, more: seq<Step>, end: System)
    requires Leads(Enabled, Next, Init(f, origin), run, s) && Leads(Enabled, Next, s, more, end)
    requires forall i :: 0 <= i < |more| ==> Draining(more[i])
    ensures |more| <= 2 * |s.events| + |s.updates|
    ensures !Enabled(end, Take) && !Enabled(end, Update) ==> end.instance == Boot(LastValid(origin, ScansOf(run)), f)
  {
    var work := (q: System) => 2 * |q.events| + |q.updates|;
    var kept := (q: System) => q.old_ == s.old_ && q.flags == s.flags;
    forall q, step | kept(q) && Enabled(q, step) && Draining(step)
      ensures kept(Next(q, step)) && work(Next(q, step)) < work(q)
    {
      DrainingStepsDrain(q, step);
    }
    Bounded(Enabled, Next, Draining, kept, work, s, more, end);
    Start(f, origin);
    Reachable(Init(f, origin), run, s);
    Reachable(s, more, end);
  }

  lemma Start(f: Flags, origin: Config)
    ensures Inv(Init(f, origin))
  {
    assert Init(f, origin).updates + Init(f, origin).events == [General(origin)];
    assert [General(origin)][..0] == [];
  }
}
