/**
 The server's status snapshot (src/runtime_status.rs): setters that overwrite one
 service's fields under a lock. `source` stands for a peer address and `since` for
 the wall-clock time of a connect.
 */
module RuntimeStatus {
  import opened Basics

  datatype ControlState = Waiting | Connected

  datatype Snapshot = Snapshot(
    state: ControlState,
    controlChannelSource: Option<int>,
    connectedSince: Option<nat>,
    lastError: Option<string>)

  const Fresh := Snapshot(Waiting, None, None, None)

  datatype Event =
    | Connect(name: string, source: int, since: nat)
    | Disconnect(name: string, source: int, since: nat, detail: string)
    | Add(name: string)
    | Remove(name: string)

  function Step(services: map<string, Snapshot>, e: Event): map<string, Snapshot> {
    match e
    case Connect(n, source, since) =>
      if n in services then services[n := Snapshot(Connected, Some(source), Some(since), None)] else services
    case Disconnect(n, source, since, detail) =>
      if n in services && services[n].controlChannelSource == Some(source) && services[n].connectedSince == Some(since)
      then services[n := Snapshot(Waiting, None, None, Some(detail))]
      else services
    case Add(n) => services[n := Fresh]
    case Remove(n) => services - {n}
  }

  function After(services: map<string, Snapshot>, run: seq<Event>): map<string, Snapshot> {
    if run == [] then services else Step(After(services, run[..|run|-1]), run[|run|-1])
  }

  /** The registry shared by all tasks. */
  class Registry {
    var services: map<string, Snapshot>

    constructor (names: set<string>)
      ensures services == map n | n in names :: Fresh
    {
      services := map n | n in names :: Fresh;
    }

    method ServerConnected(name: string, source: int, now: nat) returns (since: Option<nat>)
      modifies this
      ensures services == Step(old(services), Connect(name, source, now))
      ensures since == if name in old(services) then Some(now) else None
    {
      if name in services {
        var s := services[name];
        s := s.(state := Connected);
        s := s.(controlChannelSource := Some(source));
        s := s.(connectedSince := Some(now));
        s := s.(lastError := None);
        services := services[name := s];
        return Some(now);
      }
      return None;
    }

    method ServerDisconnected(name: string, source: int, since: nat, detail: string)
      modifies this
      ensures services == Step(old(services), Disconnect(name, source, since, detail))
    {
      if name in services {
        var s := services[name];
        if s.controlChannelSource != Some(source) || s.connectedSince != Some(since) {
          return;
        }
        s := s.(state := Waiting);
        s := s.(controlChannelSource := None);
        s := s.(connectedSince := None);
        s := s.(lastError := Some(detail));
        services := services[name := s];
      }
    }

    method ServerAdd(name: string)
      modifies this
      ensures services == Step(old(services), Add(name))
    {
      services := services[name := Fresh];
    }

    method RemoveService(name: string)
      modifies this
      ensures services == Step(old(services), Remove(name))
    {
      services := services - {name};
    }
  }

  // ----- What a run of events means for one service -----

  /** The connect that counts: the last one since the service was last added or removed. */
  function LatestConnect(run: seq<Event>, n: string): Option<Event> {
    if run == [] then None else
    var e := run[|run|-1];
    if e.name == n && e.Connect? then Some(e)
    else if e.name == n && (e.Add? || e.Remove?) then None
    else LatestConnect(run[..|run|-1], n)
  }

  /** Has that connect been followed by the teardown of its own channel? */
  predicate TornDown(run: seq<Event>, n: string) {
    run != [] &&
    (var e, before := run[|run|-1], run[..|run|-1];
     if e.name == n && !e.Disconnect? then false
     else
       TornDown(before, n) ||
       (e.name == n && LatestConnect(run, n) == Some(Connect(n, e.source, e.since))))
  }

  /** What the last error should be: the detail of the latest teardown that counted, unless a connect came after it. */
  function LastDetail(run: seq<Event>, n: string): Option<string> {
    if run == [] then None else
    var e, before := run[|run|-1], run[..|run|-1];
    if e.name != n then LastDetail(before, n)
    else if !e.Disconnect? then None
    else if LatestConnect(before, n) == Some(Connect(n, e.source, e.since)) && !TornDown(before, n) then Some(e.detail)
    else LastDetail(before, n)
  }

  /** Does the service exist after the run? */
  predicate Exists(services: map<string, Snapshot>, run: seq<Event>, n: string) {
    if run == [] then n in services else
    var e := run[|run|-1];
    if e.name == n && e.Add? then true
    else if e.name == n && e.Remove? then false
    else Exists(services, run[..|run|-1], n)
  }

  /** Connected, source and since are set or cleared together. */
  predicate Coherent(s: Snapshot) {
    && (s.state.Connected? <==> s.controlChannelSource.Some?)
    && (s.state.Connected? <==> s.connectedSince.Some?)
  }

  predicate ShowsConnected(services: map<string, Snapshot>, n: string) { n in services && services[n].state.Connected? }

  /**
   Over any run, from a fresh registry: a service shows Connected exactly when its
   latest connect since the last add or remove has not itself been torn down, and
   then source and since are those of that connect. Teardowns of other channels
   count for nothing. The last error is the detail of the teardown since then.
   */
  lemma {:induction false} ConnectedIff(services: map<string, Snapshot>, run: seq<Event>, n: string)
    requires forall m :: m in services ==> services[m] == Fresh
    ensures var after := After(services, run);
            && (n in after <==> Exists(services, run, n))
            && (n in after ==> Coherent(after[n]) && after[n].lastError == LastDetail(run, n))
            && (ShowsConnected(after, n) <==>
                  Exists(services, run, n) && LatestConnect(run, n).Some? && !TornDown(run, n))
            && (ShowsConnected(after, n) ==>
                  LatestConnect(run, n)
                  == Some(Connect(n, after[n].controlChannelSource.value, after[n].connectedSince.value)))
  {
    if run != [] {
      ConnectedIff(services, run[..|run|-1], n);
      LatestIsOwn(run[..|run|-1], n);
    }
  }

  lemma {:induction false} LatestIsOwn(run: seq<Event>, n: string)
    ensures LatestConnect(run, n).Some? ==>
              LatestConnect(run, n).value.Connect? && LatestConnect(run, n).value.name == n
              && LatestConnect(run, n).value in run
  {
    if run != [] {
      LatestIsOwn(run[..|run|-1], n);
    }
  }

  /** Exactly when a teardown changes anything: it names the very connect that shows. */
  lemma TeardownCountsIff(
      services: map<string, Snapshot>, run: seq<Event>, n: string, source: int, since: nat, detail: string)
    requires forall m :: m in services ==> services[m] == Fresh
    ensures Step(After(services, run), Disconnect(n, source, since, detail)) != After(services, run)
            <==> ShowsConnected(After(services, run), n) && LatestConnect(run, n) == Some(Connect(n, source, since))
  {
    ConnectedIff(services, run, n);
    var after := After(services, run);
    if ShowsConnected(after, n) && LatestConnect(run, n) == Some(Connect(n, source, since)) {
      assert Step(after, Disconnect(n, source, since, detail))[n].state.Waiting?;
    }
  }

  /** No two connects have the same source and time. */
  ghost predicate DistinctConnects(run: seq<Event>) {
    forall i, j :: 0 <= i < j < |run| && run[i].Connect? && run[j].Connect? ==>
      (run[i].source, run[i].since) != (run[j].source, run[j].since)
  }

  /**
   With distinct connects, the late teardown of a superseded channel changes nothing:
   `older` connected before `newer`, and whatever happened in between and since, the
   disconnect of `older` leaves the snapshot as it is.
   */
  lemma SupersededTeardownIsNoOp(
      services: map<string, Snapshot>, run: seq<Event>, older: nat, newer: nat, detail: string)
    requires forall m :: m in services ==> services[m] == Fresh
    requires DistinctConnects(run) && older < newer < |run|
    requires run[older].Connect? && run[newer].Connect? && run[older].name == run[newer].name
    ensures var e := run[older];
            Step(After(services, run), Disconnect(e.name, e.source, e.since, detail)) == After(services, run)
  {
    var e, n := run[older], run[older].name;
    ConnectedIff(services, run, n);
    LatestIsNotBefore(run, n, newer);
  }

  /** The latest connect is none, or one at `k` or after, if there is a connect at `k`. */
  lemma {:induction false} LatestIsNotBefore(run: seq<Event>, n: string, k: nat)
    requires k < |run| && run[k].Connect? && run[k].name == n
    ensures LatestConnect(run, n).Some? ==> exists j :: k <= j < |run| && run[j] == LatestConnect(run, n).value
  {
    if k < |run| - 1 {
      var before := run[..|run|-1];
      LatestIsNotBefore(before, n, k);
      if LatestConnect(before, n).Some? {
        var j :| k <= j < |before| && before[j] == LatestConnect(before, n).value;
        assert run[j] == before[j];
      }
    }
  }

  /** Distinctness is needed: two connects that look alike, and the first one's teardown clears the second. */
  lemma AlikeConnectsAreConfused()
    ensures var run := [Connect("s", 1, 5), Connect("s", 1, 5)];
            && ShowsConnected(After(map["s" := Fresh], run), "s")
            && !ShowsConnected(After(map["s" := Fresh], run + [Disconnect("s", 1, 5, "")]), "s")
  {
    var c, d := Connect("s", 1, 5), Disconnect("s", 1, 5, "");
    var s0 := map["s" := Fresh];
    assert [c][..0] == [] && [c, c][..1] == [c] && ([c, c] + [d])[..2] == [c, c];
    assert After(s0, [c]) == Step(s0, c);
    assert After(s0, [c, c]) == Step(Step(s0, c), c);
  }
}
