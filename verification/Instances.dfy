/**
 A running instance (src/lib.rs `run_instance`, src/server.rs and src/client.rs
 `handle_hot_reload`): it starts from a configuration and then applies service
 changes one by one.
 */
module Instances {
  import opened Basics
  import opened Config
  import opened ConfigWatcher

  datatype Flags = Flags(client: bool, server: bool)
  datatype RunMode = ServerMode | ClientMode | Ambiguous | Undetermine

  function DetermineRunMode(c: Config, f: Flags): RunMode {
    if f.client && f.server then Undetermine
    else if f.client then ClientMode
    else if f.server then ServerMode
    else if c.client.Some? && c.server.Some? then Ambiguous
    else if c.client.Some? then ClientMode
    else if c.server.Some? then ServerMode
    else Undetermine
  }

  /** What a running instance goes by: its general settings and its services. */
  datatype Instance =
    | ServerUp(serverGeneral: ServerConfig, index: map<Digest<string>, ServerService>)
    | ClientUp(clientGeneral: ClientConfig, handles: map<string, ClientService>)
    | Down

  /** The service table indexed by digest. */
  function Index(services: map<string, ServerService>): map<Digest<string>, ServerService> {
    map d: Digest<string> | d in (set n | n in services :: Digest(n)) :: services[d.data]
  }

  /** `run_instance`: a fresh start from a configuration. */
  function Boot(c: Config, f: Flags): Instance {
    match DetermineRunMode(c, f)
    case ServerMode =>
      if c.server.None? then Down else ServerUp(ServerGeneral(c.server.value), Index(c.server.value.services))
    case ClientMode =>
      if c.client.None? then Down else ClientUp(ClientGeneral(c.client.value), c.client.value.services)
    case _ => Down
  }

  /** `handle_hot_reload` on either side; the other side's changes are ignored. */
  function Apply(i: Instance, e: ConfigChange): Instance {
    match (i, e)
    case (ServerUp(g, index), ServerChange(Add(cfg))) => ServerUp(g, index[Digest(cfg.name) := cfg])
    case (ServerUp(g, index), ServerChange(Delete(n))) => ServerUp(g, index - {Digest(n)})
    case (ClientUp(g, handles), ClientChange(Add(cfg))) => ClientUp(g, handles[cfg.name := cfg])
    case (ClientUp(g, handles), ClientChange(Delete(n))) => ClientUp(g, handles - {n})
    case _ => i
  }

  /** One event of the watcher: restart, or forward to the instance. */
  function Deliver(i: Instance, f: Flags, e: ConfigChange): Instance {
    if e.General? then Boot(e.config, f) else Apply(i, e)
  }

  function DeliverAll(i: Instance, f: Flags, es: seq<ConfigChange>): Instance {
    if es == [] then i else Deliver(DeliverAll(i, f, es[..|es|-1]), f, es[|es|-1])
  }

  lemma {:induction false} DeliverConcat(i: Instance, f: Flags, a: seq<ConfigChange>, b: seq<ConfigChange>)
    ensures DeliverAll(i, f, a + b) == DeliverAll(DeliverAll(i, f, a), f, b)
  {
    if b == [] {
      assert a + b == a;
    } else {
      assert (a + b)[..|a + b| - 1] == a + b[..|b|-1];
      DeliverConcat(i, f, a, b[..|b|-1]);
    }
  }

  /** Server changes act on a server's index as on the table behind it, and on nothing else. */
  lemma {:induction false} ServerReplay(
      i: Instance, f: Flags, table: map<string, ServerService>, d: seq<ServiceChange<ServerService>>)
    requires i.ServerUp? ==> i.index == Index(table)
    ensures DeliverAll(i, f, ServerChanges(d)) ==
              if i.ServerUp? then i.(index := Index(Replay(table, d, (s: ServerService) => s.name))) else i
  {
    if d != [] {
      var d' := d[..|d|-1];
      assert ServerChanges(d)[..|d|-1] == ServerChanges(d');
      ServerReplay(i, f, table, d');
      if i.ServerUp? {
        IndexFollows(Replay(table, d', (s: ServerService) => s.name), d[|d|-1]);
      }
    }
  }

  lemma IndexFollows(table: map<string, ServerService>, change: ServiceChange<ServerService>)
    ensures change.Add? ==> Index(table)[Digest(change.cfg.name) := change.cfg] == Index(table[change.cfg.name := change.cfg])
    ensures change.Delete? ==> Index(table) - {Digest(change.name)} == Index(table - {change.name})
  {
  }

  lemma {:induction false} ClientReplay(i: Instance, f: Flags, d: seq<ServiceChange<ClientService>>)
    ensures DeliverAll(i, f, ClientChanges(d)) ==
              if i.ClientUp? then i.(handles := Replay(i.handles, d, (s: ClientService) => s.name)) else i
  {
    if d != [] {
      assert ClientChanges(d)[..|d|-1] == ClientChanges(d[..|d|-1]);
      ClientReplay(i, f, d[..|d|-1]);
    }
  }

  /** One rescan: the events take the instance of the old configuration to that of the new one. */
  lemma RescanLeadsToNew(old_: Config, new_: Config, o: Orders, f: Flags)
    requires OrdersFit(o, old_, new_) && WellNamed(new_)
    ensures DeliverAll(Boot(old_, f), f, CalculateEvents(old_, new_, o).GetOr([])) == Boot(new_, f)
  {
    var es := CalculateEvents(old_, new_, o).GetOr([]);
    if es == [General(new_)] {
      assert es[..0] == [];
    } else if old_ != new_ {
      ServiceRescan(old_, new_, o, f);
    }
  }

  lemma ServiceRescan(old_: Config, new_: Config, o: Orders, f: Flags)
    requires OrdersFit(o, old_, new_) && WellNamed(new_) && old_ != new_
    requires CalculateEvents(old_, new_, o) != Some([General(new_)])
    ensures DeliverAll(Boot(old_, f), f, CalculateEvents(old_, new_, o).GetOr([])) == Boot(new_, f)
  {
    var i := Boot(old_, f);
    var server, client := [], [];
    if old_.server != new_.server {
      server := ServerEvents(old_.server.value, new_.server.value, o).value;
      var a, b := old_.server.value.services, new_.server.value.services;
      ServerReplay(i, f, a, Diff(a, b, o.oldServer, o.newServer));
      DiffLeadsToNew(a, b, o.oldServer, o.newServer, (s: ServerService) => s.name);
    }
    var j := DeliverAll(i, f, server);
    if old_.client != new_.client {
      client := ClientEvents(old_.client.value, new_.client.value, o).value;
      var a, b := old_.client.value.services, new_.client.value.services;
      ClientReplay(j, f, Diff(a, b, o.oldClient, o.newClient));
      DiffLeadsToNew(a, b, o.oldClient, o.newClient, (s: ClientService) => s.name);
    }
    DeliverConcat(i, f, server, client);
    SameMode(old_, new_, f);
  }

  lemma SameMode(old_: Config, new_: Config, f: Flags)
    requires old_.server.Some? == new_.server.Some? && old_.client.Some? == new_.client.Some?
    ensures DetermineRunMode(old_, f) == DetermineRunMode(new_, f)
  {
  }

  // ----- The server and the client -----

  class Server {
    var config: ServerConfig
    var services: map<Digest<string>, ServerService>
    var controlChannels: map<Digest<string>, nat>  // by service digest; see module Handshake

    constructor (config: ServerConfig, order: seq<string>)
      requires IsIterationOf(order, config.services.Keys)
      ensures this.config == config && services == Index(config.services) && controlChannels == map[]
    {
      this.config := config;
      controlChannels := map[];
      var index := GenerateServiceHashmap(config, order);
      services := index;
    }

    static method GenerateServiceHashmap(config: ServerConfig, order: seq<string>)
        returns (ret: map<Digest<string>, ServerService>)
      requires IsIterationOf(order, config.services.Keys)
      ensures ret == Index(config.services)
    {
      ret := map[];
      for i := 0 to |order|
        invariant forall d :: d in ret <==> exists j :: 0 <= j < i && d == Digest(order[j])
        invariant forall d :: d in ret ==> d.data in config.services && ret[d] == config.services[d.data]
      {
        ret := ret[Digest(order[i]) := config.services[order[i]]];
      }
      assert forall d: Digest<string> :: d in ret <==> d.data in order;
    }

    function Live(): Instance
      reads this
    {
      ServerUp(ServerGeneral(config), services)
    }

    method HandleHotReload(e: ConfigChange)
      modifies this`services, this`controlChannels
      ensures Live() == Apply(old(Live()), e)
      ensures controlChannels == old(controlChannels) - Touched([e])
    {
      match e {
        case ServerChange(Add(cfg)) =>
          services := services[Digest(cfg.name) := cfg];
          controlChannels := controlChannels - {Digest(cfg.name)};
        case ServerChange(Delete(name)) =>
          services := services - {Digest(name)};
          controlChannels := controlChannels - {Digest(name)};
        case _ =>
      }
      assert Touched([e][..0]) == {};
    }

    /** The updates the server's loop receives, one after the other. */
    method HandleAll(es: seq<ConfigChange>, ghost f: Flags)
      requires forall k :: 0 <= k < |es| ==> !es[k].General?
      modifies this`services, this`controlChannels
      ensures Live() == DeliverAll(old(Live()), f, es)
      ensures controlChannels == old(controlChannels) - Touched(es)
    {
      for i := 0 to |es|
        invariant Live() == DeliverAll(old(Live()), f, es[..i])
        invariant controlChannels == old(controlChannels) - Touched(es[..i])
      {
        HandleHotReload(es[i]);
        assert es[..i+1][..i] == es[..i] && [es[i]][..0] == [];
      }
      assert es[..|es|] == es;
    }
  }

  class Client {
    var config: ClientConfig
    var serviceHandles: map<string, ClientService>  // one control channel task per name

    constructor (config: ClientConfig)
      ensures this.config == config && serviceHandles == map[]
    {
      this.config := config;
      serviceHandles := map[];
    }

    function Live(): Instance
      reads this
    {
      ClientUp(ClientGeneral(config), serviceHandles)
    }

    /** The loop with which `run` starts: one control channel for each service. */
    method StartServices(order: seq<string>)
      requires IsIterationOf(order, config.services.Keys) && serviceHandles == map[]
      modifies this`serviceHandles
      ensures Live() == ClientUp(ClientGeneral(config), config.services)
    {
      for i := 0 to |order|
        invariant forall n :: n in serviceHandles <==> exists j :: 0 <= j < i && n == order[j]
        invariant forall n :: n in serviceHandles ==> n in config.services && serviceHandles[n] == config.services[n]
      {
        serviceHandles := serviceHandles[order[i] := config.services[order[i]]];
      }
      assert forall n :: n in serviceHandles <==> n in order;
      assert serviceHandles == config.services;
    }

    method HandleHotReload(e: ConfigChange)
      modifies this`serviceHandles
      ensures Live() == Apply(old(Live()), e)
    {
      match e {
        case ClientChange(Add(cfg)) => serviceHandles := serviceHandles[cfg.name := cfg];
        case ClientChange(Delete(name)) => serviceHandles := serviceHandles - {name};
        case _ =>
      }
    }
  }

  /** The services whose control channel a run of changes drops. */
  function Touched(es: seq<ConfigChange>): set<Digest<string>> {
    if es == [] then {} else
    Touched(es[..|es|-1]) +
    match es[|es|-1]
    case ServerChange(Add(cfg)) => {Digest(cfg.name)}
    case ServerChange(Delete(name)) => {Digest(name)}
    case _ => {}
  }

  lemma {:induction false} TouchedConcat(a: seq<ConfigChange>, b: seq<ConfigChange>)
    ensures Touched(a + b) == Touched(a) + Touched(b)
  {
    if b == [] {
      assert a + b == a;
    } else {
      assert (a + b)[..|a + b| - 1] == a + b[..|b|-1];
      TouchedConcat(a, b[..|b|-1]);
    }
  }

  lemma {:induction false} TouchedByDeletions(order: seq<string>, new_: map<string, ServerService>, n: string)
    ensures Digest(n) in Touched(ServerChanges(Deletions(order, new_))) <==> n in order && n !in new_
    decreases |order|
  {
    if order != [] {
      var first: seq<ServiceChange<ServerService>> := if order[0] in new_ then [] else [Delete(order[0])];
      assert first != [] ==> ServerChanges(first)[..0] == [];
      assert ServerChanges(first + Deletions(order[1..], new_)) == ServerChanges(first) + ServerChanges(Deletions(order[1..], new_));
      TouchedConcat(ServerChanges(first), ServerChanges(Deletions(order[1..], new_)));
      TouchedByDeletions(order[1..], new_, n);
      assert n in order <==> n == order[0] || n in order[1..];
    }
  }

  lemma {:induction false} TouchedByAdditions(
      order: seq<string>, old_: map<string, ServerService>, new_: map<string, ServerService>, n: string)
    requires forall m :: m in order ==> m in new_ && new_[m].name == m
    ensures Digest(n) in Touched(ServerChanges(Additions(order, old_, new_)))
            <==> n in order && !(n in old_ && old_[n] == new_[n])
    decreases |order|
  {
    if order != [] {
      var n0 := order[0];
      var first: seq<ServiceChange<ServerService>> :=
        if n0 in old_ && old_[n0] == new_[n0] then [] else [Add(new_[n0])];
      var rest := Additions(order[1..], old_, new_);
      assert first != [] ==> ServerChanges(first)[..0] == [];
      assert ServerChanges(first + rest) == ServerChanges(first) + ServerChanges(rest);
      TouchedConcat(ServerChanges(first), ServerChanges(rest));
      TouchedByAdditions(order[1..], old_, new_, n);
      assert n in order <==> n == n0 || n in order[1..];
    }
  }

  /** Changes of client services leave the server's control channels alone. */
  lemma {:induction false} ClientChangesTouchNothing(d: seq<ServiceChange<ClientService>>)
    ensures Touched(ClientChanges(d)) == {}
  {
    if d != [] {
      assert ClientChanges(d)[..|d|-1] == ClientChanges(d[..|d|-1]);
      ClientChangesTouchNothing(d[..|d|-1]);
    }
  }

  lemma TouchedByDiff(
      old_: map<string, ServerService>, new_: map<string, ServerService>, oldOrder: seq<string>, newOrder: seq<string>,
      n: string)
    requires IsIterationOf(oldOrder, old_.Keys) && IsIterationOf(newOrder, new_.Keys)
    requires forall m :: m in new_ ==> new_[m].name == m
    ensures Digest(n) in Touched(ServerChanges(Diff(old_, new_, oldOrder, newOrder))) <==>
              (n in old_ || n in new_) && !(n in old_ && n in new_ && old_[n] == new_[n])
  {
    var deletions, additions := Deletions(oldOrder, new_), Additions(newOrder, old_, new_);
    assert ServerChanges(deletions + additions) == ServerChanges(deletions) + ServerChanges(additions);
    TouchedConcat(ServerChanges(deletions), ServerChanges(additions));
    TouchedByDeletions(oldOrder, new_, n);
    TouchedByAdditions(newOrder, old_, new_, n);
  }

  /**
   A rescan that needs no restart drops exactly the control channels of the services
   that were removed, added or changed; every service that is equal in both
   configurations keeps its control channel.
   */
  lemma EqualServicesKeepTheirChannel(old_: Config, new_: Config, o: Orders, n: string)
    requires OrdersFit(o, old_, new_) && WellNamed(new_) && !NeedsRestart(old_, new_)
    ensures var a, b := ServerServices(old_), ServerServices(new_);
            Digest(n) in Touched(CalculateEvents(old_, new_, o).GetOr([])) <==>
              (n in a || n in b) && !(n in a && n in b && a[n] == b[n])
  {
    EventsAreDiffs(old_, new_, o);
    var server, client := [], [];
    if new_.server.Some? {
      server := ServerChanges(Diff(ServerServices(old_), ServerServices(new_), o.oldServer, o.newServer));
      TouchedByDiff(ServerServices(old_), ServerServices(new_), o.oldServer, o.newServer, n);
    }
    if new_.client.Some? {
      var d := Diff(ClientServices(old_), ClientServices(new_), o.oldClient, o.newClient);
      client := ClientChanges(d);
      ClientChangesTouchNothing(d);
    }
    TouchedConcat(server, client);
  }

  /** Which role an instance takes on: the one asked for, or the only one there is. */
  lemma RoleIs(c: Config, f: Flags)
    ensures Boot(c, f).ServerUp? <==> c.server.Some? && !f.client && (f.server || c.client.None?)
    ensures Boot(c, f).ClientUp? <==> c.client.Some? && !f.server && (f.client || c.server.None?)
    ensures Boot(c, f).ServerUp? ==>
              && SameServerSettings(Boot(c, f).serverGeneral, c.server.value)
              && (forall n :: n in c.server.value.services ==>
                    Digest(n) in Boot(c, f).index && Boot(c, f).index[Digest(n)] == c.server.value.services[n])
              && (forall d :: d in Boot(c, f).index ==> d.data in c.server.value.services)
    ensures Boot(c, f).ClientUp? ==>
              SameClientSettings(Boot(c, f).clientGeneral, c.client.value) && Boot(c, f).handles == c.client.value.services
  {
    if Boot(c, f).ServerUp? {
      assert forall n :: n in c.server.value.services ==> Digest(n) in Index(c.server.value.services);
    }
  }
}
