/**
 The config watcher's diff (src/config_watcher.rs): the events that take one
 configuration to another, for any order in which the hash maps are visited.
 */
module ConfigWatcher {
  import opened Basics
  import opened Config

  datatype ServiceChange<S> = Add(cfg: S) | Delete(name: string)

  datatype ConfigChange =
    | General(config: Config)
    | ServerChange(server: ServiceChange<ServerService>)
    | ClientChange(client: ServiceChange<ClientService>)

  // ----- The diff of two service tables -----

  /** Names visited in `order` that the new table no longer has. */
  function Deletions<S(==)>(order: seq<string>, new_: map<string, S>): seq<ServiceChange<S>> {
    if order == [] then []
    else (if order[0] in new_ then [] else [Delete(order[0])]) + Deletions(order[1..], new_)
  }

  /** Services of the new table, visited in `order`, that the old table lacks or has otherwise. */
  function Additions<S(==)>(order: seq<string>, old_: map<string, S>, new_: map<string, S>): seq<ServiceChange<S>>
    requires forall n :: n in order ==> n in new_
  {
    if order == [] then []
    else
      (if order[0] in old_ && old_[order[0]] == new_[order[0]] then [] else [Add(new_[order[0]])])
      + Additions(order[1..], old_, new_)
  }

  function Diff<S(==)>(old_: map<string, S>, new_: map<string, S>, oldOrder: seq<string>, newOrder: seq<string>)
      : seq<ServiceChange<S>>
    requires forall n :: n in newOrder ==> n in new_
  {
    Deletions(oldOrder, new_) + Additions(newOrder, old_, new_)
  }

  /** Applying changes to a table one by one, as the client does. */
  function Replay<S>(table: map<string, S>, changes: seq<ServiceChange<S>>, nameOf: S -> string): map<string, S> {
    if changes == [] then table else
    var rest := Replay(table, changes[..|changes|-1], nameOf);
    match changes[|changes|-1]
    case Add(cfg) => rest[nameOf(cfg) := cfg]
    case Delete(name) => rest - {name}
  }

  lemma {:induction false} ReplayConcat<S>(
      table: map<string, S>, a: seq<ServiceChange<S>>, b: seq<ServiceChange<S>>, nameOf: S -> string)
    ensures Replay(table, a + b, nameOf) == Replay(Replay(table, a, nameOf), b, nameOf)
  {
    if b == [] {
      assert a + b == a;
    } else {
      assert (a + b)[..|a + b| - 1] == a + b[..|b|-1];
      ReplayConcat(table, a, b[..|b|-1], nameOf);
    }
  }

  lemma {:induction false} ReplayDeletions<S>(
      table: map<string, S>, order: seq<string>, new_: map<string, S>, nameOf: S -> string)
    ensures Replay(table, Deletions(order, new_), nameOf) == table - (set n | n in order && n !in new_)
    decreases |order|
  {
    if order == [] {
      assert table - (set n | n in order && n !in new_) == table;
    } else {
      var first: seq<ServiceChange<S>> := if order[0] in new_ then [] else [Delete(order[0])];
      var table' := if order[0] in new_ then table else table - {order[0]};
      assert Replay(table, first, nameOf) == table' by {
        if first != [] { assert first[..0] == []; }
      }
      ReplayConcat(table, first, Deletions(order[1..], new_), nameOf);
      ReplayDeletions(table', order[1..], new_, nameOf);
      assert order == [order[0]] + order[1..];
      assert table' - (set n | n in order[1..] && n !in new_) == table - (set n | n in order && n !in new_);
    }
  }

  /** The entries that `Additions` writes. */
  function Written<S(==)>(order: seq<string>, old_: map<string, S>, new_: map<string, S>): map<string, S>
    requires forall n :: n in order ==> n in new_
  {
    if order == [] then map[]
    else
      var rest := Written(order[1..], old_, new_);
      if order[0] in old_ && old_[order[0]] == new_[order[0]] then rest else rest[order[0] := new_[order[0]]]
  }

  lemma {:induction false} WrittenIs<S>(order: seq<string>, old_: map<string, S>, new_: map<string, S>, n: string)
    requires forall n :: n in order ==> n in new_
    ensures var w := Written(order, old_, new_);
            && (n in w <==> n in order && !(n in old_ && old_[n] == new_[n]))
            && (n in w ==> w[n] == new_[n])
    decreases |order|
  {
    if order != [] {
      assert n in order <==> n == order[0] || n in order[1..];
      WrittenIs(order[1..], old_, new_, n);
    }
  }

  lemma {:induction false} ReplayAdditions<S>(
      table: map<string, S>, order: seq<string>, old_: map<string, S>, new_: map<string, S>, nameOf: S -> string)
    requires forall n :: n in order ==> n in new_
    requires forall n :: n in new_ ==> nameOf(new_[n]) == n
    ensures Replay(table, Additions(order, old_, new_), nameOf) == table + Written(order, old_, new_)
    decreases |order|
  {
    if order == [] {
      assert table + Written(order, old_, new_) == table;
    } else if order[0] in old_ && old_[order[0]] == new_[order[0]] {
      assert Additions(order, old_, new_) == Additions(order[1..], old_, new_);
      ReplayAdditions(table, order[1..], old_, new_, nameOf);
    } else {
      var n0 := order[0];
      var first := [Add(new_[n0])];
      assert first[..0] == [];
      assert Replay(table, first, nameOf) == table[n0 := new_[n0]];
      ReplayConcat(table, first, Additions(order[1..], old_, new_), nameOf);
      ReplayAdditions(table[n0 := new_[n0]], order[1..], old_, new_, nameOf);
      WrittenIs(order[1..], old_, new_, n0);
      assert table[n0 := new_[n0]] + Written(order[1..], old_, new_) == table + Written(order, old_, new_);
    }
  }

  /** Replaying a diff gives the new table, whatever order the maps were visited in. */
  lemma DiffLeadsToNew<S>(
      old_: map<string, S>, new_: map<string, S>, oldOrder: seq<string>, newOrder: seq<string>, nameOf: S -> string)
    requires IsIterationOf(oldOrder, old_.Keys) && IsIterationOf(newOrder, new_.Keys)
    requires forall n :: n in new_ ==> nameOf(new_[n]) == n
    ensures Replay(old_, Diff(old_, new_, oldOrder, newOrder), nameOf) == new_
  {
    ReplayConcat(old_, Deletions(oldOrder, new_), Additions(newOrder, old_, new_), nameOf);
    ReplayDeletions(old_, oldOrder, new_, nameOf);
    var kept := old_ - (set n | n in oldOrder && n !in new_);
    ReplayAdditions(kept, newOrder, old_, new_, nameOf);
    var w := Written(newOrder, old_, new_);
    forall n ensures n in kept + w <==> n in new_
      ensures n in new_ ==> (kept + w)[n] == new_[n]
    {
      WrittenIs(newOrder, old_, new_, n);
    }
    assert kept + w == new_;
  }

  // ----- calculate_events -----

  /** The orders in which one rescan visits the four service tables. */
  datatype Orders = Orders(
    oldServer: seq<string>, newServer: seq<string>, oldClient: seq<string>, newClient: seq<string>)

  ghost predicate OrdersFit(o: Orders, old_: Config, new_: Config) {
    && (old_.server.Some? ==> IsIterationOf(o.oldServer, old_.server.value.services.Keys))
    && (new_.server.Some? ==> IsIterationOf(o.newServer, new_.server.value.services.Keys))
    && (old_.client.Some? ==> IsIterationOf(o.oldClient, old_.client.value.services.Keys))
    && (new_.client.Some? ==> IsIterationOf(o.newClient, new_.client.value.services.Keys))
  }

  function ServerGeneral(c: ServerConfig): ServerConfig { c.(services := map[]) }

  function ClientGeneral(c: ClientConfig): ClientConfig { c.(services := map[]) }

  function ServerChanges(d: seq<ServiceChange<ServerService>>): seq<ConfigChange> {
    seq(|d|, k requires 0 <= k < |d| => ServerChange(d[k]))
  }

  function ClientChanges(d: seq<ServiceChange<ClientService>>): seq<ConfigChange> {
    seq(|d|, k requires 0 <= k < |d| => ClientChange(d[k]))
  }

  /** None: the difference is not confined to services. */
  function ServerEvents(old_: ServerConfig, new_: ServerConfig, o: Orders): Option<seq<ConfigChange>>
    requires forall n :: n in o.newServer ==> n in new_.services
  {
    if ServerGeneral(old_) != ServerGeneral(new_) then None
    else
      var d := Diff(old_.services, new_.services, o.oldServer, o.newServer);
      Some(ServerChanges(d))
  }

  function ClientEvents(old_: ClientConfig, new_: ClientConfig, o: Orders): Option<seq<ConfigChange>>
    requires forall n :: n in o.newClient ==> n in new_.services
  {
    if ClientGeneral(old_) != ClientGeneral(new_) then None
    else
      var d := Diff(old_.services, new_.services, o.oldClient, o.newClient);
      Some(ClientChanges(d))
  }

  function CalculateEvents(old_: Config, new_: Config, o: Orders): Option<seq<ConfigChange>>
    requires new_.server.Some? ==> forall n :: n in o.newServer ==> n in new_.server.value.services
    requires new_.client.Some? ==> forall n :: n in o.newClient ==> n in new_.client.value.services
  {
    if old_ == new_ then None
    else if old_.server.Some? != new_.server.Some? || old_.client.Some? != new_.client.Some? then
      Some([General(new_)])
    else
      var server :=
        if old_.server == new_.server then Some([])
        else ServerEvents(old_.server.value, new_.server.value, o);
      var client :=
        if old_.client == new_.client then Some([])
        else ClientEvents(old_.client.value, new_.client.value, o);
      if server.None? || client.None? then Some([General(new_)])
      else Some(server.value + client.value)
  }

  // ----- When to restart, and what else to send -----

  /** Equal in everything but the services. */
  predicate SameServerSettings(a: ServerConfig, b: ServerConfig) {
    && a.bindAddr == b.bindAddr && a.defaultToken == b.defaultToken && a.transport == b.transport
    && a.heartbeatInterval == b.heartbeatInterval
  }

  predicate SameClientSettings(a: ClientConfig, b: ClientConfig) {
    && a.remoteAddr == b.remoteAddr && a.defaultToken == b.defaultToken && a.preferIpv6 == b.preferIpv6
    && a.transport == b.transport && a.heartbeatTimeout == b.heartbeatTimeout && a.retryInterval == b.retryInterval
  }

  /** A role appeared or vanished, or its settings outside its services changed. */
  predicate NeedsRestart(old_: Config, new_: Config) {
    || (old_.server.Some? <==> new_.server.None?)
    || (old_.client.Some? <==> new_.client.None?)
    || (old_.server.Some? && new_.server.Some? && !SameServerSettings(old_.server.value, new_.server.value))
    || (old_.client.Some? && new_.client.Some? && !SameClientSettings(old_.client.value, new_.client.value))
  }

  function ServerServices(c: Config): map<string, ServerService> {
    if c.server.Some? then c.server.value.services else map[]
  }

  function ClientServices(c: Config): map<string, ClientService> {
    if c.client.Some? then c.client.value.services else map[]
  }

  /** What a change of a service means: it was there and is not, or it is there and was not, or not so. */
  predicate Means<S(==)>(change: ServiceChange<S>, old_: map<string, S>, new_: map<string, S>) {
    match change
    case Delete(n) => n in old_ && n !in new_
    case Add(cfg) => exists n :: n in new_ && new_[n] == cfg && (n in old_ ==> old_[n] != cfg)
  }

  lemma {:induction false} DeletionsAre<S>(order: seq<string>, new_: map<string, S>, change: ServiceChange<S>)
    ensures change in Deletions(order, new_) <==> change.Delete? && change.name in order && change.name !in new_
    decreases |order|
  {
    if order != [] {
      DeletionsAre(order[1..], new_, change);
      assert change.Delete? ==> (change.name in order <==> change.name == order[0] || change.name in order[1..]);
    }
  }

  lemma {:induction false} AdditionsAre<S>(
      order: seq<string>, old_: map<string, S>, new_: map<string, S>, change: ServiceChange<S>)
    requires forall n :: n in order ==> n in new_
    ensures change in Additions(order, old_, new_) <==>
              change.Add? && exists n :: n in order && new_[n] == change.cfg && (n in old_ ==> old_[n] != change.cfg)
    decreases |order|
  {
    if order != [] {
      AdditionsAre(order[1..], old_, new_, change);
      assert forall n :: n in order <==> n == order[0] || n in order[1..];
    }
  }

  lemma DiffMeans<S>(
      old_: map<string, S>, new_: map<string, S>, oldOrder: seq<string>, newOrder: seq<string>, change: ServiceChange<S>)
    requires IsIterationOf(oldOrder, old_.Keys) && IsIterationOf(newOrder, new_.Keys)
    ensures change in Diff(old_, new_, oldOrder, newOrder) <==> Means(change, old_, new_)
  {
    DeletionsAre(oldOrder, new_, change);
    AdditionsAre(newOrder, old_, new_, change);
  }

  /** A diff is empty only if there is no difference. */
  lemma DiffIsEmptyIff<S>(
      old_: map<string, S>, new_: map<string, S>, oldOrder: seq<string>, newOrder: seq<string>, nameOf: S -> string)
    requires IsIterationOf(oldOrder, old_.Keys) && IsIterationOf(newOrder, new_.Keys)
    requires forall n :: n in new_ ==> nameOf(new_[n]) == n
    ensures Diff(old_, new_, oldOrder, newOrder) == [] <==> old_ == new_
  {
    DiffLeadsToNew(old_, new_, oldOrder, newOrder, nameOf);
    if old_ == new_ && Diff(old_, new_, oldOrder, newOrder) != [] {
      DiffMeans(old_, new_, oldOrder, newOrder, Diff(old_, new_, oldOrder, newOrder)[0]);
    }
  }

  /** The answer as two diffs, whenever no restart is needed. */
  lemma EventsAreDiffs(old_: Config, new_: Config, o: Orders)
    requires OrdersFit(o, old_, new_) && WellNamed(new_) && !NeedsRestart(old_, new_)
    ensures CalculateEvents(old_, new_, o).GetOr([])
            == (if new_.server.Some? then
                  ServerChanges(Diff(ServerServices(old_), ServerServices(new_), o.oldServer, o.newServer)) else [])
             + (if new_.client.Some? then
                  ClientChanges(Diff(ClientServices(old_), ClientServices(new_), o.oldClient, o.newClient)) else [])
    ensures CalculateEvents(old_, new_, o).GetOr([]) == [] <==> old_ == new_
  {
    if new_.server.Some? {
      DiffIsEmptyIff(ServerServices(old_), ServerServices(new_), o.oldServer, o.newServer, (s: ServerService) => s.name);
    }
    if new_.client.Some? {
      DiffIsEmptyIff(ClientServices(old_), ClientServices(new_), o.oldClient, o.newClient, (s: ClientService) => s.name);
    }
  }

  /**
   For every order in which the maps are visited: a restart is sent if and only if one
   is needed, and then nothing else; nothing at all is sent if and only if nothing
   changed; and otherwise exactly the services that are gone, new or changed.
   */
  lemma RestartsOnlyIfNeeded(old_: Config, new_: Config, o: Orders, e: ConfigChange)
    requires OrdersFit(o, old_, new_) && WellNamed(new_)
    ensures var es := CalculateEvents(old_, new_, o).GetOr([]);
            && (NeedsRestart(old_, new_) ==> es == [General(new_)])
            && (es == [] <==> old_ == new_)
            && (!NeedsRestart(old_, new_) ==>
                  (e in es <==>
                     match e
                     case General(_) => false
                     case ServerChange(c) => Means(c, ServerServices(old_), ServerServices(new_))
                     case ClientChange(c) => Means(c, ClientServices(old_), ClientServices(new_))))
  {
    if !NeedsRestart(old_, new_) {
      EventsAreDiffs(old_, new_, o);
      match e
      case General(_) =>
      case ServerChange(c) =>
        if new_.server.Some? {
          DiffMeans(ServerServices(old_), ServerServices(new_), o.oldServer, o.newServer, c);
          InServerChanges(Diff(ServerServices(old_), ServerServices(new_), o.oldServer, o.newServer), c);
        }
      case ClientChange(c) =>
        if new_.client.Some? {
          DiffMeans(ClientServices(old_), ClientServices(new_), o.oldClient, o.newClient, c);
          InClientChanges(Diff(ClientServices(old_), ClientServices(new_), o.oldClient, o.newClient), c);
        }
    }
  }

  lemma InServerChanges(d: seq<ServiceChange<ServerService>>, c: ServiceChange<ServerService>)
    ensures ServerChange(c) in ServerChanges(d) <==> c in d
  {
    if c in d {
      var k :| 0 <= k < |d| && d[k] == c;
      assert ServerChanges(d)[k] == ServerChange(c);
    }
  }

  lemma InClientChanges(d: seq<ServiceChange<ClientService>>, c: ServiceChange<ClientService>)
    ensures ClientChange(c) in ClientChanges(d) <==> c in d
  {
    if c in d {
      var k :| 0 <= k < |d| && d[k] == c;
      assert ClientChanges(d)[k] == ClientChange(c);
    }
  }

  predicate NoRepeats<T(==)>(s: seq<T>) { forall i, j :: 0 <= i < j < |s| ==> s[i] != s[j] }

  lemma {:induction false} DeletionsOnce<S>(order: seq<string>, new_: map<string, S>)
    requires NoRepeats(order)
    ensures NoRepeats(Deletions(order, new_))
    decreases |order|
  {
    if order != [] {
      DeletionsOnce(order[1..], new_);
      DeletionsAre(order[1..], new_, Delete(order[0]));
    }
  }

  lemma {:induction false} AdditionsOnce<S>(
      order: seq<string>, old_: map<string, S>, new_: map<string, S>, nameOf: S -> string)
    requires NoRepeats(order) && forall n :: n in order ==> n in new_ && nameOf(new_[n]) == n
    ensures NoRepeats(Additions(order, old_, new_))
    decreases |order|
  {
    if order != [] {
      AdditionsOnce(order[1..], old_, new_, nameOf);
      AdditionsAre(order[1..], old_, new_, Add(new_[order[0]]));
    }
  }

  lemma DiffOnce<S>(
      old_: map<string, S>, new_: map<string, S>, oldOrder: seq<string>, newOrder: seq<string>, nameOf: S -> string)
    requires IsIterationOf(oldOrder, old_.Keys) && IsIterationOf(newOrder, new_.Keys)
    requires forall n :: n in new_ ==> nameOf(new_[n]) == n
    ensures NoRepeats(Diff(old_, new_, oldOrder, newOrder))
  {
    var a, b := Deletions(oldOrder, new_), Additions(newOrder, old_, new_);
    DeletionsOnce(oldOrder, new_);
    AdditionsOnce(newOrder, old_, new_, nameOf);
    forall i, j | 0 <= i < |a| && 0 <= j < |b| ensures a[i] != b[j] {
      DeletionsAre(oldOrder, new_, a[i]);
      AdditionsAre(newOrder, old_, new_, b[j]);
    }
  }

  /** No event is sent twice. */
  lemma EventsOnce(old_: Config, new_: Config, o: Orders)
    requires OrdersFit(o, old_, new_) && WellNamed(new_)
    ensures NoRepeats(CalculateEvents(old_, new_, o).GetOr([]))
  {
    if NeedsRestart(old_, new_) {
      RestartsOnlyIfNeeded(old_, new_, o, General(new_));
    } else {
      EventsAreDiffs(old_, new_, o);
      if new_.server.Some? {
        DiffOnce(ServerServices(old_), ServerServices(new_), o.oldServer, o.newServer, (s: ServerService) => s.name);
      }
      if new_.client.Some? {
        DiffOnce(ClientServices(old_), ClientServices(new_), o.oldClient, o.newClient, (s: ClientService) => s.name);
      }
    }
  }
}
