/**
 The configuration and its validation (src/config.rs). A hash map is visited in
 some order of its keys; the order is a parameter of the loops.
 */
module Config {
  import opened Basics

  datatype ServiceType = Tcp | Udp
  datatype TransportType = PlainTcp | Tls | Noise | Websocket

  datatype ServerService = ServerService(
    serviceType: ServiceType, name: string, bindAddr: string, token: Option<string>, nodelay: Option<bool>)

  datatype ClientService = ClientService(
    serviceType: ServiceType, name: string, localAddr: string, preferIpv6: bool,
    token: Option<string>, nodelay: Option<bool>, retryInterval: Option<nat>)

  datatype Proxy = Proxy(scheme: string, host: Option<string>, port: Option<nat>)
  datatype TcpConfig = TcpConfig(nodelay: bool, keepaliveSecs: nat, keepaliveInterval: nat, proxy: Option<Proxy>)
  datatype TlsConfig = TlsConfig(
    hostname: Option<string>, trustedRoot: Option<string>, pkcs12: Option<string>, pkcs12Password: Option<string>)
  datatype NoiseConfig = NoiseConfig(
    pattern: string, localPrivateKey: Option<string>, remotePublicKey: Option<string>)

  datatype Transport = Transport(
    transportType: TransportType, tcp: TcpConfig, tls: Option<TlsConfig>, noise: Option<NoiseConfig>,
    websocketTls: Option<bool>)

  datatype ServerConfig = ServerConfig(
    bindAddr: string, defaultToken: Option<string>, services: map<string, ServerService>,
    transport: Transport, heartbeatInterval: nat)

  datatype ClientConfig = ClientConfig(
    remoteAddr: string, defaultToken: Option<string>, preferIpv6: Option<bool>,
    services: map<string, ClientService>, transport: Transport, heartbeatTimeout: nat, retryInterval: nat)

  datatype Config = Config(server: Option<ServerConfig>, client: Option<ClientConfig>)

  datatype Error =
    | PortZero
    | EmptyDefaultToken
    | TokenNotSet(service: string)
    | TokenEmpty(service: string)
    | DuplicateBindAddr(service: string)
    | ZeroRetryInterval
    | ZeroServiceRetryInterval(service: string)
    | BadTransport
    | NoRole
    | Unparsable

  // ----- Ports -----

  predicate IsDigit(c: char) { '0' <= c <= '9' }

  predicate AllDigits(s: string) { forall i :: 0 <= i < |s| ==> IsDigit(s[i]) }

  function Value(digits: string): nat
    requires AllDigits(digits)
  {
    if digits == [] then 0
    else
      assert IsDigit(digits[|digits|-1]);
      10 * Value(digits[..|digits|-1]) + (digits[|digits|-1] as int - '0' as int)
  }

  /** A `u16` as Rust parses it: decimal digits, a leading `+` allowed. */
  function ParseU16(s: string): Option<nat> {
    var digits := if s != [] && s[0] == '+' then s[1..] else s;
    if digits != [] && AllDigits(digits) && Value(digits) <= 0xFFFF
    then Some(Value(digits))
    else None
  }

  /** The text after the last colon, if there is one. */
  function AfterLastColon(s: string): (r: Option<string>)
    ensures r.None? <==> ':' !in s
    ensures r.Some? ==> ':' !in r.value && exists k :: 0 <= k < |s| && s[k] == ':' && s[k+1..] == r.value
  {
    if s == [] then None
    else if s[|s|-1] == ':' then (assert s[|s|..] == []; Some([]))
    else
      var r := AfterLastColon(s[..|s|-1]);
      if r.None? then None
      else
        assert s == s[..|s|-1] + [s[|s|-1]];
        assert exists k :: 0 <= k < |s| && s[k] == ':' && s[k+1..] == r.value + [s[|s|-1]] by {
          var k :| 0 <= k < |s| - 1 && s[..|s|-1][k] == ':' && s[..|s|-1][k+1..] == r.value;
          assert s[k+1..] == s[..|s|-1][k+1..] + [s[|s|-1]];
        }
        Some(r.value + [s[|s|-1]])
  }

  predicate UsesPortZero(addr: string) {
    AfterLastColon(addr).Some? && ParseU16(AfterLastColon(addr).value) == Some(0)
  }

  // ----- What a port is -----

  function Digit(n: nat): char
    requires n < 10
  {
    '0' + n as char
  }

  /** A number as it is written down. */
  function Decimal(n: nat): string { if n < 10 then [Digit(n)] else Decimal(n / 10) + [Digit(n % 10)] }

  function Zeros(z: nat): string { seq(z, _ => '0') }

  /** `s` writes down `n`, maybe with a plus sign and zeros before it. */
  ghost predicate Denotes(s: string, n: nat) {
    exists z: nat :: s == Zeros(z) + Decimal(n) || s == "+" + (Zeros(z) + Decimal(n))
  }

  lemma {:induction false} DecimalHasDigits(n: nat)
    ensures Decimal(n) != [] && AllDigits(Decimal(n)) && Value(Decimal(n)) == n
  {
    var d := Decimal(n);
    if n < 10 {
      assert d[..0] == [];
    } else {
      DecimalHasDigits(n / 10);
      assert d[..|d|-1] == Decimal(n / 10);
    }
  }

  lemma {:induction false} ZerosCountNothing(z: nat, d: string)
    requires AllDigits(d)
    ensures AllDigits(Zeros(z) + d) && Value(Zeros(z) + d) == Value(d)
    decreases z + |d|
  {
    if d == [] {
      assert Zeros(z) + d == Zeros(z);
      if z > 0 {
        ZerosCountNothing(z - 1, []);
        assert Zeros(z)[..z-1] == Zeros(z - 1) + [];
      }
    } else {
      ZerosCountNothing(z, d[..|d|-1]);
      assert (Zeros(z) + d)[..z + |d| - 1] == Zeros(z) + d[..|d|-1];
    }
  }

  lemma OneMoreDigit(v: nat, c: nat)
    requires c < 10
    ensures Decimal(10 * v + c) == if v == 0 then [Digit(c)] else Decimal(v) + [Digit(c)]
  {
    if v > 0 {
      assert (10 * v + c) / 10 == v && (10 * v + c) % 10 == c;
    }
  }

  /** Digits write down their value, with zeros before it. */
  lemma {:induction false} DigitsWrite(d: string) returns (z: nat)
    requires d != [] && AllDigits(d)
    ensures d == Zeros(z) + Decimal(Value(d))
  {
    var before, c := d[..|d|-1], d[|d|-1] as int - '0' as int;
    assert d == before + [Digit(c)];
    OneMoreDigit(Value(before), c);
    if before == [] {
      z := 0;
    } else {
      z := DigitsWrite(before);
      if Value(before) == 0 {
        assert Zeros(z) + Decimal(0) == Zeros(z + 1);
        z := z + 1;
      } else {
        assert Zeros(z) + Decimal(Value(before)) + [Digit(c)] == Zeros(z) + (Decimal(Value(before)) + [Digit(c)]);
      }
    }
  }

  /** Exactly the numbers up to 65535 are ports, however many zeros they are written with. */
  lemma PortIs(s: string, n: nat)
    ensures ParseU16(s) == Some(n) <==> n <= 65535 && Denotes(s, n)
  {
    var digits := if s != [] && s[0] == '+' then s[1..] else s;
    DecimalHasDigits(n);
    forall z: nat ensures AllDigits(Zeros(z) + Decimal(n)) && Value(Zeros(z) + Decimal(n)) == n {
      ZerosCountNothing(z, Decimal(n));
    }
    if ParseU16(s) == Some(n) {
      var z := DigitsWrite(digits);
      assert s == digits || s == "+" + digits;
    } else if n <= 65535 && Denotes(s, n) {
      DenotedIsDigits(s, n);
    }
  }

  lemma DenotedIsDigits(s: string, n: nat)
    requires Denotes(s, n)
    ensures var digits := if s != [] && s[0] == '+' then s[1..] else s;
            digits != [] && AllDigits(digits) && Value(digits) == n
  {
    var z: nat :| s == Zeros(z) + Decimal(n) || s == "+" + (Zeros(z) + Decimal(n));
    var d := Zeros(z) + Decimal(n);
    DecimalHasDigits(n);
    ZerosCountNothing(z, Decimal(n));
    assert IsDigit(d[0]);
    assert s == "+" + d ==> s[1..] == d;
  }

  /** `addr` is a host, a colon and a text without one. */
  predicate SplitsAt(addr: string, k: nat) { k < |addr| && addr[k] == ':' && ':' !in addr[k+1..] }

  lemma NoColonAfter(addr: string, k: nat)
    requires SplitsAt(addr, k)
    ensures forall i :: k < i < |addr| ==> addr[i] != ':'
  {
    forall i | k < i < |addr| ensures addr[i] != ':' {
      assert addr[k+1..][i-k-1] == addr[i];
    }
  }

  lemma LastColon(addr: string, k: nat)
    requires SplitsAt(addr, k)
    ensures AfterLastColon(addr) == Some(addr[k+1..])
  {
    var port := AfterLastColon(addr);
    assert port.Some?;
    var j: nat :| j < |addr| && addr[j] == ':' && addr[j+1..] == port.value;
    NoColonAfter(addr, k);
    NoColonAfter(addr, j);
  }

  /** A control address uses port zero exactly if zero is what is written after its last colon. */
  lemma PortZeroIff(addr: string)
    ensures UsesPortZero(addr) <==> exists k: nat :: SplitsAt(addr, k) && Denotes(addr[k+1..], 0)
  {
    if UsesPortZero(addr) {
      var k :| 0 <= k < |addr| && addr[k] == ':' && addr[k+1..] == AfterLastColon(addr).value;
      PortIs(addr[k+1..], 0);
      assert SplitsAt(addr, k);
    }
    forall k: nat | SplitsAt(addr, k) && Denotes(addr[k+1..], 0) ensures UsesPortZero(addr) {
      LastColon(addr, k);
      PortIs(addr[k+1..], 0);
    }
  }

  // ----- Transport -----

  predicate TransportValid(t: Transport, isServer: bool) {
    && (t.tcp.proxy.Some? ==>
          && (t.tcp.proxy.value.scheme == "socks5" || t.tcp.proxy.value.scheme == "http")
          && t.tcp.proxy.value.host.Some? && t.tcp.proxy.value.port.Some?)
    && (t.transportType.Tls? ==>
          t.tls.Some? && (isServer ==> t.tls.value.pkcs12.Some? && t.tls.value.pkcs12Password.Some?))
    && (t.transportType.Noise? ==> t.noise.Some?)
  }

  function ValidateTransport(t: Transport, isServer: bool): (e: Option<Error>)
    ensures e.None? <==> TransportValid(t, isServer)
  {
    var proxyOk :=
      match t.tcp.proxy
      case None => true
      case Some(u) => if u.scheme == "socks5" || u.scheme == "http" then u.host.Some? && u.port.Some? else false;
    if !proxyOk then Some(BadTransport) else
    match t.transportType
    case PlainTcp => None
    case Tls =>
      if t.tls.None? then Some(BadTransport)
      else if isServer && (t.tls.value.pkcs12.None? || t.tls.value.pkcs12Password.None?) then Some(BadTransport)
      else None
    case Noise => if t.noise.None? then Some(BadTransport) else None
    case Websocket => None
  }

  /** What is refused, case by case. */
  lemma TransportRefusedIff(t: Transport, isServer: bool)
    ensures ValidateTransport(t, isServer).Some? <==>
              || (t.tcp.proxy.Some? && t.tcp.proxy.value.scheme !in ["socks5", "http"])
              || (t.tcp.proxy.Some? && (t.tcp.proxy.value.host.None? || t.tcp.proxy.value.port.None?))
              || (t.transportType == Tls && t.tls.None?)
              || (t.transportType == Tls && isServer && t.tls.Some? && t.tls.value.pkcs12.None?)
              || (t.transportType == Tls && isServer && t.tls.Some? && t.tls.value.pkcs12Password.None?)
              || (t.transportType == Noise && t.noise.None?)
  {
  }

  // ----- Server -----

  function Effective(token: Option<string>, default: Option<string>): Option<string> {
    if token.None? then default else token
  }

  predicate UsableToken(token: Option<string>) { token.Some? && token.value != "" }

  /** Order-free: what validation decides. */
  ghost predicate ServerValid(c: ServerConfig) {
    && !UsesPortZero(c.bindAddr)
    && c.defaultToken != Some("")
    && (forall n :: n in c.services ==> UsableToken(Effective(c.services[n].token, c.defaultToken)))
    && (forall m, n :: m in c.services && n in c.services && m != n ==>
          Endpoint(c.services[m]) != Endpoint(c.services[n]))
    && TransportValid(c.transport, true)
  }

  /** TCP and UDP ports are separate; two services conflict only on the same pair. */
  function Endpoint(s: ServerService): (string, ServiceType) { (s.bindAddr, s.serviceType) }

  function Filled(s: ServerService, n: string, default: Option<string>): ServerService {
    s.(name := n, token := Effective(s.token, default))
  }

  /** What validation leaves in place on success: names and tokens filled in. */
  function ServerFilled(c: ServerConfig): ServerConfig {
    c.(services := map n | n in c.services :: Filled(c.services[n], n, c.defaultToken))
  }

  /** The complaint is true. */
  ghost predicate ServerFault(c: ServerConfig, e: Error) {
    match e
    case PortZero => UsesPortZero(c.bindAddr)
    case EmptyDefaultToken => c.defaultToken == Some("")
    case TokenNotSet(n) => n in c.services && c.services[n].token.None? && c.defaultToken.None?
    case TokenEmpty(n) => n in c.services && Effective(c.services[n].token, c.defaultToken) == Some("")
    case DuplicateBindAddr(n) =>
      n in c.services &&
      (exists m :: m in c.services && m != n && Endpoint(c.services[m]) == Endpoint(c.services[n]))
    case BadTransport => !TransportValid(c.transport, true)
    case _ => false
  }

  /** The table with the services visited first filled in. */
  function FilledFirst(c: ServerConfig, order: seq<string>, i: nat): map<string, ServerService>
    requires i <= |order| && forall n :: n in order ==> n in c.services
  {
    if i == 0 then c.services
    else
      var n := order[i-1];
      FilledFirst(c, order, i - 1)[n := Filled(c.services[n], n, c.defaultToken)]
  }

  /** The endpoints of the services visited first. */
  function Endpoints(c: ServerConfig, order: seq<string>, i: nat): set<(string, ServiceType)>
    requires i <= |order| && forall n :: n in order ==> n in c.services
  {
    if i == 0 then {} else Endpoints(c, order, i - 1) + {Endpoint(c.services[order[i-1]])}
  }

  /** The services visited first have usable tokens and endpoints of their own. */
  predicate Passed(c: ServerConfig, order: seq<string>, i: nat)
    requires i <= |order| && forall n :: n in order ==> n in c.services
  {
    i == 0 ||
    (&& Passed(c, order, i - 1)
     && UsableToken(Effective(c.services[order[i-1]].token, c.defaultToken))
     && Endpoint(c.services[order[i-1]]) !in Endpoints(c, order, i - 1))
  }

  lemma {:induction false} FilledFirstAt(c: ServerConfig, order: seq<string>, i: nat, j: nat)
    requires IsIterationOf(order, c.services.Keys) && i <= |order| && j < |order|
    ensures FilledFirst(c, order, i).Keys == c.services.Keys
    ensures FilledFirst(c, order, i)[order[j]] ==
              if j < i then Filled(c.services[order[j]], order[j], c.defaultToken) else c.services[order[j]]
  {
    if i > 0 {
      FilledFirstAt(c, order, i - 1, j);
      assert j != i - 1 ==> order[j] != order[i-1];
    }
  }

  lemma {:induction false} EndpointsAre(c: ServerConfig, order: seq<string>, i: nat, a: (string, ServiceType))
    requires i <= |order| && forall n :: n in order ==> n in c.services
    ensures a in Endpoints(c, order, i) <==> exists j :: 0 <= j < i && Endpoint(c.services[order[j]]) == a
  {
    if i > 0 {
      EndpointsAre(c, order, i - 1, a);
    }
  }

  lemma {:induction false} PassedPairwise(c: ServerConfig, order: seq<string>, i: nat, j: nat, k: nat)
    requires i <= |order| && (forall n :: n in order ==> n in c.services) && Passed(c, order, i)
    requires j <= k < i
    ensures UsableToken(Effective(c.services[order[k]].token, c.defaultToken))
    ensures j < k ==> Endpoint(c.services[order[j]]) != Endpoint(c.services[order[k]])
  {
    if k < i - 1 {
      PassedPairwise(c, order, i - 1, j, k);
    } else {
      EndpointsAre(c, order, k, Endpoint(c.services[order[k]]));
    }
  }

  lemma ConflictIsFault(c: ServerConfig, order: seq<string>, i: nat)
    requires IsIterationOf(order, c.services.Keys) && i < |order|
    requires Endpoint(c.services[order[i]]) in Endpoints(c, order, i)
    ensures ServerFault(c, DuplicateBindAddr(order[i]))
  {
    EndpointsAre(c, order, i, Endpoint(c.services[order[i]]));
  }

  lemma AllFilled(c: ServerConfig, order: seq<string>)
    requires IsIterationOf(order, c.services.Keys)
    ensures FilledFirst(c, order, |order|) == ServerFilled(c).services
  {
    if order == [] {
      assert c.services.Keys == {};
    } else {
      FilledFirstAt(c, order, |order|, 0);
    }
    forall n | n in c.services
      ensures FilledFirst(c, order, |order|)[n] == Filled(c.services[n], n, c.defaultToken)
    {
      var j :| 0 <= j < |order| && order[j] == n;
      FilledFirstAt(c, order, |order|, j);
    }
  }

  lemma AllPassed(c: ServerConfig, order: seq<string>)
    requires IsIterationOf(order, c.services.Keys) && Passed(c, order, |order|)
    ensures forall n :: n in c.services ==> UsableToken(Effective(c.services[n].token, c.defaultToken))
    ensures forall m, n :: m in c.services && n in c.services && m != n ==>
              Endpoint(c.services[m]) != Endpoint(c.services[n])
  {
    forall n | n in c.services ensures UsableToken(Effective(c.services[n].token, c.defaultToken)) {
      var j :| 0 <= j < |order| && order[j] == n;
      PassedPairwise(c, order, |order|, j, j);
    }
    forall m, n | m in c.services && n in c.services && m != n
      ensures Endpoint(c.services[m]) != Endpoint(c.services[n])
    {
      var j :| 0 <= j < |order| && order[j] == m;
      var k :| 0 <= k < |order| && order[k] == n;
      if j < k {
        PassedPairwise(c, order, |order|, j, k);
      } else {
        PassedPairwise(c, order, |order|, k, j);
      }
    }
  }

  lemma FaultMeansInvalid(c: ServerConfig, e: Error)
    requires ServerFault(c, e)
    ensures !ServerValid(c)
  {
  }

  /** Whatever is invalid has a fault to complain of. */
  lemma InvalidMeansFault(c: ServerConfig) returns (e: Error)
    requires !ServerValid(c)
    ensures ServerFault(c, e)
  {
    if UsesPortZero(c.bindAddr) {
      e := PortZero;
    } else if c.defaultToken == Some("") {
      e := EmptyDefaultToken;
    } else if !TransportValid(c.transport, true) {
      e := BadTransport;
    } else if n :| n in c.services && !UsableToken(Effective(c.services[n].token, c.defaultToken)) {
      e := if c.services[n].token.None? && c.defaultToken.None? then TokenNotSet(n) else TokenEmpty(n);
    } else {
      var m, n :| m in c.services && n in c.services && m != n && Endpoint(c.services[m]) == Endpoint(c.services[n]);
      e := DuplicateBindAddr(n);
    }
  }

  /** What is filled in: the key as the name, and the default token where there is no own token. */
  lemma OwnTokenWins(c: ServerConfig, n: string)
    requires n in c.services
    ensures n in ServerFilled(c).services
    ensures var s, s' := c.services[n], ServerFilled(c).services[n];
            && s'.name == n
            && s'.token == (match s.token case Some(t) => Some(t) case None => c.defaultToken)
            && s'.bindAddr == s.bindAddr && s'.serviceType == s.serviceType && s'.nodelay == s.nodelay
    ensures var c' := ServerFilled(c);
            && c'.services.Keys == c.services.Keys && c'.bindAddr == c.bindAddr && c'.defaultToken == c.defaultToken
            && c'.transport == c.transport && c'.heartbeatInterval == c.heartbeatInterval
  {
  }

  method ValidateServerConfig(c: ServerConfig, order: seq<string>) returns (r: Result<ServerConfig, Error>)
    requires IsIterationOf(order, c.services.Keys)
    ensures r.Ok? <==> ServerValid(c)
    ensures r.Ok? ==> r.value == ServerFilled(c)
    ensures r.Err? ==> ServerFault(c, r.error)
  {
    if UsesPortZero(c.bindAddr) {
      return Err(PortZero);
    }
    if c.defaultToken == Some("") {
      return Err(EmptyDefaultToken);
    }
    var services, fault := ValidateServices(c, order);
    if fault.Some? {
      FaultMeansInvalid(c, fault.value);
      return Err(fault.value);
    }
    var e := ValidateTransport(c.transport, true);
    return if e.Some? then Err(e.value) else Ok(c.(services := services));
  }

  /** The loop of `validate_server_config`. */
  method ValidateServices(c: ServerConfig, order: seq<string>)
      returns (services: map<string, ServerService>, fault: Option<Error>)
    requires IsIterationOf(order, c.services.Keys) && !UsesPortZero(c.bindAddr) && c.defaultToken != Some("")
    ensures fault.None? ==>
              services == ServerFilled(c).services && (ServerValid(c) <==> TransportValid(c.transport, true))
    ensures fault.Some? ==> ServerFault(c, fault.value)
  {
    services := c.services;
    var bindAddrs: set<(string, ServiceType)> := {};
    for i := 0 to |order|
      invariant services == FilledFirst(c, order, i) && Passed(c, order, i)
      invariant bindAddrs == Endpoints(c, order, i)
    {
      FilledFirstAt(c, order, i, i);
      var name := order[i];
      var s := services[name].(name := name);
      if s.token.None? {
        s := s.(token := c.defaultToken);
        if s.token.None? {
          return services, Some(TokenNotSet(name));
        }
      }
      if s.token == Some("") {
        return services, Some(TokenEmpty(name));
      }
      if (s.bindAddr, s.serviceType) in bindAddrs {
        ConflictIsFault(c, order, i);
        return services, Some(DuplicateBindAddr(name));
      }
      bindAddrs := bindAddrs + {(s.bindAddr, s.serviceType)};
      services := services[name := s];
    }
    AllFilled(c, order);
    AllPassed(c, order);
    fault := None;
  }

  /** Every name is its key, and validating the result again changes nothing. */
  lemma ServerFilledIsFixed(c: ServerConfig)
    requires ServerValid(c)
    ensures forall n :: n in ServerFilled(c).services ==> ServerFilled(c).services[n].name == n
    ensures ServerValid(ServerFilled(c)) && ServerFilled(ServerFilled(c)) == ServerFilled(c)
  {
    assert ServerFilled(ServerFilled(c)).services == ServerFilled(c).services;
  }

  // ----- Client -----

  ghost predicate ClientValid(c: ClientConfig) {
    && c.retryInterval != 0
    && c.defaultToken != Some("")
    && (forall n :: n in c.services ==>
          UsableToken(Effective(c.services[n].token, c.defaultToken)) && c.services[n].retryInterval != Some(0))
    && TransportValid(c.transport, false)
  }

  function ClientServiceFilled(s: ClientService, n: string, c: ClientConfig): ClientService {
    s.(name := n, token := Effective(s.token, c.defaultToken),
       retryInterval := if s.retryInterval.None? then Some(c.retryInterval) else s.retryInterval)
  }

  function ClientFilled(c: ClientConfig): ClientConfig {
    c.(services := map n | n in c.services :: ClientServiceFilled(c.services[n], n, c))
  }

  ghost predicate ClientFault(c: ClientConfig, e: Error) {
    match e
    case ZeroRetryInterval => c.retryInterval == 0
    case EmptyDefaultToken => c.defaultToken == Some("")
    case TokenNotSet(n) => n in c.services && c.services[n].token.None? && c.defaultToken.None?
    case TokenEmpty(n) => n in c.services && Effective(c.services[n].token, c.defaultToken) == Some("")
    case ZeroServiceRetryInterval(n) => n in c.services && c.services[n].retryInterval == Some(0)
    case BadTransport => !TransportValid(c.transport, false)
    case _ => false
  }

  /** The services visited first are filled in, with usable tokens and retry intervals. */
  ghost predicate ClientVisited(c: ClientConfig, order: seq<string>, i: nat, services: map<string, ClientService>)
    requires i <= |order| && forall n :: n in order ==> n in c.services
  {
    && services.Keys == c.services.Keys
    && (forall j :: 0 <= j < i ==> services[order[j]] == ClientServiceFilled(c.services[order[j]], order[j], c))
    && (forall j :: i <= j < |order| ==> services[order[j]] == c.services[order[j]])
    && (forall j :: 0 <= j < i ==>
          && UsableToken(Effective(c.services[order[j]].token, c.defaultToken))
          && c.services[order[j]].retryInterval != Some(0))
  }

  lemma ClientVisitNext(c: ClientConfig, order: seq<string>, i: nat, services: map<string, ClientService>)
    requires IsIterationOf(order, c.services.Keys) && i < |order| && ClientVisited(c, order, i, services)
    requires UsableToken(Effective(c.services[order[i]].token, c.defaultToken))
    requires c.services[order[i]].retryInterval != Some(0)
    ensures ClientVisited(c, order, i + 1,
                          services[order[i] := ClientServiceFilled(c.services[order[i]], order[i], c)])
  {
  }

  lemma AllClientVisited(c: ClientConfig, order: seq<string>, services: map<string, ClientService>)
    requires IsIterationOf(order, c.services.Keys) && ClientVisited(c, order, |order|, services)
    ensures services == ClientFilled(c).services
    ensures c.retryInterval != 0 && c.defaultToken != Some("") ==>
              (ClientValid(c) <==> TransportValid(c.transport, false))
  {
    assert forall n :: n in c.services ==> n in order;
  }

  method ValidateClientConfig(c: ClientConfig, order: seq<string>) returns (r: Result<ClientConfig, Error>)
    requires IsIterationOf(order, c.services.Keys)
    ensures r.Ok? <==> ClientValid(c)
    ensures r.Ok? ==> r.value == ClientFilled(c)
    ensures r.Err? ==> ClientFault(c, r.error)
  {
    if c.retryInterval == 0 {
      return Err(ZeroRetryInterval);
    }
    if c.defaultToken == Some("") {
      return Err(EmptyDefaultToken);
    }
    var services, fault := ValidateClientServices(c, order);
    if fault.Some? {
      return Err(fault.value);
    }
    var e := ValidateTransport(c.transport, false);
    return if e.Some? then Err(e.value) else Ok(c.(services := services));
  }

  /** The loop of `validate_client_config`. */
  method ValidateClientServices(c: ClientConfig, order: seq<string>)
      returns (services: map<string, ClientService>, fault: Option<Error>)
    requires IsIterationOf(order, c.services.Keys) && c.retryInterval != 0 && c.defaultToken != Some("")
    ensures fault.None? ==>
              services == ClientFilled(c).services && (ClientValid(c) <==> TransportValid(c.transport, false))
    ensures fault.Some? ==> ClientFault(c, fault.value)
  {
    services := c.services;
    for i := 0 to |order|
      invariant ClientVisited(c, order, i, services)
    {
      var name := order[i];
      var s := services[name].(name := name);
      if s.token.None? {
        s := s.(token := c.defaultToken);
        if s.token.None? {
          return services, Some(TokenNotSet(name));
        }
      }
      if s.token == Some("") {
        return services, Some(TokenEmpty(name));
      }
      if s.retryInterval == Some(0) {
        return services, Some(ZeroServiceRetryInterval(name));
      }
      if s.retryInterval.None? {
        s := s.(retryInterval := Some(c.retryInterval));
      }
      ClientVisitNext(c, order, i, services);
      services := services[name := s];
    }
    AllClientVisited(c, order, services);
    fault := None;
  }

  /** The same for the client. */
  lemma ClientInvalidMeansFault(c: ClientConfig) returns (e: Error)
    requires !ClientValid(c)
    ensures ClientFault(c, e)
  {
    if c.retryInterval == 0 {
      e := ZeroRetryInterval;
    } else if c.defaultToken == Some("") {
      e := EmptyDefaultToken;
    } else if !TransportValid(c.transport, false) {
      e := BadTransport;
    } else if n :| n in c.services && c.services[n].retryInterval == Some(0) {
      e := ZeroServiceRetryInterval(n);
    } else {
      var n :| n in c.services && !UsableToken(Effective(c.services[n].token, c.defaultToken));
      e := if c.services[n].token.None? && c.defaultToken.None? then TokenNotSet(n) else TokenEmpty(n);
    }
  }

  lemma ClientFaultMeansInvalid(c: ClientConfig, e: Error)
    requires ClientFault(c, e)
    ensures !ClientValid(c)
  {
  }

  /** What is filled in for the client, with its retry interval where a service has none. */
  lemma OwnIntervalWins(c: ClientConfig, n: string)
    requires n in c.services
    ensures n in ClientFilled(c).services
    ensures var s, s' := c.services[n], ClientFilled(c).services[n];
            && s'.name == n
            && s'.token == (match s.token case Some(t) => Some(t) case None => c.defaultToken)
            && s'.retryInterval == (match s.retryInterval case Some(i) => Some(i) case None => Some(c.retryInterval))
            && s'.localAddr == s.localAddr && s'.serviceType == s.serviceType && s'.nodelay == s.nodelay
            && s'.preferIpv6 == s.preferIpv6
  {
  }

  lemma ClientFilledIsFixed(c: ClientConfig)
    requires ClientValid(c)
    ensures forall n :: n in ClientFilled(c).services ==>
              ClientFilled(c).services[n].name == n && ClientFilled(c).services[n].retryInterval.Some?
    ensures ClientValid(ClientFilled(c)) && ClientFilled(ClientFilled(c)) == ClientFilled(c)
  {
    assert ClientFilled(ClientFilled(c)).services == ClientFilled(c).services;
  }

  // ----- A whole configuration -----

  ghost predicate Valid(c: Config) {
    && (c.server.Some? ==> ServerValid(c.server.value))
    && (c.client.Some? ==> ClientValid(c.client.value))
    && (c.server.Some? || c.client.Some?)
  }

  /** The service name in the table is the one the runtime goes by. */
  predicate WellNamed(c: Config) {
    && (c.server.Some? ==> forall n :: n in c.server.value.services ==> c.server.value.services[n].name == n)
    && (c.client.Some? ==> forall n :: n in c.client.value.services ==> c.client.value.services[n].name == n)
  }

  /** `from_str`; `parsed` is what the TOML reader makes of the text. */
  method Load(parsed: Option<Config>, serverOrder: seq<string>, clientOrder: seq<string>)
      returns (r: Result<Config, Error>)
    requires parsed.Some? && parsed.value.server.Some? ==>
               IsIterationOf(serverOrder, parsed.value.server.value.services.Keys)
    requires parsed.Some? && parsed.value.client.Some? ==>
               IsIterationOf(clientOrder, parsed.value.client.value.services.Keys)
    ensures r.Ok? <==> parsed.Some? && Valid(parsed.value)
    ensures r.Ok? ==>
              && WellNamed(r.value) && Valid(r.value)
              && (r.value.server.Some? <==> parsed.value.server.Some?)
              && (r.value.client.Some? <==> parsed.value.client.Some?)
              && (r.value.server.Some? ==> r.value.server.value == ServerFilled(parsed.value.server.value))
              && (r.value.client.Some? ==> r.value.client.value == ClientFilled(parsed.value.client.value))
  {
    if parsed.None? {
      return Err(Unparsable);
    }
    var config := parsed.value;
    if config.server.Some? {
      var server := ValidateServerConfig(config.server.value, serverOrder);
      if server.Err? {
        return Err(server.error);
      }
      ServerFilledIsFixed(config.server.value);
      config := config.(server := Some(server.value));
    }
    if config.client.Some? {
      var client := ValidateClientConfig(config.client.value, clientOrder);
      if client.Err? {
        return Err(client.error);
      }
      ClientFilledIsFixed(config.client.value);
      config := config.(client := Some(client.value));
    }
    if config.server.None? && config.client.None? {
      return Err(NoRole);
    }
    return Ok(config);
  }
}
