/**
 Control channel handshakes and data channel routing on the server (src/server.rs,
 `do_control_channel_handshake`, `do_data_channel_handshake`, `digest_eq`), for any
 number of handshakes in any interleaving, with hot reload dropping channels.

 Every handshake draws a nonce that no handshake drew before.
 */
module Handshake {
  import opened Basics
  import opened M = MultiMap
  import opened Runs

  const HASH_WIDTH_IN_BYTES: nat := 32

  type Bytes = seq<bv8>

  type Hash = Digest<Bytes>

  /** What both ends compute from a token and a nonce. */
  function SessionKey(token: Bytes, nonce: Bytes): Hash { Digest(token + nonce) }

  /** One server-side handshake, numbered by `map` key in `Server.sessions`. */
  datatype Session =
    | Challenged(service: Hash, token: Bytes, nonce: Bytes)  // hello sent, waiting for auth
    | Accepted(service: Hash, token: Bytes, nonce: Bytes)    // Ack::Ok sent, not in the map yet
    | Registered(service: Hash, token: Bytes, nonce: Bytes)
    | Ended(nonce: Bytes)                                      // refused or failed

  type Channels = set<Row<Hash, Hash, nat>>  // (service digest, session key) to handshake number

  datatype Server = Server(
    services: map<Hash, Bytes>,  // service digest to token
    channels: Channels,
    sessions: map<nat, Session>,
    reloading: Option<Hash>)     // changed by hot reload, its channel not dropped yet

  function Init(services: map<Hash, Bytes>): Server { Server(services, {}, map[], None) }

  datatype Step =
    | Hello(id: nat, service: Hash, nonce: Bytes)
    | Auth(id: nat, key: Hash)
    | Register(id: nat)
    | Fail(id: nat)
    | Reload(service: Hash, token: Option<Bytes>)  // a change of the service table, under its own lock
    | DropReloaded                                 // ... and of the channel map, under the other

  ghost predicate FreshNonce(s: Server, nonce: Bytes) {
    |nonce| == HASH_WIDTH_IN_BYTES && forall i :: i in s.sessions ==> s.sessions[i].nonce != nonce
  }

  ghost predicate Enabled(s: Server, step: Step) {
    match step
    case Hello(id, _, nonce) => id !in s.sessions && FreshNonce(s, nonce)
    case Auth(id, _) => id in s.sessions && s.sessions[id].Challenged?
    case Register(id) => id in s.sessions && s.sessions[id].Accepted?
    case Fail(id) => id in s.sessions && !s.sessions[id].Registered?
    case Reload(_, _) => s.reloading.None?
    case DropReloaded => s.reloading.Some?
  }

  ghost function Next(s: Server, step: Step): Server
    requires Enabled(s, step)
  {
    match step
    case Hello(id, service, nonce) =>
      s.(sessions := s.sessions[id :=
        if service in s.services then Challenged(service, s.services[service], nonce) else Ended(nonce)])
    case Auth(id, key) =>
      var c := s.sessions[id];
      s.(sessions := s.sessions[id :=
        if SessionKey(c.token, c.nonce) == key then Accepted(c.service, c.token, c.nonce) else Ended(c.nonce)])
    case Register(id) =>
      var c := s.sessions[id];
      s.(channels := Inserted(Without1(s.channels, c.service), c.service, SessionKey(c.token, c.nonce), id),
         sessions := s.sessions[id := Registered(c.service, c.token, c.nonce)])
    case Fail(id) => s.(sessions := s.sessions[id := Ended(s.sessions[id].nonce)])
    case Reload(service, token) =>
      s.(services := if token.Some? then s.services[service := token.value] else s.services - {service},
         reloading := Some(service))
    case DropReloaded => s.(channels := Without1(s.channels, s.reloading.value), reloading := None)
  }

  ghost predicate Inv(s: Server) {
    && Injective(s.channels)
    && (forall i :: i in s.sessions ==> |s.sessions[i].nonce| == HASH_WIDTH_IN_BYTES)
    && (forall i, j :: i in s.sessions && j in s.sessions && s.sessions[i].nonce == s.sessions[j].nonce ==> i == j)
    && (forall r :: r in s.channels ==>
          && r.v in s.sessions
          && s.sessions[r.v].Registered?
          && r.k1 == s.sessions[r.v].service
          && r.k2 == SessionKey(s.sessions[r.v].token, s.sessions[r.v].nonce))
  }

  /** A session key determines token and nonce. */
  lemma KeysAreInjective(t1: Bytes, n1: Bytes, t2: Bytes, n2: Bytes)
    requires |n1| == |n2| && SessionKey(t1, n1) == SessionKey(t2, n2)
    ensures t1 == t2 && n1 == n2
  {
    var k := |t1 + n1| - |n1|;
    assert (t1 + n1)[..k] == t1 && (t1 + n1)[k..] == n1;
    assert (t2 + n2)[..k] == t2 && (t2 + n2)[k..] == n2;
  }

  /** The key of a handshake about to register is nobody's key yet, so the insertion cannot fail. */
  lemma KeyIsNew(s: Server, id: nat)
    requires Inv(s) && Enabled(s, Register(id))
    ensures var c := s.sessions[id];
            && !Has2(s.channels, SessionKey(c.token, c.nonce))
            && Next(s, Register(id)).channels
               == Without1(s.channels, c.service) + {Row(c.service, SessionKey(c.token, c.nonce), id)}
  {
    var c := s.sessions[id];
    forall r | r in s.channels ensures r.k2 != SessionKey(c.token, c.nonce) {
      var o := s.sessions[r.v];
      if r.k2 == SessionKey(c.token, c.nonce) {
        KeysAreInjective(o.token, o.nonce, c.token, c.nonce);
      }
    }
  }

  lemma RegisterKeepsInv(s: Server, id: nat)
    requires Inv(s) && Enabled(s, Register(id))
    ensures Inv(Next(s, Register(id)))
  {
    var c, s' := s.sessions[id], Next(s, Register(id));
    KeyIsNew(s, id);
    assert s'.sessions[id] == Registered(c.service, c.token, c.nonce);
  }

  lemma KeepsInv(s: Server, step: Step)
    requires Inv(s) && Enabled(s, step)
    ensures Inv(Next(s, step))
  {
    if step.Register? {
      RegisterKeepsInv(s, step.id);
    }
  }

  /** In every interleaving each service has at most one channel and each key resolves to its own handshake. */
  lemma Reachable(services: map<Hash, Bytes>, run: seq<Step>, end: Server)
    requires Leads(Enabled, Next, Init(services), run, end)
    ensures Inv(end)
  {
    forall s, step | Inv(s) && Enabled(s, step) ensures Inv(Next(s, step)) {
      KeepsInv(s, step);
    }
    Always(Enabled, Next, Inv, Init(services), run, end);
  }

  lemma Routing(services: map<Hash, Bytes>, run: seq<Step>, end: Server, key: Hash)
    requires Leads(Enabled, Next, Init(services), run, end)
    ensures forall a, b :: a in end.channels && b in end.channels && a.k1 == b.k1 ==> a == b
    ensures At2(end.channels, key).Some? ==>
              var id := At2(end.channels, key).value;
              && id in end.sessions && end.sessions[id].Registered?
              && key == SessionKey(end.sessions[id].token, end.sessions[id].nonce)
              && At1(end.channels, end.sessions[id].service) == Some(id)
  {
    Reachable(services, run, end);
    if At2(end.channels, key).Some? {
      var r :| r in end.channels && r.k2 == key && At2(end.channels, key) == Some(r.v);
      RowIsFound(end.channels, r);
    }
  }

  /**
   Auth is accepted exactly when the client used the service's token and this
   handshake's nonce; then both ends hold the same session key.
   */
  lemma AcceptedIffSameKey(s: Server, id: nat, token: Bytes, nonce: Bytes)
    requires Inv(s) && id in s.sessions && s.sessions[id].Challenged? && |nonce| == HASH_WIDTH_IN_BYTES
    ensures var c, c' := s.sessions[id], Next(s, Auth(id, SessionKey(token, nonce))).sessions[id];
            && (c'.Accepted? <==> token == c.token && nonce == c.nonce)
            && (c'.Accepted? ==> SessionKey(c'.token, c'.nonce) == SessionKey(token, nonce))
            && (!c'.Accepted? ==> c'.Ended?)
  {
    var c := s.sessions[id];
    if SessionKey(c.token, c.nonce) == SessionKey(token, nonce) {
      KeysAreInjective(c.token, c.nonce, token, nonce);
    }
  }

  // ----- Whose token a handshake asks for, over whole runs -----

  function Lookup(services: map<Hash, Bytes>, service: Hash): Option<Bytes> {
    if service in services then Some(services[service]) else None
  }

  /** The service's token after the reloads of a run, if it had `now` before. */
  function TokenAfter(now: Option<Bytes>, run: seq<Step>, service: Hash): Option<Bytes>
    decreases |run|
  {
    if run == [] then now
    else if run[0].Reload? && run[0].service == service then TokenAfter(run[0].token, run[1..], service)
    else TokenAfter(now, run[1..], service)
  }

  /** A session keeps service, token and nonce from its beginning to its end, and does not come back from its end. */
  predicate SessionKept(before: Session, after: Session) {
    && after.nonce == before.nonce
    && (before.Ended? ==> after.Ended?)
    && (!after.Ended? ==> after.service == before.service && after.token == before.token)
  }

  lemma {:induction false} SessionStays(s: Server, run: seq<Step>, end: Server, id: nat)
    requires Leads(Enabled, Next, s, run, end) && id in s.sessions
    ensures id in end.sessions && SessionKept(s.sessions[id], end.sessions[id])
    ensures forall k :: 0 <= k < |run| && run[k].Hello? ==> run[k].id != id
    decreases |run|
  {
    if run != [] {
      SessionStays(Next(s, run[0]), run[1..], end, id);
      assert forall k :: 0 < k < |run| ==> run[k] == run[1..][k-1];
    }
  }

  /** What can become of a session that began with this hello, when its service had this token. */
  predicate Begun(c: Session, h: Step, token: Option<Bytes>)
    requires h.Hello?
  {
    && c.nonce == h.nonce
    && (token.None? ==> c.Ended?)
    && (!c.Ended? ==> c.service == h.service && token == Some(c.token))
  }

  /**
   In every interleaving with reloads: a session holds the token its service had in the
   table when its hello was handled, and a session for a service that was not in the
   table then has ended.
   */
  lemma {:induction false} TokenIsTheServices(s: Server, run: seq<Step>, end: Server, k: nat)
    requires Leads(Enabled, Next, s, run, end) && k < |run| && run[k].Hello?
    ensures run[k].id in end.sessions
    ensures Begun(end.sessions[run[k].id], run[k],
                  TokenAfter(Lookup(s.services, run[k].service), run[..k], run[k].service))
    decreases |run|
  {
    if k == 0 {
      SessionStays(Next(s, run[0]), run[1..], end, run[0].id);
    } else {
      TokenIsTheServices(Next(s, run[0]), run[1..], end, k - 1);
      assert run[..k][0] == run[0] && run[..k][1..] == run[1..][..k-1];
    }
  }

  /** Right after a hello for a service in the table, the session waits for the auth. */
  lemma HelloIsAnswered(services: map<Hash, Bytes>, run: seq<Step>, end: Server, h: Step)
    requires Leads(Enabled, Next, Init(services), run, end) && h.Hello? && Enabled(end, h)
    ensures var token := TokenAfter(Lookup(services, h.service), run, h.service);
            Next(end, h).sessions[h.id] ==
              if token.Some? then Challenged(h.service, token.value, h.nonce) else Ended(h.nonce)
  {
    TableFollows(Init(services), run, end, h.service);
  }

  lemma {:induction false} TableFollows(s: Server, run: seq<Step>, end: Server, service: Hash)
    requires Leads(Enabled, Next, s, run, end)
    ensures Lookup(end.services, service) == TokenAfter(Lookup(s.services, service), run, service)
    decreases |run|
  {
    if run != [] {
      TableFollows(Next(s, run[0]), run[1..], end, service);
    }
  }

  /**
   Over runs: when the auth of a challenged session is handled, it is accepted if and
   only if its key is made from the token the service had at the hello, and from the
   nonce of this hello; otherwise the handshake has ended.
   */
  lemma AcceptedOverRuns(services: map<Hash, Bytes>, run: seq<Step>, end: Server, k: nat, key: Hash)
    requires Leads(Enabled, Next, Init(services), run, end) && k < |run| && run[k].Hello?
    requires Enabled(end, Auth(run[k].id, key))
    ensures var h := run[k];
            var token := TokenAfter(Lookup(services, h.service), run[..k], h.service);
            && token.Some?
            && (Next(end, Auth(h.id, key)).sessions[h.id].Accepted? <==> key == SessionKey(token.value, h.nonce))
            && (Next(end, Auth(h.id, key)).sessions[h.id].Ended? <==> key != SessionKey(token.value, h.nonce))
  {
    TokenIsTheServices(Init(services), run, end, k);
  }

  /** Nobody gets further without having sent that key: neither an ack nor a control channel. */
  lemma {:induction false} AcceptanceIsEarned(s: Server, run: seq<Step>, end: Server, id: nat)
    requires Leads(Enabled, Next, s, run, end) && id in end.sessions
    requires end.sessions[id].Accepted? || end.sessions[id].Registered?
    requires id in s.sessions ==> s.sessions[id].Challenged? || s.sessions[id].Ended?
    ensures Auth(id, SessionKey(end.sessions[id].token, end.sessions[id].nonce)) in run
    decreases |run|
  {
    if run != [] {
      var s' := Next(s, run[0]);
      if id in s'.sessions {
        SessionStays(s', run[1..], end, id);
      }
      if !(id in s'.sessions && s'.sessions[id].Accepted?) {
        AcceptanceIsEarned(s', run[1..], end, id);
        assert forall step :: step in run[1..] ==> step in run;
      }
    }
  }

  /** A failed handshake has ended, and a step of one handshake is no step of another. */
  lemma StepsAreOwn(s: Server, step: Step)
    requires Enabled(s, step)
    ensures step.Fail? ==> Next(s, step).sessions[step.id] == Ended(s.sessions[step.id].nonce)
    ensures forall i :: i in s.sessions && !((step.Hello? || step.Auth? || step.Register? || step.Fail?) && step.id == i) ==>
              i in Next(s, step).sessions && Next(s, step).sessions[i] == s.sessions[i]
    ensures !step.Register? && !step.DropReloaded? ==> Next(s, step).channels == s.channels
    ensures step.Reload? ==> Next(s, step).reloading == Some(step.service)
  {
  }

  /** Dropping after a reload takes out the channel of the reloaded service and no other. */
  lemma ReloadDrops(s: Server)
    requires Inv(s) && Enabled(s, DropReloaded)
    ensures var service, after := s.reloading.value, Next(s, DropReloaded).channels;
            && At1(after, service) == None
            && (forall r :: r in s.channels && r.k1 == service ==> At2(after, r.k2) == None)
            && (forall r :: r in s.channels && r.k1 != service ==>
                  At1(after, r.k1) == Some(r.v) && At2(after, r.k2) == Some(r.v))
  {
    var service, after := s.reloading.value, Next(s, DropReloaded).channels;
    OperationsKeepInjective(s.channels, service, service, 0);
    forall r | r in s.channels && r.k1 != service
      ensures At1(after, r.k1) == Some(r.v) && At2(after, r.k2) == Some(r.v)
    {
      RowIsFound(after, r);
    }
  }

  /**
   Registering supersedes: the service and the new key resolve to the new channel,
   the old key to nothing, and every other service and key to what they did before.
   */
  lemma Supersedes(s: Server, id: nat)
    requires Inv(s) && Enabled(s, Register(id))
    ensures var c, after := s.sessions[id], Next(s, Register(id)).channels;
            var key := SessionKey(c.token, c.nonce);
            && At1(after, c.service) == Some(id) && At2(after, key) == Some(id)
            && (forall r :: r in s.channels && r.k1 == c.service ==> At2(after, r.k2) == None)
            && (forall r :: r in s.channels && r.k1 != c.service ==>
                  At1(after, r.k1) == Some(r.v) && At2(after, r.k2) == Some(r.v))
            && (forall r :: r in after ==> r in s.channels || r == Row(c.service, key, id))
  {
    var c, after := s.sessions[id], Next(s, Register(id)).channels;
    KeyIsNew(s, id);
    KeepsInv(s, Register(id));
    RowIsFound(after, Row(c.service, SessionKey(c.token, c.nonce), id));
    forall r | r in s.channels && r.k1 != c.service
      ensures At1(after, r.k1) == Some(r.v) && At2(after, r.k2) == Some(r.v)
    {
      RowIsFound(after, r);
    }
    forall r | r in s.channels && r.k1 == c.service ensures !Has2(after, r.k2) {
      OldKeyIsGone(s, id, r);
    }
  }

  lemma OldKeyIsGone(s: Server, id: nat, r: Row<Hash, Hash, nat>)
    requires Inv(s) && Enabled(s, Register(id)) && r in s.channels && r.k1 == s.sessions[id].service
    ensures !Has2(Next(s, Register(id)).channels, r.k2)
  {
    var c := s.sessions[id];
    KeyIsNew(s, id);
    assert Has2(s.channels, r.k2);
    forall q | q in Next(s, Register(id)).channels ensures q.k2 != r.k2 {
      assert q in s.channels || q == Row(c.service, SessionKey(c.token, c.nonce), id);
    }
  }

  /** The constant-time comparison: differences accumulate in `acc`. */
  method DigestEq(a: array<bv8>, b: array<bv8>) returns (equal: bool)
    requires a.Length == b.Length == HASH_WIDTH_IN_BYTES
    ensures equal <==> a[..] == b[..]
  {
    var acc: bv8 := 0;
    var i := 0;
    while i < a.Length
      invariant 0 <= i <= a.Length
      invariant acc == 0 <==> a[..i] == b[..i]
    {
      DifferenceShows(acc, a[i], b[i]);
      assert a[..i+1] == a[..i] + [a[i]] && b[..i+1] == b[..i] + [b[i]];
      acc := acc | (a[i] ^ b[i]);
      i := i + 1;
    }
    assert a[..i] == a[..] && b[..i] == b[..];
    equal := acc == 0;
  }

  lemma DifferenceShows(acc: bv8, x: bv8, y: bv8)
    ensures (acc | (x ^ y)) == 0 <==> acc == 0 && x == y
  {
  }

  /** The handshake of a client with the right token goes through, whatever went on before. */
  lemma HandshakeCompletes(services: map<Hash, Bytes>, run: seq<Step>, s: Server, id: nat, service: Hash, nonce: Bytes)
    requires Leads(Enabled, Next, Init(services), run, s)
    requires service in s.services && id !in s.sessions && FreshNonce(s, nonce)
    ensures var key := SessionKey(s.services[service], nonce);
            exists end :: Leads(Enabled, Next, s, [Hello(id, service, nonce), Auth(id, key), Register(id)], end)
              && At1(end.channels, service) == Some(id) && At2(end.channels, key) == Some(id)
  {
    var key := SessionKey(s.services[service], nonce);
    var s1 := Next(s, Hello(id, service, nonce));
    var s2 := Next(s1, Auth(id, key));
    Reachable(services, run, s);
    assert Leads(Enabled, Next, s, [], s);
    LeadsFurther(Enabled, Next, s, [], s, Hello(id, service, nonce));
    LeadsFurther(Enabled, Next, s, [] + [Hello(id, service, nonce)], s1, Auth(id, key));
    LeadsFurther(Enabled, Next, s, [] + [Hello(id, service, nonce)] + [Auth(id, key)], s2, Register(id));
    assert [] + [Hello(id, service, nonce)] + [Auth(id, key)] + [Register(id)]
           == [Hello(id, service, nonce), Auth(id, key), Register(id)];
    KeepsInv(s, Hello(id, service, nonce));
    KeepsInv(s1, Auth(id, key));
    Supersedes(s2, id);
  }
}
