/**
 The wire format (src/protocol.rs): handshake and command messages of fixed length,
 and length-prefixed UDP packets, in bincode 1's default layout: u32 variant tags
 and integers in little-endian order, byte arrays as they are.
 */
module Wire {
  import opened Basics

  const HASH_WIDTH_IN_BYTES: nat := 32
  const CURRENT_PROTO_VERSION: byte := 1
  const UDP_BUFFER_SIZE: nat := 2048

  type byte = b: int | 0 <= b < 256
  type u16 = n: int | 0 <= n < 0x1_0000
  type Bytes = seq<byte>
  const ZERO16: Bytes := [0, 0, 0, 0, 0, 0, 0, 0, 0, 0, 0, 0, 0, 0, 0, 0]

  type Hash = h: Bytes | |h| == HASH_WIDTH_IN_BYTES witness ZERO16 + ZERO16
  type Ipv4 = ip: Bytes | |ip| == 4 witness [0, 0, 0, 0]
  type Ipv6 = ip: Bytes | |ip| == 16 witness ZERO16

  function U16(n: u16): Bytes { [n % 256, n / 256] }

  function Tag(n: byte): Bytes { [n, 0, 0, 0] }

  function ReadU16(s: Bytes): u16
    requires |s| == 2
  {
    (s[0] as int) + 0x100 * (s[1] as int)
  }

  function ReadU32(s: Bytes): nat
    requires |s| == 4
  {
    (s[0] as int) + 0x100 * (s[1] as int) + 0x1_0000 * (s[2] as int) + 0x100_0000 * (s[3] as int)
  }

  // ----- Connections -----

  class Conn {
    var incoming: Bytes
    var outgoing: Bytes

    constructor (incoming: Bytes)
      ensures this.incoming == incoming && outgoing == []
    {
      this.incoming := incoming;
      outgoing := [];
    }

    /** Fails at the end of the stream, with what was left consumed. */
    method ReadExact(n: nat) returns (buf: Option<Bytes>)
      modifies this`incoming
      ensures |old(incoming)| >= n ==> buf == Some(old(incoming)[..n]) && incoming == old(incoming)[n..]
      ensures |old(incoming)| < n ==> buf == None && incoming == []
    {
      if |incoming| < n {
        incoming := [];
        return None;
      }
      buf := Some(incoming[..n]);
      incoming := incoming[n..];
    }

    method WriteAll(data: Bytes)
      modifies this`outgoing
      ensures outgoing == old(outgoing) + data
    {
      outgoing := outgoing + data;
    }
  }

  /** What a reader makes of a stream, and what it leaves. */
  datatype Read<+T> = Read(result: Option<T>, rest: Bytes)

  // ----- UDP packets -----

  datatype SocketAddr =
    | V4(ip4: Ipv4, port: u16)
    | V6(ip6: Ipv6, port: u16, flowinfo: nat, scopeId: nat)

  datatype UdpTraffic = UdpTraffic(from: SocketAddr, data: Bytes)

  function EncodeAddr(a: SocketAddr): Bytes {
    match a
    case V4(ip, port) => Tag(0) + ip + U16(port)
    case V6(ip, port, _, _) => Tag(1) + ip + U16(port)
  }

  function EncodeHeader(t: UdpTraffic): Bytes { EncodeAddr(t.from) + U16(|t.data| % 0x1_0000) }

  function EncodeTraffic(t: UdpTraffic): Bytes {
    [|EncodeHeader(t)| % 256] + EncodeHeader(t) + t.data
  }

  /** Trailing bytes are allowed. */
  function DecodeHeader(buf: Bytes): Option<(SocketAddr, u16)> {
    if |buf| < 4 then None
    else if ReadU32(buf[..4]) == 0 then
      if |buf| < 12 then None else Some((V4(buf[4..8], ReadU16(buf[8..10])), ReadU16(buf[10..12])))
    else if ReadU32(buf[..4]) == 1 then
      if |buf| < 24 then None else Some((V6(buf[4..20], ReadU16(buf[20..22]), 0, 0), ReadU16(buf[22..24])))
    else None
  }

  /** `UdpTraffic::read`, after the header length has been read. */
  function DecodeTraffic(hdrLen: byte, s: Bytes): Read<UdpTraffic> {
    if |s| < hdrLen then Read(None, []) else
    var hdr, rest := DecodeHeader(s[..hdrLen]), s[hdrLen..];
    if hdr.None? then Read(None, rest)
    else if |rest| < hdr.value.1 then Read(None, [])
    else Read(Some(UdpTraffic(hdr.value.0, rest[..hdr.value.1])), rest[hdr.value.1..])
  }

  /** One turn of a receiving loop. */
  function ReadPacket(s: Bytes): Read<UdpTraffic> {
    if s == [] then Read(None, []) else DecodeTraffic(s[0], s[1..])
  }

  method WriteTraffic(conn: Conn, from: SocketAddr, data: Bytes)
    modifies conn`outgoing
    ensures conn.outgoing == old(conn.outgoing) + EncodeTraffic(UdpTraffic(from, data))
  {
    var hdr := EncodeHeader(UdpTraffic(from, data));
    var prefix: Bytes := [|hdr| % 256];
    ghost var before := conn.outgoing;
    conn.WriteAll(prefix);
    conn.WriteAll(hdr);
    conn.WriteAll(data);
    Regroup(before, prefix, hdr, data);
  }

  lemma Regroup(a: Bytes, b: Bytes, c: Bytes, d: Bytes)
    ensures a + b + c + d == a + (b + c + d)
  {
  }

  lemma Nested(a: Bytes, b: Bytes, c: Bytes, d: Bytes)
    ensures a + b + c + d == a + (b + (c + d))
  {
  }

  /** Cutting a concatenation where it was joined. */
  lemma CutAtJoin(a: Bytes, b: Bytes)
    ensures (a + b)[..|a|] == a && (a + b)[|a|..] == b
  {
  }

  method ReadTraffic(conn: Conn, hdrLen: byte) returns (t: Option<UdpTraffic>)
    modifies conn`incoming
    ensures Read(t, conn.incoming) == DecodeTraffic(hdrLen, old(conn.incoming))
  {
    var buf := conn.ReadExact(hdrLen);
    if buf.None? {
      return None;
    }
    var hdr := DecodeHeader(buf.value);
    if hdr.None? {
      return None;
    }
    var data := conn.ReadExact(hdr.value.1);
    if data.None? {
      return None;
    }
    return Some(UdpTraffic(hdr.value.0, data.value));
  }

  /** An address as ip and port. */
  function IpAndPort(a: SocketAddr): SocketAddr {
    match a
    case V4(_, _) => a
    case V6(ip, port, _, _) => V6(ip, port, 0, 0)
  }

  lemma HeaderRoundTrip(t: UdpTraffic)
    ensures |EncodeHeader(t)| == 12 || |EncodeHeader(t)| == 24
    ensures DecodeHeader(EncodeHeader(t)) == Some((IpAndPort(t.from), |t.data| % 0x1_0000))
  {
    var h, len := EncodeHeader(t), |t.data| % 0x1_0000;
    match t.from
    case V4(ip, port) =>
      assert h[..4] == Tag(0) && h[4..8] == ip && h[8..10] == U16(port) && h[10..12] == U16(len);
    case V6(ip, port, _, _) =>
      assert h[..4] == Tag(1) && h[4..20] == ip && h[20..22] == U16(port) && h[22..24] == U16(len);
  }

  /** A header, a payload of the length it announces, and whatever follows. */
  lemma ReadsPayload(prefix: byte, h: Bytes, from: SocketAddr, len: u16, payload: Bytes, rest: Bytes)
    requires prefix == |h| && DecodeHeader(h) == Some((from, len)) && |payload| == len
    ensures ReadPacket([prefix] + (h + (payload + rest))) == Read(Some(UdpTraffic(from, payload)), rest)
  {
    var s := [prefix] + (h + (payload + rest));
    assert s[0] == prefix && s[1..] == h + (payload + rest);
    CutAtJoin(h, payload + rest);
    CutAtJoin(payload, rest);
  }

  /**
   What the reader makes of a written packet, whatever follows: the length field is
   the payload's length modulo 2^16, and the rest of a longer payload is taken for
   the next packet.
   */
  lemma PacketRoundTrip(t: UdpTraffic, rest: Bytes)
    ensures var len := |t.data| % 0x1_0000;
            ReadPacket(EncodeTraffic(t) + rest)
            == Read(Some(UdpTraffic(IpAndPort(t.from), t.data[..len])), t.data[len..] + rest)
  {
    HeaderRoundTrip(t);
    var h, len := EncodeHeader(t), |t.data| % 0x1_0000;
    var prefix: byte := |h| % 256;
    var kept, left := t.data[..len], t.data[len..];
    assert t.data == kept + left;
    Nested([], kept, left, rest);
    assert [] + kept + left == t.data && [] + (kept + (left + rest)) == kept + (left + rest);
    Nested([prefix], h, t.data, rest);
    assert EncodeTraffic(t) == [prefix] + h + t.data;
    ReadsPayload(prefix, h, IpAndPort(t.from), len, kept, left + rest);
  }

  /** Cut at its length modulo 2^16, a payload is whole exactly if it is shorter than that. */
  lemma WholeIff(read: Read<UdpTraffic>, from: SocketAddr, data: Bytes, rest: Bytes)
    requires var len := |data| % 0x1_0000; read == Read(Some(UdpTraffic(from, data[..len])), data[len..] + rest)
    ensures read == Read(Some(UdpTraffic(from, data)), rest) <==> |data| < 0x1_0000
  {
    var len := |data| % 0x1_0000;
    if |data| < 0x1_0000 {
      assert data[..len] == data && data[len..] + rest == rest;
    } else {
      assert |data[..len]| < |data|;
    }
  }

  /** The exact condition for a packet to come back with the stream left where it should be. */
  lemma PacketSurvivesIff(t: UdpTraffic, rest: Bytes)
    ensures ReadPacket(EncodeTraffic(t) + rest) == Read(Some(UdpTraffic(IpAndPort(t.from), t.data)), rest)
            <==> |t.data| < 0x1_0000
  {
    PacketRoundTrip(t, rest);
    WholeIff(ReadPacket(EncodeTraffic(t) + rest), IpAndPort(t.from), t.data, rest);
  }

  /** Both senders fill a buffer of fixed size and send a part of it: such a packet always survives. */
  lemma SendersFit(buffer: Bytes, n: nat, from: SocketAddr, rest: Bytes)
    requires |buffer| == UDP_BUFFER_SIZE && n <= |buffer|
    ensures ReadPacket(EncodeTraffic(UdpTraffic(from, buffer[..n])) + rest)
            == Read(Some(UdpTraffic(IpAndPort(from), buffer[..n])), rest)
  {
    PacketSurvivesIff(UdpTraffic(from, buffer[..n]), rest);
  }

  /** A payload of 65536 bytes is read as an empty packet, and its bytes as what follows. */
  lemma LongPayloadIsLost(from: SocketAddr, rest: Bytes)
    ensures var data: Bytes := seq(0x1_0000, _ => 0);
            ReadPacket(EncodeTraffic(UdpTraffic(from, data)) + rest)
            == Read(Some(UdpTraffic(IpAndPort(from), [])), data + rest)
  {
    PacketRoundTrip(UdpTraffic(from, seq(0x1_0000, _ => 0)), rest);
  }

  function EncodeAll(ts: seq<UdpTraffic>): Bytes {
    if ts == [] then [] else EncodeTraffic(ts[0]) + EncodeAll(ts[1..])
  }

  function ReadPackets(n: nat, s: Bytes): Read<seq<UdpTraffic>> {
    if n == 0 then Read(Some([]), s) else
    var first := ReadPacket(s);
    if first.result.None? then Read(None, first.rest) else
    var others := ReadPackets(n - 1, first.rest);
    if others.result.None? then others else Read(Some([first.result.value] + others.result.value), others.rest)
  }

  function Arrived(ts: seq<UdpTraffic>): seq<UdpTraffic> {
    seq(|ts|, i requires 0 <= i < |ts| => UdpTraffic(IpAndPort(ts[i].from), ts[i].data))
  }

  lemma ArrivedFirst(ts: seq<UdpTraffic>)
    requires ts != []
    ensures Arrived(ts) == [UdpTraffic(IpAndPort(ts[0].from), ts[0].data)] + Arrived(ts[1..])
  {
  }

  /** A packet that survives, and others after it. */
  lemma ReadsFirst(n: nat, first: Bytes, others: Bytes, rest: Bytes, t: UdpTraffic, ts: seq<UdpTraffic>)
    requires ReadPacket(first + (others + rest)) == Read(Some(t), others + rest)
    requires ReadPackets(n, others + rest) == Read(Some(ts), rest)
    ensures ReadPackets(n + 1, first + others + rest) == Read(Some([t] + ts), rest)
  {
    assert first + others + rest == first + (others + rest);
  }

  /** Any list of packets comes back as it was, and the bytes after it are untouched. */
  lemma {:induction false} PacketsRoundTrip(ts: seq<UdpTraffic>, rest: Bytes)
    requires forall i :: 0 <= i < |ts| ==> |ts[i].data| < 0x1_0000
    ensures ReadPackets(|ts|, EncodeAll(ts) + rest) == Read(Some(Arrived(ts)), rest)
    decreases |ts|
  {
    if ts == [] {
      assert EncodeAll(ts) + rest == rest && Arrived(ts) == [];
    } else {
      var t := UdpTraffic(IpAndPort(ts[0].from), ts[0].data);
      PacketSurvivesIff(ts[0], EncodeAll(ts[1..]) + rest);
      PacketsRoundTrip(ts[1..], rest);
      ReadsFirst(|ts| - 1, EncodeTraffic(ts[0]), EncodeAll(ts[1..]), rest, t, Arrived(ts[1..]));
      ArrivedFirst(ts);
    }
  }

  // ----- Messages -----

  datatype Hello =
    | ControlChannelHello(version: byte, digest: Hash)
    | DataChannelHello(version: byte, digest: Hash)
  datatype Ack = AckOk | ServiceNotExist | AuthFailed
  datatype ControlChannelCmd = CreateDataChannel | HeartBeat
  datatype DataChannelCmd = StartForwardTcp | StartForwardUdp

  function EncodeHello(h: Hello): Bytes {
    match h
    case ControlChannelHello(v, d) => Tag(0) + [v] + d
    case DataChannelHello(v, d) => Tag(1) + [v] + d
  }

  function EncodeAck(a: Ack): Bytes {
    match a
    case AckOk => Tag(0)
    case ServiceNotExist => Tag(1)
    case AuthFailed => Tag(2)
  }

  function EncodeControlCmd(c: ControlChannelCmd): Bytes { if c.CreateDataChannel? then Tag(0) else Tag(1) }

  function EncodeDataCmd(c: DataChannelCmd): Bytes { if c.StartForwardTcp? then Tag(0) else Tag(1) }

  /** The lengths the readers wait for, measured once on one variant of each message. */
  const HELLO_LEN: nat := |EncodeHello(ControlChannelHello(CURRENT_PROTO_VERSION, ZERO16 + ZERO16))|
  const ACK_LEN: nat := |EncodeAck(AckOk)|
  const AUTH_LEN: nat := HASH_WIDTH_IN_BYTES
  const C_CMD_LEN: nat := |EncodeControlCmd(CreateDataChannel)|
  const D_CMD_LEN: nat := |EncodeDataCmd(StartForwardTcp)|

  function DecodeHello(buf: Bytes): Option<Hello>
    requires |buf| == HELLO_LEN
  {
    if ReadU32(buf[..4]) == 0 then Some(ControlChannelHello(buf[4], buf[5..37]))
    else if ReadU32(buf[..4]) == 1 then Some(DataChannelHello(buf[4], buf[5..37]))
    else None
  }

  function DecodeAck(buf: Bytes): Option<Ack>
    requires |buf| == ACK_LEN
  {
    match ReadU32(buf)
    case 0 => Some(AckOk)
    case 1 => Some(ServiceNotExist)
    case 2 => Some(AuthFailed)
    case _ => None
  }

  function DecodeControlCmd(buf: Bytes): Option<ControlChannelCmd>
    requires |buf| == C_CMD_LEN
  {
    match ReadU32(buf)
    case 0 => Some(CreateDataChannel)
    case 1 => Some(HeartBeat)
    case _ => None
  }

  function DecodeDataCmd(buf: Bytes): Option<DataChannelCmd>
    requires |buf| == D_CMD_LEN
  {
    match ReadU32(buf)
    case 0 => Some(StartForwardTcp)
    case 1 => Some(StartForwardUdp)
    case _ => None
  }

  datatype Kind = HelloKind | AuthKind | AckKind | ControlCmdKind | DataCmdKind

  datatype Message =
    | MHello(hello: Hello)
    | MAuth(digest: Hash)
    | MAck(ack: Ack)
    | MControl(control: ControlChannelCmd)
    | MData(data: DataChannelCmd)

  function KindOf(m: Message): Kind {
    match m
    case MHello(_) => HelloKind
    case MAuth(_) => AuthKind
    case MAck(_) => AckKind
    case MControl(_) => ControlCmdKind
    case MData(_) => DataCmdKind
  }

  function Encode(m: Message): Bytes {
    match m
    case MHello(h) => EncodeHello(h)
    case MAuth(d) => d
    case MAck(a) => EncodeAck(a)
    case MControl(c) => EncodeControlCmd(c)
    case MData(c) => EncodeDataCmd(c)
  }

  function LengthOf(k: Kind): nat {
    match k
    case HelloKind => HELLO_LEN
    case AuthKind => AUTH_LEN
    case AckKind => ACK_LEN
    case ControlCmdKind => C_CMD_LEN
    case DataCmdKind => D_CMD_LEN
  }

  function Decode(k: Kind, buf: Bytes): Option<Message>
    requires |buf| == LengthOf(k)
  {
    match k
    case HelloKind =>
      (match DecodeHello(buf)
       case Some(h) => if h.version == CURRENT_PROTO_VERSION then Some(MHello(h)) else None
       case None => None)
    case AuthKind => Some(MAuth(buf))
    case AckKind => (match DecodeAck(buf) case Some(a) => Some(MAck(a)) case None => None)
    case ControlCmdKind => (match DecodeControlCmd(buf) case Some(c) => Some(MControl(c)) case None => None)
    case DataCmdKind => (match DecodeDataCmd(buf) case Some(c) => Some(MData(c)) case None => None)
  }

  /** `read_hello`, `read_auth`, `read_ack`, `read_control_cmd` and `read_data_cmd`. */
  function ReadMessage(k: Kind, s: Bytes): Read<Message> {
    if |s| < LengthOf(k) then Read(None, []) else Read(Decode(k, s[..LengthOf(k)]), s[LengthOf(k)..])
  }

  method Receive(conn: Conn, k: Kind) returns (m: Option<Message>)
    modifies conn`incoming
    ensures Read(m, conn.incoming) == ReadMessage(k, old(conn.incoming))
  {
    var buf := conn.ReadExact(LengthOf(k));
    if buf.None? {
      return None;
    }
    match k {
      case HelloKind =>
        var hello := DecodeHello(buf.value);
        if hello.None? {
          return None;
        }
        match hello.value {
          case ControlChannelHello(v, _) =>
            if v != CURRENT_PROTO_VERSION {
              return None;
            }
          case DataChannelHello(v, _) =>
            if v != CURRENT_PROTO_VERSION {
              return None;
            }
        }
        return Some(MHello(hello.value));
      case _ => return Decode(k, buf.value);
    }
  }

  /** Every variant of a message has the length its reader waits for. */
  lemma FixedLength(m: Message)
    ensures |Encode(m)| == LengthOf(KindOf(m))
  {
  }

  /** A message comes back exactly unless it is a hello of another protocol version; framing is kept either way. */
  lemma MessageRoundTrip(m: Message, rest: Bytes)
    ensures ReadMessage(KindOf(m), Encode(m) + rest).rest == rest
    ensures ReadMessage(KindOf(m), Encode(m) + rest).result
            == if m.MHello? && m.hello.version != CURRENT_PROTO_VERSION then None else Some(m)
  {
    FixedLength(m);
    CutAtJoin(Encode(m), rest);
    DecodeUndoesEncode(m);
  }

  lemma DecodeUndoesEncode(m: Message)
    requires |Encode(m)| == LengthOf(KindOf(m))
    ensures Decode(KindOf(m), Encode(m))
            == if m.MHello? && m.hello.version != CURRENT_PROTO_VERSION then None else Some(m)
  {
    match m
    case MHello(h) => DecodeUndoesEncodeHello(h);
    case _ =>
  }

  lemma DecodeUndoesEncodeHello(h: Hello)
    ensures |EncodeHello(h)| == HELLO_LEN && DecodeHello(EncodeHello(h)) == Some(h)
  {
    var tag := if h.ControlChannelHello? then Tag(0) else Tag(1);
    var e := EncodeHello(h);
    assert e == tag + [h.version] + h.digest;
    assert e[..4] == tag && e[4] == h.version && e[5..37] == h.digest;
  }

  function EncodeMessages(ms: seq<Message>): Bytes {
    if ms == [] then [] else Encode(ms[0]) + EncodeMessages(ms[1..])
  }

  function ReadMessages(ks: seq<Kind>, s: Bytes): Read<seq<Message>> {
    if ks == [] then Read(Some([]), s) else
    var first := ReadMessage(ks[0], s);
    if first.result.None? then Read(None, first.rest) else
    var others := ReadMessages(ks[1..], first.rest);
    if others.result.None? then others else Read(Some([first.result.value] + others.result.value), others.rest)
  }

  function Kinds(ms: seq<Message>): seq<Kind> { seq(|ms|, i requires 0 <= i < |ms| => KindOf(ms[i])) }

  /** Any conversation of current-version messages is read back as it was sent. */
  lemma {:induction false} ConversationRoundTrip(ms: seq<Message>, rest: Bytes)
    requires forall m :: m in ms && m.MHello? ==> m.hello.version == CURRENT_PROTO_VERSION
    ensures ReadMessages(Kinds(ms), EncodeMessages(ms) + rest) == Read(Some(ms), rest)
    decreases |ms|
  {
    if ms == [] {
      assert EncodeMessages(ms) + rest == rest;
    } else {
      assert EncodeMessages(ms) + rest == Encode(ms[0]) + (EncodeMessages(ms[1..]) + rest);
      MessageRoundTrip(ms[0], EncodeMessages(ms[1..]) + rest);
      assert Kinds(ms)[1..] == Kinds(ms[1..]);
      ConversationRoundTrip(ms[1..], rest);
      assert ms == [ms[0]] + ms[1..];
    }
  }

  // ----- What the readers accept -----

  /** A little-endian number. */
  function LittleEndian(s: Bytes): nat { if s == [] then 0 else s[0] as int + 0x100 * LittleEndian(s[1..]) }

  lemma Unroll(s: Bytes)
    requires s != []
    ensures LittleEndian(s) == s[0] as int + 0x100 * LittleEndian(s[1..])
  {
  }

  /** Lengths, ports and variant tags are little-endian numbers of two and four bytes. */
  lemma NumbersAreLittleEndian(n: u16, tag: byte, s: Bytes)
    ensures LittleEndian(U16(n)) == n && |U16(n)| == 2
    ensures LittleEndian(Tag(tag)) == tag && |Tag(tag)| == 4
    ensures |s| == 2 ==> ReadU16(s) == LittleEndian(s)
    ensures |s| == 4 ==> ReadU32(s) == LittleEndian(s)
  {
    Unroll(U16(n));
    assert U16(n)[1..] == [n / 256] && LittleEndian([n / 256]) == n / 256 by { Unroll([n / 256]); }
    FourBytes(Tag(tag));
    if |s| == 4 {
      FourBytes(s);
    } else if |s| == 2 {
      Unroll(s);
      Unroll(s[1..]);
    }
  }

  lemma FourBytes(s: Bytes)
    requires |s| == 4
    ensures LittleEndian(s) == ReadU32(s)
  {
    Unroll(s);
    Unroll(s[1..]);
    Unroll(s[2..]);
    Unroll(s[3..]);
    assert s[1..][1..] == s[2..] && s[2..][1..] == s[3..] && s[3..][1..] == [];
  }

  /** A number below 256 in four bytes has no other form. */
  lemma TagIsUnique(s: Bytes, n: byte)
    requires |s| == 4
    ensures ReadU32(s) == n <==> s == Tag(n)
  {
    if ReadU32(s) == n {
      assert s[1] == 0 && s[2] == 0 && s[3] == 0;
    }
  }

  /** Only encodings are decoded: an unknown tag, or another protocol version, is refused. */
  lemma DecodesOnlyEncodings(k: Kind, buf: Bytes)
    requires |buf| == LengthOf(k)
    ensures Decode(k, buf).Some? <==>
              exists m :: KindOf(m) == k && Encode(m) == buf && (m.MHello? ==> m.hello.version == CURRENT_PROTO_VERSION)
    ensures Decode(k, buf).Some? ==> Encode(Decode(k, buf).value) == buf && KindOf(Decode(k, buf).value) == k
  {
    if Decode(k, buf).Some? {
      DecodedIsEncoding(k, buf);
    }
    forall m | KindOf(m) == k && Encode(m) == buf && (m.MHello? ==> m.hello.version == CURRENT_PROTO_VERSION)
      ensures Decode(k, buf) == Some(m)
    {
      FixedLength(m);
      DecodeUndoesEncode(m);
    }
  }

  lemma DecodedIsEncoding(k: Kind, buf: Bytes)
    requires |buf| == LengthOf(k) && Decode(k, buf).Some?
    ensures Encode(Decode(k, buf).value) == buf && KindOf(Decode(k, buf).value) == k
    ensures k.HelloKind? ==> Decode(k, buf).value.hello.version == CURRENT_PROTO_VERSION
  {
    if k.HelloKind? {
      TagIsUnique(buf[..4], 0);
      TagIsUnique(buf[..4], 1);
      assert buf == buf[..4] + [buf[4]] + buf[5..37];
    } else if !k.AuthKind? {
      TagIsUnique(buf, 0);
      TagIsUnique(buf, 1);
      TagIsUnique(buf, 2);
    }
  }

  /** What a reader refuses: a short stream, or bytes that are no message of the current version. */
  lemma ReadsOnlyMessages(k: Kind, s: Bytes)
    ensures var r := ReadMessage(k, s);
            && (r.result.Some? ==>
                  && KindOf(r.result.value) == k && s == Encode(r.result.value) + r.rest
                  && (k.HelloKind? ==> r.result.value.hello.version == CURRENT_PROTO_VERSION))
            && (r.result.None? <==>
                  forall m :: KindOf(m) == k && Encode(m) <= s ==> m.MHello? && m.hello.version != CURRENT_PROTO_VERSION)
  {
    var r := ReadMessage(k, s);
    if r.result.Some? {
      var m := r.result.value;
      DecodedIsEncoding(k, s[..LengthOf(k)]);
      assert s == s[..LengthOf(k)] + s[LengthOf(k)..];
      assert KindOf(m) == k && Encode(m) <= s;
    } else {
      forall m | KindOf(m) == k && Encode(m) <= s ensures m.MHello? && m.hello.version != CURRENT_PROTO_VERSION {
        FixedLength(m);
        assert s == Encode(m) + s[|Encode(m)|..];
        MessageRoundTrip(m, s[|Encode(m)|..]);
      }
    }
  }

  /** A header decodes to an address and a length exactly if it begins with their encoding. */
  lemma HeaderIs(h: Bytes, from: SocketAddr, len: u16)
    ensures DecodeHeader(h) == Some((from, len)) <==> IpAndPort(from) == from && EncodeAddr(from) + U16(len) <= h
  {
    if |h| >= 4 {
      TagIsUnique(h[..4], 0);
      TagIsUnique(h[..4], 1);
    }
    var e := EncodeAddr(from) + U16(len);
    if DecodeHeader(h) == Some((from, len)) {
      match from
      case V4(ip, port) =>
        NumberIsUnique(h[8..10]);
        NumberIsUnique(h[10..12]);
        assert h[..12] == h[..4] + h[4..8] + h[8..10] + h[10..12];
      case V6(ip, port, _, _) =>
        NumberIsUnique(h[20..22]);
        NumberIsUnique(h[22..24]);
        assert h[..24] == h[..4] + h[4..20] + h[20..22] + h[22..24];
    } else if IpAndPort(from) == from && e <= h {
      HeaderBegins(h, from, len);
    }
  }

  lemma NumberIsUnique(s: Bytes)
    requires |s| == 2
    ensures U16(ReadU16(s)) == s
  {
  }

  lemma HeaderBegins(h: Bytes, from: SocketAddr, len: u16)
    requires IpAndPort(from) == from && EncodeAddr(from) + U16(len) <= h
    ensures DecodeHeader(h) == Some((from, len))
  {
    var e := EncodeAddr(from) + U16(len);
    match from
    case V4(ip, port) =>
      assert e[..4] == Tag(0) && e[4..8] == ip && e[8..10] == U16(port) && e[10..12] == U16(len);
      assert h[..4] == e[..4] && h[4..8] == e[4..8] && h[8..10] == e[8..10] && h[10..12] == e[10..12];
    case V6(ip, port, _, _) =>
      assert e[..4] == Tag(1) && e[4..20] == ip && e[20..22] == U16(port) && e[22..24] == U16(len);
      assert h[..4] == e[..4] && h[4..20] == e[4..20] && h[20..22] == e[20..22] && h[22..24] == e[22..24];
  }
}
