/**
 The client's UDP port map (src/client.rs, `run_data_channel_for_udp`,
 `run_udp_forwarder`): one read loop inserts, any number of forwarders remove
 themselves by address. Between the read loop's lookup and its insertion no lock
 is held; every interleaving is allowed there. Forwarders are numbered as they are
 spawned, and stay in `forwarders` after their end.
 */
module UdpPortMap {
  import opened Basics
  import opened Runs

  type Address = int  // visitor addresses are only compared

  datatype Packet = Packet(from: Address, data: seq<int>)

  datatype Stage = Forwarding | Leaving | Gone

  datatype Forwarder = Forwarder(from: Address, stage: Stage, inbox: seq<Packet>)

  datatype Reader =
    | Reading
    | Looking(packet: Packet)                       // a packet is read
    | Connecting(packet: Packet)                    // unmapped; connecting with no lock held
    | Sending(packet: Packet, to: Option<nat>)      // the sender cloned out of the map

  datatype State = State(portMap: map<Address, nat>, forwarders: seq<Forwarder>, reader: Reader)

  datatype Step =
    | Read(packet: Packet)
    | Look                 // the first lookup
    | Connected            // insert and spawn, under the write lock
    | ConnectFailed
    | Send                 // hand the packet to the forwarder, if it still listens
    | Break(f: nat)        // a forwarder leaves its loop: error, or timeout
    | Remove(f: nat)       // ... and removes its address from the map

  const Init := State(map[], [], Reading)

  function Lookup(s: State, a: Address): Option<nat> { if a in s.portMap then Some(s.portMap[a]) else None }

  predicate Enabled(s: State, step: Step) {
    match step
    case Read(_) => s.reader.Reading?
    case Look => s.reader.Looking?
    case Connected => s.reader.Connecting?
    case ConnectFailed => s.reader.Connecting?
    case Send => s.reader.Sending?
    case Break(f) => f < |s.forwarders| && s.forwarders[f].stage.Forwarding?
    case Remove(f) => f < |s.forwarders| && s.forwarders[f].stage.Leaving?
  }

  function Next(s: State, step: Step): State
    requires Enabled(s, step)
  {
    match step
    case Read(p) => s.(reader := Looking(p))
    case Look =>
      var p := s.reader.packet;
      s.(reader := if p.from in s.portMap then Sending(p, Lookup(s, p.from)) else Connecting(p))
    case Connected =>
      var p, f := s.reader.packet, |s.forwarders|;
      State(s.portMap[p.from := f], s.forwarders + [Forwarder(p.from, Forwarding, [])], Sending(p, Some(f)))
    case ConnectFailed => s.(reader := Sending(s.reader.packet, Lookup(s, s.reader.packet.from)))
    case Send =>
      (match s.reader.to
       case Some(f) =>
         if f < |s.forwarders| && s.forwarders[f].stage.Forwarding? then
           s.(reader := Reading,
              forwarders := s.forwarders[f := s.forwarders[f].(inbox := s.forwarders[f].inbox + [s.reader.packet])])
         else s.(reader := Reading)
       case None => s.(reader := Reading))
    case Break(f) => s.(forwarders := s.forwarders[f := s.forwarders[f].(stage := Leaving)])
    case Remove(f) =>
      s.(portMap := s.portMap - {s.forwarders[f].from},
         forwarders := s.forwarders[f := s.forwarders[f].(stage := Gone)])
  }

  /** The forwarder owns the entry for its address. */
  predicate Owns(s: State, f: nat) {
    f < |s.forwarders| && s.forwarders[f].from in s.portMap && s.portMap[s.forwarders[f].from] == f
  }

  /** The map and the forwarders that are not gone correspond one to one. */
  ghost predicate MapInv(s: State) {
    && (forall a :: a in s.portMap ==>
          s.portMap[a] < |s.forwarders| && s.forwarders[s.portMap[a]].from == a && !s.forwarders[s.portMap[a]].stage.Gone?)
    && (forall f: nat :: f < |s.forwarders| && !s.forwarders[f].stage.Gone? ==> Owns(s, f))
  }

  /** What the read loop holds fits the map, and packets are where they belong. */
  ghost predicate PacketInv(s: State) {
    && (s.reader.Connecting? ==> s.reader.packet.from !in s.portMap)
    && (s.reader.Sending? && s.reader.to.Some? ==>
          s.reader.to.value < |s.forwarders| && s.forwarders[s.reader.to.value].from == s.reader.packet.from)
    && (s.reader.Sending? && s.reader.packet.from in s.portMap ==> s.reader.to == Lookup(s, s.reader.packet.from))
    && (forall f: nat, k :: f < |s.forwarders| && 0 <= k < |s.forwarders[f].inbox| ==>
          s.forwarders[f].inbox[k].from == s.forwarders[f].from)
  }

  ghost predicate Inv(s: State) { MapInv(s) && PacketInv(s) }

  lemma KeepsMap(s: State, step: Step)
    requires MapInv(s) && PacketInv(s) && Enabled(s, step)
    ensures MapInv(Next(s, step))
  {
    var s' := Next(s, step);
    forall f: nat | f < |s'.forwarders| && !s'.forwarders[f].stage.Gone? ensures Owns(s', f) {
      assert f < |s.forwarders| ==> s'.forwarders[f].from == s.forwarders[f].from;
      assert f < |s.forwarders| ==> Owns(s, f);
      assert step.Remove? ==> Owns(s, step.f);
    }
  }

  lemma KeepsPackets(s: State, step: Step)
    requires MapInv(s) && PacketInv(s) && Enabled(s, step)
    ensures PacketInv(Next(s, step))
  {
  }

  lemma KeepsInv(s: State, step: Step)
    requires Inv(s) && Enabled(s, step)
    ensures Inv(Next(s, step))
  {
    KeepsMap(s, step);
    KeepsPackets(s, step);
  }

  /** Every reachable state satisfies the invariant. */
  lemma Reachable(run: seq<Step>, end: State)
    requires Leads(Enabled, Next, Init, run, end)
    ensures Inv(end)
  {
    forall s, step | Inv(s) && Enabled(s, step) ensures Inv(Next(s, step)) {
      KeepsInv(s, step);
    }
    Always(Enabled, Next, Inv, Init, run, end);
  }

  /**
   In every interleaving the map and the forwarders that have not removed themselves
   correspond one to one: no mapping outlives its forwarder, no forwarder is cut off,
   and a visitor has one forwarder at most.
   */
  lemma OneOwnerEach(run: seq<Step>, end: State)
    requires Leads(Enabled, Next, Init, run, end)
    ensures forall a :: a in end.portMap ==>
              && end.portMap[a] < |end.forwarders|
              && !end.forwarders[end.portMap[a]].stage.Gone?
              && end.forwarders[end.portMap[a]].from == a
    ensures forall f: nat :: f < |end.forwarders| && !end.forwarders[f].stage.Gone? ==> Owns(end, f)
    ensures forall f: nat, g: nat :: f < g < |end.forwarders| && end.forwarders[f].from == end.forwarders[g].from ==>
              end.forwarders[f].stage.Gone? || end.forwarders[g].stage.Gone?
  {
    Reachable(run, end);
    forall f: nat, g: nat | f < g < |end.forwarders| && end.forwarders[f].from == end.forwarders[g].from
      ensures end.forwarders[f].stage.Gone? || end.forwarders[g].stage.Gone?
    {
      assert !end.forwarders[f].stage.Gone? ==> Owns(end, f);
      assert !end.forwarders[g].stage.Gone? ==> Owns(end, g);
    }
  }

  /** Removal by address takes out the remover's own entry and no other. */
  lemma RemovesOnlyItsOwn(run: seq<Step>, end: State, f: nat)
    requires Leads(Enabled, Next, Init, run, end) && Enabled(end, Remove(f))
    ensures var after, a := Next(end, Remove(f)).portMap, end.forwarders[f].from;
            && Lookup(end, a) == Some(f) && a !in after
            && (forall b :: b != a ==> (b in after <==> b in end.portMap))
            && (forall b :: b in after ==> after[b] == end.portMap[b] && after[b] != f)
  {
    Reachable(run, end);
    assert Owns(end, f);
  }

  /** Despite the gap, an insertion never overwrites a mapping, and the new forwarder owns it. */
  lemma InsertionIsFresh(run: seq<Step>, end: State)
    requires Leads(Enabled, Next, Init, run, end) && Enabled(end, Connected)
    ensures end.reader.packet.from !in end.portMap
    ensures Owns(Next(end, Connected), |end.forwarders|)
    ensures forall b :: b in end.portMap ==>
              b in Next(end, Connected).portMap && Next(end, Connected).portMap[b] == end.portMap[b]
  {
    Reachable(run, end);
  }

  /** A visitor's packets only ever reach that visitor's forwarders. */
  lemma PacketsStayWithTheirVisitor(run: seq<Step>, end: State, f: nat, p: Packet)
    requires Leads(Enabled, Next, Init, run, end) && f < |end.forwarders| && p in end.forwarders[f].inbox
    ensures p.from == end.forwarders[f].from
  {
    Reachable(run, end);
  }

  predicate Listens(s: State, f: nat) { f < |s.forwarders| && s.forwarders[f].stage.Forwarding? }

  /** The packet reached the inbox of this forwarder, at its end, and no other inbox. */
  predicate ReachedOnly(s: State, s': State, f: nat, p: Packet) {
    && |s'.forwarders| == |s.forwarders| && f < |s.forwarders|
    && (forall g :: 0 <= g < |s.forwarders| ==>
          s'.forwarders[g].inbox == s.forwarders[g].inbox + if g == f then [p] else [])
  }

  /**
   Sending a packet hands it to the forwarder that is mapped to its address, if that
   one still listens, and to nobody else. It reaches nobody exactly if the one it was
   looked up for does not listen any more, or there was none.
   */
  lemma SendReaches(run: seq<Step>, end: State)
    requires Leads(Enabled, Next, Init, run, end) && Enabled(end, Send)
    ensures var p, to := end.reader.packet, end.reader.to;
            && (p.from in end.portMap && Listens(end, end.portMap[p.from]) ==>
                  ReachedOnly(end, Next(end, Send), end.portMap[p.from], p))
            && (to.Some? && Listens(end, to.value) ==> ReachedOnly(end, Next(end, Send), to.value, p))
            && (to.None? || !Listens(end, to.value) ==> Next(end, Send).forwarders == end.forwarders)
            && Next(end, Send).portMap == end.portMap && Next(end, Send).reader == Reading
  {
    Reachable(run, end);
  }

  /** The first packet of a visitor, if connecting works: a new forwarder, mapped to the visitor, has it. */
  lemma FirstPacket(run: seq<Step>, s: State, p: Packet)
    requires Leads(Enabled, Next, Init, run, s) && s.reader.Reading? && p.from !in s.portMap
    ensures var f := |s.forwarders|;
            var end := State(s.portMap[p.from := f], s.forwarders + [Forwarder(p.from, Forwarding, [p])], Reading);
            Leads(Enabled, Next, s, [Read(p), Look, Connected, Send], end)
  {
    var s1 := Next(s, Read(p));
    var s2 := Next(s1, Look);
    var s3 := Next(s2, Connected);
    var end := Next(s3, Send);
    assert s3.forwarders[|s.forwarders|] == Forwarder(p.from, Forwarding, []) && [] + [p] == [p];
    assert end.forwarders == s.forwarders + [Forwarder(p.from, Forwarding, [p])];
    assert Leads(Enabled, Next, s, [], s);
    LeadsFurther(Enabled, Next, s, [], s, Read(p));
    LeadsFurther(Enabled, Next, s, [] + [Read(p)], s1, Look);
    LeadsFurther(Enabled, Next, s, [] + [Read(p)] + [Look], s2, Connected);
    LeadsFurther(Enabled, Next, s, [] + [Read(p)] + [Look] + [Connected], s3, Send);
    assert [] + [Read(p)] + [Look] + [Connected] + [Send] == [Read(p), Look, Connected, Send];
  }

  /** A later packet of a visitor: the visitor's forwarder has it, after those before. */
  lemma NextPacket(run: seq<Step>, s: State, p: Packet)
    requires Leads(Enabled, Next, Init, run, s) && s.reader.Reading? && p.from in s.portMap
    requires Listens(s, s.portMap[p.from])
    ensures var f := s.portMap[p.from];
            var end := s.(forwarders := s.forwarders[f := s.forwarders[f].(inbox := s.forwarders[f].inbox + [p])]);
            Leads(Enabled, Next, s, [Read(p), Look, Send], end)
  {
    var s1 := Next(s, Read(p));
    var s2 := Next(s1, Look);
    assert Leads(Enabled, Next, s, [], s);
    LeadsFurther(Enabled, Next, s, [], s, Read(p));
    LeadsFurther(Enabled, Next, s, [] + [Read(p)], s1, Look);
    LeadsFurther(Enabled, Next, s, [] + [Read(p)] + [Look], s2, Send);
    assert [] + [Read(p)] + [Look] + [Send] == [Read(p), Look, Send];
  }

  /** A forwarder that leaves takes its mapping with it, so the visitor's next packet sets up another. */
  lemma ForwarderLeaves(run: seq<Step>, s: State, f: nat)
    requires Leads(Enabled, Next, Init, run, s) && Listens(s, f)
    ensures var end := s.(portMap := s.portMap - {s.forwarders[f].from},
                          forwarders := s.forwarders[f := s.forwarders[f].(stage := Gone)]);
            Leads(Enabled, Next, s, [Break(f), Remove(f)], end)
  {
    var s1 := Next(s, Break(f));
    assert Leads(Enabled, Next, s, [], s);
    LeadsFurther(Enabled, Next, s, [], s, Break(f));
    LeadsFurther(Enabled, Next, s, [] + [Break(f)], s1, Remove(f));
    assert [] + [Break(f)] + [Remove(f)] == [Break(f), Remove(f)];
    assert Next(s1, Remove(f)).forwarders == s.forwarders[f := s.forwarders[f].(stage := Gone)];
  }
}
