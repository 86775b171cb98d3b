/** The messages of the switch agent byte by byte, and the way of a packet whose flow the controller sets up. */
module SwitchAgentAnswers {
  import opened OpenFlow
  import opened Actions
  import opened SwitchAgent
  import opened SwitchAgentMemory

  // ---------- Replies ----------

  // A port: number, address and name, and further state and features.
  function PortOnWire(number: Octet, address: seq<Octet>, digit: Octet): (f: seq<Octet>) {
    [0x00, number] + address + [0x76, 0x65, 0x74, 0x68, digit, 0x00, 0x00, 0x00] +
    [0x00, 0x00, 0x00, 0x00, 0x00, 0x00, 0x00, 0x00, 0x00, 0x00, 0x00, 0x00, 0x00, 0x00, 0x00, 0x00,
     0x00, 0x00, 0x00, 0xC0, 0x00, 0x00, 0x00, 0x00, 0x00, 0x00, 0x00, 0x00, 0x00, 0x00, 0x00, 0x00]
  }

  // The features of the switch and of its four ports.
  function FeaturesOnWire(id: nat, xid: seq<Octet>): (f: seq<Octet>) {
    [0x01, 0x06, 0x00, 0xE0] + xid + Bytes64(id) +
    [0x00, 0x00, 0x01, 0x00, 0x02, 0x00, 0x00, 0x00, 0x00, 0x00, 0x00, 0x00, 0x00, 0x00, 0x07, 0xFF] +
    PortOnWire(1, [0x1A, 0xC1, 0x51, 0xFF, 0xEF, 0x8A], 0x31) + PortOnWire(2, [0xCE, 0x2F, 0xA2, 0x87, 0xF6, 0x70], 0x33) +
    PortOnWire(3, [0xCA, 0x8A, 0x1E, 0xF3, 0x77, 0xEF], 0x35) + PortOnWire(4, [0xFA, 0xBC, 0x77, 0x8D, 0x7E, 0x0B], 0x37)
  }

  // A number in eight bytes, high byte first.
  function Bytes64(v: nat): (b: seq<Octet>) {
    Bytes32(v / 0x1_0000_0000) + Bytes32(v)
  }

  lemma PortBytes(number: Octet, address: seq<Octet>, name: string, digit: Octet)
    requires |address| == 6 && |name| == 5 && name[4] as int == digit
    requires name[0] == 'v' && name[1] == 'e' && name[2] == 't' && name[3] == 'h'
    ensures Port(number, address, name) == PortOnWire(number, address, digit)
  {
    assert Text(name, 16) == [0x76, 0x65, 0x74, 0x68, digit, 0, 0, 0] + [0, 0, 0, 0, 0, 0, 0, 0];
  }

  lemma FeaturesBytes(id: nat, xid: seq<Octet>)
    requires |xid| == 4
    ensures FeaturesReply(id, xid) == FeaturesOnWire(id, xid)
  {
    hide Port, PortOnWire, Put32, Bytes32, Header;
    Put32Bytes(id / 0x1_0000_0000);
    Put32Bytes(id);
    HeaderBytes(OFPT_FEATURES_REPLY, 224, xid);
    PortBytes(1, [0x1A, 0xC1, 0x51, 0xFF, 0xEF, 0x8A], "veth1", 0x31);
    PortBytes(2, [0xCE, 0x2F, 0xA2, 0x87, 0xF6, 0x70], "veth3", 0x33);
    PortBytes(3, [0xCA, 0x8A, 0x1E, 0xF3, 0x77, 0xEF], "veth5", 0x35);
    PortBytes(4, [0xFA, 0xBC, 0x77, 0x8D, 0x7E, 0x0B], "veth7", 0x37);
  }

  lemma HeaderBytes(kind: Octet, length: nat, xid: seq<Octet>)
    requires |xid| == 4 && length < 0x1_0000
    ensures Header(kind, length, xid) == [1, kind, length / 256, length % 256] + xid
  {
  }

  // A text and the zero that ends it.
  ghost predicate HasText(r: seq<Octet>, at: nat, s: string) {
    at + |s| < |r| && r[at + |s|] == 0 && forall j :: 0 <= j < |s| ==> r[at + j] == s[j] as int % 256
  }

  ghost predicate IsDescription(r: seq<Octet>) {
    && |r| == 1068
    && HasText(r, 12, "Cbench - controller I/O benchmark") && HasText(r, 268, "this is actually software...")
    && HasText(r, 524, "version 1") && HasText(r, 780, "none") && HasText(r, 812, "none")
  }

  lemma DescriptionBytes(m: seq<Octet>)
    requires |m| >= 12 && m[8..10] == [0, 0]
    ensures var r := StatsReply(m); IsDescription(r) && r[..12] == [m[0], 17, 4, 44] + m[4..8] + [0, 0, 0, 0]
  {
  }

  /** Every message is answered by these bytes with its transaction id, and no other message is answered; a HELLO and a
      request for the features make the switch ready. */
  lemma AnswersInBytes(s: Agent, m: seq<Octet>)
    requires Acceptable(m) && |s.lists| == LISTS && |s.config| == 12
    ensures var t := Handle(s, m);
            && (m[1] == 2 ==> t.pushed == s.pushed + [[1, 3, 0, 8] + m[4..8]])
            && (m[1] == 18 ==> t.pushed == s.pushed + [[1, 19, 0, 8] + m[4..8]])
            && (m[1] == 4 ==> t.pushed == s.pushed + [[1, 1, 0, 12] + m[4..8] + [0, 1, 0, 3]])
            && (m[1] == 5 ==> t.pushed == s.pushed + [FeaturesOnWire(s.id, m[4..8])])
            && (m[1] == 16 && m[8..10] == [0, 0] ==>
                  exists r :: && t.pushed == s.pushed + [r] && IsDescription(r)
                              && r[..12] == [m[0], 17, 4, 44] + m[4..8] + [0, 0, 0, 0])
            && (m[1] !in {2, 4, 5, 7, 18} && !(m[1] == 16 && m[8..10] == [0, 0]) ==> t.pushed == s.pushed)
            && (t.ready <==> s.ready || m[1] == 0 || m[1] == 5)
  {
    hide FeaturesReply, FeaturesOnWire, VendorReply, StatsReply, ConfigReply, EmptyReply, IsDescription;
    hide WellFormed, Extract, MatchKey;
    FeaturesBytes(s.id, Xid(m));
    ShortBytes(Xid(m));
    if m[1] == 16 {
      DescRequestBytes(m);
      if IsDescRequest(m) {
        DescriptionBytes(m);
      }
    }
  }

  lemma ShortBytes(xid: seq<Octet>)
    requires |xid| == 4
    ensures EmptyReply(OFPT_ECHO_REPLY, xid) == [1, 3, 0, 8] + xid
    ensures EmptyReply(OFPT_BARRIER_REPLY, xid) == [1, 19, 0, 8] + xid
    ensures VendorReply(xid) == [1, 1, 0, 12] + xid + [0, 1, 0, 3]
  {
  }

  lemma DescRequestBytes(m: seq<Octet>)
    requires |m| >= 12
    ensures IsDescRequest(m) <==> m[8..10] == [0, 0]
  {
  }

  // ---------- Announcements ----------

  /** A PACKET_IN names the buffer and the port, gives no match as its reason, and carries the first 128 bytes. */
  lemma PacketInBytes(xid: nat, buffer: nat, p: Packet)
    ensures var r := PacketIn(xid, buffer, p);
            && |r| == 148 && r[..4] == [1, 10, 0, 148] && r[4..8] == Bytes32(xid) && r[8..12] == Bytes32(buffer)
            && r[12..14] == [0, 148] && r[14..16] == [p.port / 256 % 256, p.port % 256] && r[16..18] == [0, 0]
            && (|p.bytes| >= 128 ==> r[18..146] == p.bytes[..128]) && r[146..] == [0, 0]
  {
    hide Put32, Put16, Bytes32, Header, Start128;
    HeaderBytes(OFPT_PACKET_IN, 148, Put32(xid));
    Put32Bytes(xid);
    Put32Bytes(buffer);
    Put16Bytes(148);
    Put16Bytes(p.port);
    StartBytes(p);
  }

  lemma StartBytes(p: Packet)
    ensures |p.bytes| >= 128 ==> Start128(p) == p.bytes[..128]
  {
  }

  // ---------- Setting up a flow ----------

  // A FLOW_MOD for a flow, with a buffer that exists and a list of actions.
  ghost predicate SetsUp(m: seq<Octet>, k: Key, b: nat, list: seq<Action>) {
    && Installs(m, k) && |m| == 72 + |EncodeAll(list)| && Word(0, 0, m[2], m[3]) == |m|
    && b < 1024 && Word(m[64], m[65], m[66], m[67]) == b
    && m[72..] == EncodeAll(list) && forall a :: a in list ==> ActionOk(a)
  }

  lemma FlowModFields(m: seq<Octet>, k: Key, b: nat, list: seq<Action>)
    requires SetsUp(m, k, b, list)
    ensures Acceptable(m) && MessageType(m) == OFPT_FLOW_MOD && |m| >= 72 && BufferId(m) == b && MatchKey(m) == k
    ensures Extract(m[72..]) == if list == [] then [Drop] else EntriesOf(list)
  {
    hide Extract, WellFormed, EncodeAll, EntriesOf, ActionOk, MatchKey, Installs;
    assert |m| >= 72 by { InstallsLength(m, k); }
    InstallsItsKey(m, k);
    ExtractOfEncoded(list);
  }

  lemma InstallsLength(m: seq<Octet>, k: Key)
    ensures Installs(m, k) ==> |m| >= 72
  {
  }

  /** A FLOW_MOD enters its flow with the chain of its actions, or one that drops, and the packets of its buffer go back
      in order; other flows and other buffers are left alone. */
  lemma FlowModSetsUp(s: Agent, m: seq<Octet>, k: Key, b: nat, list: seq<Action>)
    requires SetsUp(m, k, b, list) && |s.lists| == LISTS && |s.config| == 12
    ensures Acceptable(m)
    ensures var t := Handle(s, m);
            && t.chains == s.chains[k := if list == [] then [Drop] else EntriesOf(list)]
            && t.returned == s.returned + s.lists[b].entries
            && t.lists == s.lists[b := PacketList([], false, 0)]
            && t.ring == s.ring && t.pushed == s.pushed && t.table == s.table
  {
    FlowModFields(m, k, b, list);
    hide SetsUp, Extract, Acceptable, MatchKey, Handle, Installs, EncodeAll, EntriesOf;
    FlowModEffect(s, m);
  }

  lemma FlowModEffect(s: Agent, m: seq<Octet>)
    requires Acceptable(m) && |s.lists| == LISTS && |s.config| == 12
    requires MessageType(m) == OFPT_FLOW_MOD && |m| >= 72 && BufferId(m) < LISTS
    ensures WellFormed(m[72..])
    ensures var t, b := Handle(s, m), BufferId(m);
            && t.chains == s.chains[MatchKey(m) := Extract(m[72..])]
            && t.returned == s.returned + s.lists[b].entries && t.lists == s.lists[b := EMPTY_LIST]
            && t.ring == s.ring && t.pushed == s.pushed && t.table == s.table
  {
    hide Extract, MatchKey, WellFormed, FeaturesReply, VendorReply, StatsReply, ConfigReply, EmptyReply;
  }

  lemma OneMessage(m: seq<Octet>)
    requires Acceptable(m)
    ensures Sound(m) && Frames(m) == Framing([m], [])
  {
    hide WellFormed;
    assert m[|m|..] == [] && m[..|m|] == m;
    FramesStep(m);
    FramesEnd([]);
    assert [m] + [] == [m];
  }

  // Reading one message into an empty buffer.
  lemma ReadOne(s: Agent, m: seq<Octet>)
    requires Acceptable(m) && s.inbuf == [] && |s.lists| == LISTS && |s.config| == 12
    ensures CanRead(s, m) && ReadStep(s, ReadChunk(s, m))
    ensures ReadChunk(s, m) == Handle(s.(received := s.received + m), m)
  {
    hide Acceptable, Handle, Frames, Sound;
    OneMessage(m);
    assert [] + m == m;
    assert s.(received := s.received + m, inbuf := []) == s.(received := s.received + m);
    assert HandleAll(s.(received := s.received + m), [m]) == Handle(s.(received := s.received + m), m);
  }

  /** The way of a packet of a new flow, in three steps: it misses; it is put into a free buffer and announced by one
      PACKET_IN; the FLOW_MOD for the buffer brings it back and frees the buffer. */
  lemma NewFlowIsSetUp(s: Agent, p: Packet, slot: nat, m: seq<Octet>, list: seq<Action>)
    requires |s.lists| == LISTS && |s.config| == 12 && s.ready && s.ring == [] && s.inbuf == []
    requires p.key !in s.table && slot !in s.table.Values && slot < LISTS && s.lists[slot] == PacketList([], false, 0)
    requires SetsUp(m, p.key, slot, list)
    ensures var missed := Miss(s, p, false);
            var waits := TakePacket(missed, slot);
            && MissStep(s, missed) && WriteStep(missed, slot, 0, waits) && Miss(s, p, true) == s
            && waits.lists == s.lists[slot := PacketList([p], true, 1)] && waits.table == s.table[p.key := slot]
            && waits.pushed == s.pushed + [PacketIn(s.xid, slot, p)] && waits.ring == []
            && waits.accepted == s.accepted + [p] && waits.chains == s.chains
            && CanRead(waits, m)
            && var t := ReadChunk(waits, m);
               && ReadStep(waits, t) && t.returned == s.returned + [p] && t.lists == s.lists && t.ring == []
               && t.chains == s.chains[p.key := if list == [] then [Drop] else EntriesOf(list)]
  {
    hide SetsUp, Handle, PacketIn, EntriesOf, CanRead, ReadChunk, ReadStep, TakePacket;
    var missed := Miss(s, p, false);
    var waits := TakePacket(missed, slot);
    TakesTheOne(s, p, slot);
    var before := waits.(received := waits.received + m);
    FlowModSetsUp(before, m, p.key, slot, list);
    ReadOne(waits, m);
    assert waits.lists[slot].entries == [p];
    assert s.lists[slot := PacketList([p], true, 1)][slot := EMPTY_LIST] == s.lists;
  }

  lemma TakesTheOne(s: Agent, p: Packet, slot: nat)
    requires |s.lists| == LISTS && |s.config| == 12 && s.ready && s.ring == []
    requires p.key !in s.table && slot !in s.table.Values && slot < LISTS && s.lists[slot] == PacketList([], false, 0)
    ensures var missed := Miss(s, p, false);
            var waits := TakePacket(missed, slot);
            && MissStep(s, missed) && WriteStep(missed, slot, 0, waits)
            && waits.lists == s.lists[slot := PacketList([p], true, 1)] && waits.table == s.table[p.key := slot]
            && waits.pushed == s.pushed + [PacketIn(s.xid, slot, p)] && waits.ring == []
            && waits.accepted == s.accepted + [p] && waits.chains == s.chains
            && waits.inbuf == s.inbuf && waits.returned == s.returned && waits.config == s.config
  {
    hide PacketIn;
    var missed := Miss(s, p, false);
    assert missed == s.(ring := [p], accepted := s.accepted + [p]);
    var waits := TakePacket(missed, slot);
    assert waits.sent + waits.outbuf[..0] == waits.sent && waits.outbuf[0..] == waits.outbuf;
    assert Send(waits, 0) == waits;
  }
}
