/** The OpenFlow switch agent of examples/flow_table as a step system: packets that miss the flow table wait for
    the controller, the controller's messages are answered, and a FLOW_MOD releases the packets of a flow.

    Three threads of control meet here as steps: the packet handler puts a packet on the ring, the secure channel
    reads from the controller, and it writes to it.  Histories record what a run has done so far. */
module SwitchAgent {
  import opened OpenFlow
  import opened Actions
  import FlowTable

  const OFP_VERSION: Octet := 1
  const OFPT_HELLO: Octet := 0
  const OFPT_ERROR: Octet := 1
  const OFPT_ECHO_REQUEST: Octet := 2
  const OFPT_ECHO_REPLY: Octet := 3
  const OFPT_VENDOR: Octet := 4
  const OFPT_FEATURES_REQUEST: Octet := 5
  const OFPT_FEATURES_REPLY: Octet := 6
  const OFPT_GET_CONFIG_REQUEST: Octet := 7
  const OFPT_GET_CONFIG_REPLY: Octet := 8
  const OFPT_SET_CONFIG: Octet := 9
  const OFPT_PACKET_IN: Octet := 10
  const OFPT_FLOW_MOD: Octet := 14
  const OFPT_STATS_REQUEST: Octet := 16
  const OFPT_STATS_REPLY: Octet := 17
  const OFPT_BARRIER_REQUEST: Octet := 18
  const OFPT_BARRIER_REPLY: Octet := 19
  const OFPST_DESC := 0
  const NO_BUFFER := 0xFFFF_FFFF
  const LISTS := 1024

  // ---------- Replies ----------

  function Zeros(n: nat): (z: seq<Octet>)
    ensures |z| == n
  {
    seq(n, i => 0)
  }

  // A text in a field of n bytes.
  function Text(s: string, n: nat): (t: seq<Octet>)
    ensures |t| == n
  {
    seq(n, i requires 0 <= i => if i < |s| then s[i] as int % 256 else 0)
  }

  function Header(kind: Octet, length: nat, xid: seq<Octet>): (h: seq<Octet>)
    requires |xid| == 4
    ensures |h| == HEADER_SIZE && MessageType(h) == kind && Xid(h) == xid && HeaderLength(h) == length % 0x1_0000
  {
    var h := [OFP_VERSION, kind] + Put16(length) + xid;
    assert h[2..4] == Put16(length) && h[4..8] == xid;
    h
  }

  // The header fields of a message with a given header.
  lemma HeaderFields(h: seq<Octet>, body: seq<Octet>)
    requires |h| == HEADER_SIZE
    ensures MessageType(h + body) == MessageType(h) && Xid(h + body) == Xid(h)
    ensures HeaderLength(h + body) == HeaderLength(h)
  {
    assert (h + body)[4..8] == h[4..8];
  }

  // The ports that make_features_reply always announces: four of them, 48 bytes each, after 16 bytes of switch
  // features.
  function Port(number: Octet, address: seq<Octet>, name: string): (p: seq<Octet>)
    requires |address| == 6
    ensures |p| == 48
  {
    [0, number] + address + Text(name, 16) + Zeros(8) + [0, 0, 0, 0xC0] + Zeros(12)
  }

  function FeaturesReply(id: nat, xid: seq<Octet>): seq<Octet>
    requires |xid| == 4
  {
    Header(OFPT_FEATURES_REPLY, 224, xid) + (Put32(id / 0x1_0000_0000) + Put32(id)) +
    [0, 0, 1, 0, 2, 0, 0, 0, 0, 0, 0, 0, 0, 0, 7, 0xFF] +
    Port(1, [0x1A, 0xC1, 0x51, 0xFF, 0xEF, 0x8A], "veth1") + Port(2, [0xCE, 0x2F, 0xA2, 0x87, 0xF6, 0x70], "veth3") +
    Port(3, [0xCA, 0x8A, 0x1E, 0xF3, 0x77, 0xEF], "veth5") + Port(4, [0xFA, 0xBC, 0x77, 0x8D, 0x7E, 0x0B], "veth7")
  }

  function EmptyReply(kind: Octet, xid: seq<Octet>): seq<Octet>
    requires |xid| == 4
  {
    Header(kind, 8, xid)
  }

  function VendorReply(xid: seq<Octet>): seq<Octet>
    requires |xid| == 4
  {
    Header(OFPT_ERROR, 12, xid) + [0, 1, 0, 3]
  }

  // The version, the statistics type and the xid are copied from the request.
  function StatsReply(m: seq<Octet>): seq<Octet>
    requires |m| >= 12
  {
    [m[0], OFPT_STATS_REPLY] + Put16(1068) + Xid(m) + m[8..10] + [0, 0] +
    Text("Cbench - controller I/O benchmark", 256) + Text("this is actually software...", 256) +
    Text("version 1", 256) + Text("none", 32) + Text("none", 256)
  }

  // The configuration is kept as the bytes of its reply.  Its first length field is in host order, low byte first.
  const INITIAL_CONFIG: seq<Octet> := [OFP_VERSION, OFPT_GET_CONFIG_REPLY, 12, 0, 0, 0, 0, 0, 0, 0, 0, 0]

  function ConfigReply(config: seq<Octet>, xid: seq<Octet>): (r: seq<Octet>)
    requires |config| == 12 && |xid| == 4
    ensures |r| == 12
  {
    [config[0], OFPT_GET_CONFIG_REPLY] + config[2..4] + xid + config[8..]
  }

  type Key = FlowTable.Key
  datatype Packet = Packet(id: nat, key: Key, port: nat, bytes: seq<Octet>)

  // The first 128 bytes of a packet.
  function Start128(p: Packet): (s: seq<Octet>)
    ensures |s| == 128
  {
    seq(128, i requires 0 <= i => if i < |p.bytes| then p.bytes[i] else 0)
  }

  // The data start two bytes before the end of the padded structure, so the message ends with two zero bytes.
  function PacketIn(xid: nat, buffer: nat, p: Packet): seq<Octet> {
    Header(OFPT_PACKET_IN, 148, Put32(xid)) + Put32(buffer) + Put16(148) + Put16(p.port) + [0, 0] + Start128(p) + [0, 0]
  }

  // ---------- The state ----------

  datatype PacketList = PacketList(entries: seq<Packet>, flag: bool, counter: int)

  const EMPTY_LIST := PacketList([], false, 0)

  datatype Event =
    | Dispatched(message: seq<Octet>)
    | Announced(buffer: nat, xid: nat)
    | Flushed(buffer: nat)

  datatype Agent = Agent(
    ring: seq<Packet>,
    table: map<Key, nat>,
    lists: seq<PacketList>,
    inbuf: seq<Octet>,
    outbuf: seq<Octet>,
    ready: bool,
    xid: nat,
    config: seq<Octet>,
    id: nat,
    chains: map<Key, seq<Entry>>,
    returned: seq<Packet>,
    // Histories
    accepted: seq<Packet>,
    received: seq<Octet>,
    pushed: seq<seq<Octet>>,
    sent: seq<Octet>,
    log: seq<Event>)

  function Push(s: Agent, m: seq<Octet>): Agent {
    s.(outbuf := s.outbuf + m, pushed := s.pushed + [m])
  }

  // datapath_init and the tables made in setup_securechannel.
  function Init(id: nat): Agent {
    Push(Agent([], map[], seq(LISTS, i => EMPTY_LIST), [], [], false, 1, INITIAL_CONFIG, id, map[], [], [], [], [], [], []),
         EmptyReply(OFPT_HELLO, Put32(1)))
  }

  // ---------- Messages from the controller ----------

  predicate IsDescRequest(m: seq<Octet>)
    requires |m| >= 12
  {
    Get16(m, 8) == OFPST_DESC
  }

  function BufferId(m: seq<Octet>): nat
    requires |m| >= 72
  {
    Get32(m, 64)
  }

  // A message with the length its type needs, and for a FLOW_MOD on a buffer, with a buffer that exists and a
  // well-formed action list.
  predicate Acceptable(m: seq<Octet>) {
    && SelfFramed(m)
    && (MessageType(m) == OFPT_SET_CONFIG || MessageType(m) == OFPT_STATS_REQUEST ==> |m| >= 12)
    && (MessageType(m) == OFPT_FLOW_MOD ==>
          |m| >= 72 && (BufferId(m) != NO_BUFFER ==> BufferId(m) < LISTS && WellFormed(m[72..])))
  }

  // flow_key_extract: the fields of the match at their offsets in the message.
  function MatchKey(m: seq<Octet>): Key
    requires |m| >= 72
  {
    FlowTable.Key.Key(Get32(m, 36), Get32(m, 40), Get16(m, 44), Get16(m, 46), m[33])
  }

  function Flush(s: Agent, b: nat): Agent
    requires b < |s.lists|
  {
    s.(returned := s.returned + s.lists[b].entries, lists := s.lists[b := EMPTY_LIST], log := s.log + [Flushed(b)])
  }

  // What one message does, once it is logged.
  function React(s: Agent, m: seq<Octet>): Agent
    requires Acceptable(m) && |s.lists| == LISTS && |s.config| == 12
  {
    var kind := MessageType(m);
    if kind == OFPT_HELLO then s.(ready := true)
    else if kind == OFPT_FEATURES_REQUEST then Push(s, FeaturesReply(s.id, Xid(m))).(ready := true)
    else if kind == OFPT_SET_CONFIG then s.(config := m[..12])
    else if kind == OFPT_GET_CONFIG_REQUEST then
      var c := ConfigReply(s.config, Xid(m));
      Push(s, c).(config := c)
    else if kind == OFPT_VENDOR then Push(s, VendorReply(Xid(m)))
    else if kind == OFPT_ECHO_REQUEST then Push(s, EmptyReply(OFPT_ECHO_REPLY, Xid(m)))
    else if kind == OFPT_BARRIER_REQUEST then Push(s, EmptyReply(OFPT_BARRIER_REPLY, Xid(m)))
    else if kind == OFPT_STATS_REQUEST then (if IsDescRequest(m) then Push(s, StatsReply(m)) else s)
    else if kind == OFPT_FLOW_MOD && BufferId(m) != NO_BUFFER then
      Flush(s.(chains := s.chains[MatchKey(m) := Extract(m[72..])]), BufferId(m))
    else s
  }

  function Handle(s: Agent, m: seq<Octet>): (t: Agent)
    requires Acceptable(m) && |s.lists| == LISTS && |s.config| == 12
    ensures |t.lists| == LISTS && |t.config| == 12
  {
    React(s.(log := s.log + [Dispatched(m)]), m)
  }

  function HandleAll(s: Agent, ms: seq<seq<Octet>>): (t: Agent)
    requires (forall m :: m in ms ==> Acceptable(m)) && |s.lists| == LISTS && |s.config| == 12
    ensures |t.lists| == LISTS && |t.config| == 12
    decreases |ms|
  {
    if ms == [] then s else HandleAll(Handle(s, ms[0]), ms[1..])
  }

  // ---------- Steps ----------

  // flow_table_miss: a full ring drops the packet.
  function Miss(s: Agent, p: Packet, full: bool): Agent {
    if full then s else s.(ring := s.ring + [p], accepted := s.accepted + [p])
  }

  predicate CanRead(s: Agent, chunk: seq<Octet>) {
    && Sound(s.inbuf + chunk)
    && forall m :: m in Frames(s.inbuf + chunk).messages ==> Acceptable(m)
  }

  // datapath_handle_read on the bytes one read delivers.
  function ReadChunk(s: Agent, chunk: seq<Octet>): Agent
    requires CanRead(s, chunk) && |s.lists| == LISTS && |s.config| == 12
  {
    var f := Frames(s.inbuf + chunk);
    HandleAll(s.(received := s.received + chunk, inbuf := f.rest), f.messages)
  }

  // The buffer of a flow: its own, or a free one for a new flow.
  predicate SlotFor(s: Agent, k: Key, slot: nat) {
    if k in s.table then s.table[k] == slot else slot < LISTS && slot !in s.table.Values
  }

  // The first packet of the ring joins the list of its flow, and is announced if it is the first there.
  function Enlist(s: Agent, slot: nat): Agent
    requires s.ring != [] && slot < |s.lists|
  {
    var p, list := s.ring[0], s.lists[slot];
    var added := PacketList(list.entries + [p], list.flag, list.counter + 1);
    var t := s.(ring := s.ring[1..], table := s.table[p.key := slot]);
    if list.flag then t.(lists := t.lists[slot := added])
    else
      Push(t, PacketIn(s.xid, slot, p)).(lists := t.lists[slot := added.(flag := true)], xid := s.xid + 1,
                                         log := s.log + [Announced(slot, s.xid)])
  }

  function Send(s: Agent, n: nat): Agent
    requires n <= |s.outbuf|
  {
    s.(sent := s.sent + s.outbuf[..n], outbuf := s.outbuf[n..])
  }

  // The packet part of datapath_handle_write happens only once the switch is ready.
  function TakePacket(s: Agent, slot: nat): Agent
    requires s.ready && s.ring != [] ==> slot < |s.lists|
  {
    if s.ready && s.ring != [] then Enlist(s, slot) else s
  }

  ghost predicate Step(s: Agent, t: Agent) {
    && |s.lists| == LISTS && |s.config| == 12
    && (MissStep(s, t) || ReadStep(s, t) || exists slot: nat, n: nat :: WriteStep(s, slot, n, t))
  }

  ghost predicate MissStep(s: Agent, t: Agent) {
    exists p, full :: t == Miss(s, p, full)
  }

  ghost predicate ReadStep(s: Agent, t: Agent)
    requires |s.lists| == LISTS && |s.config| == 12
  {
    exists chunk :: CanRead(s, chunk) && t == ReadChunk(s, chunk)
  }

  // Runs start in the initial state.
  ghost predicate Run(states: seq<Agent>) {
    && states != [] && (exists id: nat :: states[0] == Init(id))
    && forall i :: 0 <= i < |states| - 1 ==> Step(states[i], states[i + 1])
  }

  ghost predicate WriteStep(s: Agent, slot: nat, n: nat, t: Agent)
    requires |s.lists| == LISTS
  {
    && (s.ready && s.ring != [] ==> SlotFor(s, s.ring[0].key, slot) && slot < LISTS)
    && n <= |TakePacket(s, slot).outbuf|
    && t == Send(TakePacket(s, slot), n)
  }
}
