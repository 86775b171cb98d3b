/** What every run of the switch agent keeps. */
module SwitchAgentRuns {
  import opened OpenFlow
  import opened Actions
  import opened SwitchAgent

  // ---------- Packets: conservation and order, flow by flow ----------

  function ByKey(s: seq<Packet>, k: Key): seq<Packet> {
    if s == [] then []
    else
      var p := s[|s| - 1];
      ByKey(s[..|s| - 1], k) + (if p.key == k then [p] else [])
  }

  lemma {:induction false} ByKeyAppend(s: seq<Packet>, t: seq<Packet>, k: Key)
    ensures ByKey(s + t, k) == ByKey(s, k) + ByKey(t, k)
  {
    if t == [] {
      assert s + t == s;
    } else {
      var n := |t| - 1;
      assert (s + t)[..|s + t| - 1] == s + t[..n];
      ByKeyAppend(s, t[..n], k);
    }
  }

  lemma ByKeyOne(s: seq<Packet>, k: Key)
    ensures (forall p :: p in s ==> p.key == k) ==> ByKey(s, k) == s
    ensures (forall p :: p in s ==> p.key != k) ==> ByKey(s, k) == []
  {
    hide ByKey;
    if forall p :: p in s ==> p.key == k {
      ByKeyAll(s, k);
    }
    if forall p :: p in s ==> p.key != k {
      ByKeyNone(s, k);
    }
  }

  lemma {:induction false} ByKeyAll(s: seq<Packet>, k: Key)
    requires forall i :: 0 <= i < |s| ==> s[i].key == k
    ensures ByKey(s, k) == s
  {
    if s == [] {
    } else {
      var n := |s| - 1;
      ByKeyAll(s[..n], k);
      assert s == s[..n] + [s[n]];
    }
  }

  lemma {:induction false} ByKeyNone(s: seq<Packet>, k: Key)
    requires forall i :: 0 <= i < |s| ==> s[i].key != k
    ensures ByKey(s, k) == []
  {
    if s == [] {
    } else {
      ByKeyNone(s[..|s| - 1], k);
    }
  }

  // The packets of a flow that wait for the controller.
  function Waiting(s: Agent, k: Key): seq<Packet> {
    if k in s.table && s.table[k] < |s.lists| then s.lists[s.table[k]].entries else []
  }

  ghost predicate ListsKept(s: Agent) {
    && |s.lists| == LISTS && |s.config| == 12
    && (forall k :: k in s.table ==> s.table[k] < LISTS)
    && (forall j, k :: j in s.table && k in s.table && s.table[j] == s.table[k] ==> j == k)
    && (forall b :: 0 <= b < LISTS ==> ListKept(s, b))
  }

  // A flag is set exactly when its list is not empty, and a list holds packets of its own flow only.
  ghost predicate ListKept(s: Agent, b: nat)
    requires b < |s.lists|
  {
    var list := s.lists[b];
    && list.flag == (list.entries != [])
    && list.counter == |list.entries|
    && forall p :: p in list.entries ==> p.key in s.table && s.table[p.key] == b
  }

  // Each flow's accepted packets are, in order of arrival, those returned, those waiting and those on the ring.
  ghost predicate FlowKept(s: Agent, k: Key) {
    ByKey(s.accepted, k) == ByKey(s.returned, k) + Waiting(s, k) + ByKey(s.ring, k)
  }

  ghost predicate PacketsKept(s: Agent) {
    forall k :: FlowKept(s, k)
  }

  lemma MissKeepsPackets(s: Agent, p: Packet, full: bool)
    requires ListsKept(s) && PacketsKept(s)
    ensures ListsKept(Miss(s, p, full)) && PacketsKept(Miss(s, p, full))
  {
    hide ByKey;
    var t := Miss(s, p, full);
    if !full {
      forall b | 0 <= b < LISTS
        ensures ListKept(t, b)
      {
        assert ListKept(s, b);
      }
      forall k
        ensures FlowKept(t, k)
      {
        assert FlowKept(s, k);
        ByKeyAppend(s.accepted, [p], k);
        ByKeyAppend(s.ring, [p], k);
        assert Waiting(t, k) == Waiting(s, k);
      }
    }
  }

  // Of one flow, a flush returns all that waits or nothing.
  lemma FlushWaiting(s: Agent, b: nat, k: Key)
    requires ListsKept(s) && b < LISTS
    ensures Waiting(s, k) == ByKey(s.lists[b].entries, k) + Waiting(Flush(s, b), k)
  {
    var e := s.lists[b].entries;
    assert ListKept(s, b);
    ByKeyOne(e, k);
    hide ByKey;
    if k in s.table && s.table[k] == b {
      assert forall p :: p in e ==> p.key == k;
    } else {
      assert forall p :: p in e ==> p.key != k;
    }
  }

  lemma FlushKeepsFlow(s: Agent, b: nat, k: Key)
    requires ListsKept(s) && FlowKept(s, k) && b < LISTS
    ensures FlowKept(Flush(s, b), k)
  {
    ListsShape(s);
    hide ByKey, Waiting, ListsKept, ListKept;
    var t, e := Flush(s, b), s.lists[b].entries;
    ByKeyAppend(s.returned, e, k);
    FlushWaiting(s, b, k);
    Regroup(ByKey(s.returned, k), [], ByKey(e, k), Waiting(t, k));
    assert ByKey(s.returned, k) + [] == ByKey(s.returned, k) && [] + ByKey(e, k) == ByKey(e, k);
    assert t.accepted == s.accepted && t.ring == s.ring && t.returned == s.returned + e;
  }

  lemma FlushKeepsPackets(s: Agent, b: nat)
    requires ListsKept(s) && PacketsKept(s) && b < LISTS
    ensures ListsKept(Flush(s, b)) && PacketsKept(Flush(s, b))
  {
    var t := Flush(s, b);
    forall c | 0 <= c < LISTS
      ensures ListKept(t, c)
    {
      assert ListKept(s, c);
    }
    forall k
      ensures FlowKept(t, k)
    {
      assert FlowKept(s, k);
      FlushKeepsFlow(s, b, k);
    }
  }

  lemma EnlistKeepsTable(s: Agent, slot: nat)
    requires ListsKept(s) && s.ring != [] && SlotFor(s, s.ring[0].key, slot) && slot < LISTS
    ensures var t := Enlist(s, slot);
            && (forall k :: k in t.table ==> t.table[k] < LISTS)
            && (forall j, k :: j in t.table && k in t.table && t.table[j] == t.table[k] ==> j == k)
  {
    hide PacketIn;
    var p := s.ring[0];
    assert Enlist(s, slot).table == s.table[p.key := slot];
    assert p.key !in s.table ==> forall q :: q in s.table ==> s.table[q] in s.table.Values;
  }

  lemma EnlistKeepsList(s: Agent, slot: nat, b: nat)
    requires ListsKept(s) && s.ring != [] && SlotFor(s, s.ring[0].key, slot) && slot < LISTS && b < LISTS
    ensures ListKept(Enlist(s, slot), b)
  {
    hide PacketIn;
    var t, p := Enlist(s, slot), s.ring[0];
    assert ListKept(s, b);
    assert t.table == s.table[p.key := slot];
    if b == slot {
      assert t.lists[b].entries == s.lists[b].entries + [p];
    } else {
      assert t.lists[b] == s.lists[b];
      assert p.key in s.table ==> s.table[p.key] == slot;
    }
  }

  lemma EnlistWaiting(s: Agent, slot: nat, k: Key)
    requires ListsKept(s) && s.ring != [] && SlotFor(s, s.ring[0].key, slot) && slot < LISTS
    ensures var p := s.ring[0];
            Waiting(Enlist(s, slot), k) == Waiting(s, k) + (if k == p.key then [p] else [])
  {
    hide PacketIn, ListsKept;
    ListsShape(s);
    var t, p := Enlist(s, slot), s.ring[0];
    assert t.table == s.table[p.key := slot];
    if k == p.key {
      if k !in s.table {
        FreeSlotIsEmpty(s, slot);
      }
    } else if k in s.table {
      assert s.table[k] in s.table.Values;
      OtherSlot(s, slot, k);
    }
  }

  lemma OtherSlot(s: Agent, slot: nat, k: Key)
    requires ListsKept(s) && s.ring != [] && SlotFor(s, s.ring[0].key, slot)
    requires k in s.table && k != s.ring[0].key
    ensures s.table[k] != slot
  {
    assert s.table[k] in s.table.Values;
  }

  lemma EnlistKeepsFlow(s: Agent, slot: nat, k: Key)
    requires ListsKept(s) && FlowKept(s, k)
    requires s.ring != [] && SlotFor(s, s.ring[0].key, slot) && slot < LISTS
    ensures FlowKept(Enlist(s, slot), k)
  {
    hide PacketIn, ListsKept, Waiting, ListKept;
    ListsShape(s);
    var t, p := Enlist(s, slot), s.ring[0];
    assert s.ring == [p] + s.ring[1..];
    ByKeyAppend([p], s.ring[1..], k);
    ByKeyOne([p], k);
    hide ByKey;
    EnlistWaiting(s, slot, k);
    assert t.accepted == s.accepted && t.returned == s.returned && t.ring == s.ring[1..];
    Regroup(ByKey(s.returned, k), Waiting(s, k), if k == p.key then [p] else [], ByKey(s.ring[1..], k));
  }

  lemma Regroup(r: seq<Packet>, w: seq<Packet>, x: seq<Packet>, y: seq<Packet>)
    ensures r + w + (x + y) == r + (w + x) + y
  {
  }

  lemma EnlistKeepsPackets(s: Agent, slot: nat)
    requires ListsKept(s) && PacketsKept(s)
    requires s.ring != [] && SlotFor(s, s.ring[0].key, slot) && slot < LISTS
    ensures ListsKept(Enlist(s, slot)) && PacketsKept(Enlist(s, slot))
  {
    EnlistKeepsTable(s, slot);
    hide PacketIn, FlowKept, ListKept;
    var t := Enlist(s, slot);
    forall b | 0 <= b < LISTS
      ensures ListKept(t, b)
    {
      EnlistKeepsList(s, slot, b);
    }
    forall k
      ensures FlowKept(t, k)
    {
      assert FlowKept(s, k);
      EnlistKeepsFlow(s, slot, k);
    }
  }

  lemma OccupiedSlotIsTaken(s: Agent, slot: nat)
    requires ListsKept(s) && slot < LISTS && s.lists[slot].entries != []
    ensures slot in s.table.Values
  {
    var p := s.lists[slot].entries[0];
    assert ListKept(s, slot) && p in s.lists[slot].entries;
    assert s.table[p.key] in s.table.Values;
  }

  lemma FreeSlotIsEmpty(s: Agent, slot: nat)
    requires ListsKept(s) && slot < LISTS && slot !in s.table.Values
    ensures s.lists[slot].entries == []
  {
    if s.lists[slot].entries != [] {
      OccupiedSlotIsTaken(s, slot);
    }
  }

  // The rest of the state plays no part in it.
  lemma SamePackets(s: Agent, t: Agent)
    requires ListsKept(s) && PacketsKept(s) && |t.config| == 12
    requires t.table == s.table && t.lists == s.lists && t.ring == s.ring
    requires t.accepted == s.accepted && t.returned == s.returned
    ensures ListsKept(t) && PacketsKept(t)
  {
    forall b | 0 <= b < LISTS
      ensures ListKept(t, b)
    {
      assert ListKept(s, b);
    }
    forall k
      ensures FlowKept(t, k)
    {
      assert FlowKept(s, k);
    }
  }

  lemma HandleKeepsPackets(s: Agent, m: seq<Octet>)
    requires ListsKept(s) && PacketsKept(s) && Acceptable(m)
    ensures ListsKept(Handle(s, m)) && PacketsKept(Handle(s, m))
  {
    hide FeaturesReply, VendorReply, EmptyReply, StatsReply, ConfigReply, Extract, MatchKey, Acceptable, IsDescRequest;
    hide ListsKept, PacketsKept;
    var t := s.(log := s.log + [Dispatched(m)]);
    assert |s.lists| == LISTS && |s.config| == 12 by { ListsShape(s); }
    assert |m| >= HEADER_SIZE by { FlowModParts(m); }
    if MessageType(m) == OFPT_FLOW_MOD && |m| >= 72 && BufferId(m) != NO_BUFFER {
      assert BufferId(m) < LISTS && WellFormed(m[72..]) by { FlowModParts(m); }
      var u := t.(chains := t.chains[MatchKey(m) := Extract(m[72..])]);
      SamePackets(s, u);
      FlushKeepsPackets(u, BufferId(m));
    } else {
      assert MessageType(m) == OFPT_FLOW_MOD ==> |m| >= 72 by { FlowModParts(m); }
      SamePackets(s, Handle(s, m));
    }
  }

  lemma ListsShape(s: Agent)
    requires ListsKept(s)
    ensures |s.lists| == LISTS && |s.config| == 12
  {
  }

  lemma FlowModParts(m: seq<Octet>)
    requires Acceptable(m)
    ensures |m| >= HEADER_SIZE
    ensures MessageType(m) == OFPT_FLOW_MOD ==>
              |m| >= 72 && (BufferId(m) != NO_BUFFER ==> BufferId(m) < LISTS && WellFormed(m[72..]))
  {
  }

  // ---------- The stream from the controller ----------

  // The messages dispatched so far.
  function Messages(log: seq<Event>): seq<seq<Octet>> {
    if log == [] then []
    else
      var e := log[|log| - 1];
      Messages(log[..|log| - 1]) + (if e.Dispatched? then [e.message] else [])
  }

  lemma MessagesSnoc(log: seq<Event>, e: Event)
    ensures Messages(log + [e]) == Messages(log) + (if e.Dispatched? then [e.message] else [])
  {
    assert (log + [e])[..|log|] == log;
  }

  // Whatever the reads were, and whatever came between them, the messages dispatched are the division of all
  // bytes received, and the buffer holds what is left.
  ghost predicate StreamKept(s: Agent) {
    Sound(s.received) && Frames(s.received) == Framing(Messages(s.log), s.inbuf)
  }

  lemma {:induction false} SoundExtends(a: seq<Octet>, b: seq<Octet>)
    requires Sound(a) && Sound(Frames(a).rest + b)
    ensures Sound(a + b)
    decreases |a|
  {
    hide HeaderLength, Frames, Sound;
    if Whole(a) {
      var n := HeaderLength(a);
      HeaderOfPrefix(a, b);
      FramesStep(a);
      FramesStep(a + b);
      assert (a + b)[n..] == a[n..] + b;
      SoundExtends(a[n..], b);
    } else {
      FramesEnd(a);
    }
  }

  lemma HandleMessages(s: Agent, m: seq<Octet>)
    requires Acceptable(m) && |s.lists| == LISTS && |s.config| == 12
    ensures Messages(Handle(s, m).log) == Messages(s.log) + [m]
    ensures Handle(s, m).inbuf == s.inbuf && Handle(s, m).received == s.received
  {
    hide FeaturesReply, VendorReply, EmptyReply, StatsReply, ConfigReply, Extract, MatchKey, Messages;
    var log := s.log + [Dispatched(m)];
    MessagesSnoc(s.log, Dispatched(m));
    if MessageType(m) == OFPT_FLOW_MOD && BufferId(m) != NO_BUFFER {
      MessagesSnoc(log, Flushed(BufferId(m)));
    }
  }

  lemma {:induction false} HandleAllMessages(s: Agent, ms: seq<seq<Octet>>)
    requires (forall m :: m in ms ==> Acceptable(m)) && |s.lists| == LISTS && |s.config| == 12
    ensures var t := HandleAll(s, ms);
            Messages(t.log) == Messages(s.log) + ms && t.inbuf == s.inbuf && t.received == s.received
    decreases |ms|
  {
    hide Handle, Acceptable;
    if ms == [] {
    } else {
      HandleMessages(s, ms[0]);
      HandleAllMessages(Handle(s, ms[0]), ms[1..]);
      assert ms == [ms[0]] + ms[1..];
      assert Messages(s.log) + ([ms[0]] + ms[1..]) == (Messages(s.log) + [ms[0]]) + ms[1..];
    }
  }

  lemma ReadKeepsStream(s: Agent, chunk: seq<Octet>)
    requires StreamKept(s) && CanRead(s, chunk) && |s.lists| == LISTS && |s.config| == 12
    ensures StreamKept(ReadChunk(s, chunk)) && ReadChunk(s, chunk).received == s.received + chunk
  {
    hide HandleAll, Frames, Sound, Acceptable;
    var f := Frames(s.inbuf + chunk);
    HandleAllMessages(s.(received := s.received + chunk, inbuf := f.rest), f.messages);
    SoundExtends(s.received, chunk);
    FramesAppend(s.received, chunk);
  }

  // ---------- The stream to the controller ----------

  // The bytes sent are a prefix of all messages pushed, in order; the rest is in the buffer.
  ghost predicate OutputKept(s: Agent) {
    s.sent + s.outbuf == Flatten(s.pushed)
  }

  lemma PushKeepsOutput(s: Agent, m: seq<Octet>)
    requires OutputKept(s)
    ensures OutputKept(Push(s, m))
  {
    FlattenAppend(s.pushed, [m]);
    assert [m][1..] == [] && Flatten([m]) == m + [] == m;
    assert s.sent + (s.outbuf + m) == (s.sent + s.outbuf) + m;
  }

  lemma SendKeepsOutput(s: Agent, n: nat)
    requires OutputKept(s) && n <= |s.outbuf|
    ensures OutputKept(Send(s, n))
  {
    assert s.outbuf == s.outbuf[..n] + s.outbuf[n..];
  }

  lemma HandleKeepsOutput(s: Agent, m: seq<Octet>)
    requires OutputKept(s) && Acceptable(m) && |s.lists| == LISTS && |s.config| == 12
    ensures OutputKept(Handle(s, m))
  {
    hide FeaturesReply, VendorReply, EmptyReply, StatsReply, ConfigReply, Extract, MatchKey, Flatten;
    var t, r := s.(log := s.log + [Dispatched(m)]), Reply(s, m);
    if r != [] {
      PushKeepsOutput(t, r[0]);
    }
  }

  // The answer to a message, if it has one.
  function Reply(s: Agent, m: seq<Octet>): seq<seq<Octet>>
    requires Acceptable(m) && |s.config| == 12
  {
    var kind, xid := MessageType(m), Xid(m);
    if kind == OFPT_FEATURES_REQUEST then [FeaturesReply(s.id, xid)]
    else if kind == OFPT_GET_CONFIG_REQUEST then [ConfigReply(s.config, xid)]
    else if kind == OFPT_VENDOR then [VendorReply(xid)]
    else if kind == OFPT_ECHO_REQUEST then [EmptyReply(OFPT_ECHO_REPLY, xid)]
    else if kind == OFPT_BARRIER_REQUEST then [EmptyReply(OFPT_BARRIER_REPLY, xid)]
    else if kind == OFPT_STATS_REQUEST && IsDescRequest(m) then [StatsReply(m)]
    else []
  }
}
