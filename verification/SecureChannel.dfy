/** The secure channel of examples/flow_table/sdn.c as a class over two message buffers: datapath_handle_read and
    datapath_handle_write, proved to take the steps of the switch agent. */
module SecureChannel {
  import opened OpenFlow
  import opened Actions
  import opened SwitchAgent
  import opened Msgbuf
  import opened SdnPktList

  // A message acts on the rest of the state only; the cases are those of the switch.
  lemma ReactIgnoresInbuf(s: Agent, m: seq<Octet>, rest: seq<Octet>)
    requires Acceptable(m) && |s.lists| == LISTS && |s.config| == 12
    ensures React(s.(inbuf := rest), m) == React(s, m).(inbuf := rest)
  {
    hide FeaturesReply, VendorReply, EmptyReply, StatsReply, ConfigReply, Extract, MatchKey;
    var kind, t := MessageType(m), s.(inbuf := rest);
    if kind == OFPT_FLOW_MOD {
      if BufferId(m) != NO_BUFFER {
        assert React(t, m) == Flush(t.(chains := t.chains[MatchKey(m) := Extract(m[72..])]), BufferId(m));
      }
    } else if kind == OFPT_GET_CONFIG_REQUEST {
      assert React(t, m) == Push(t, ConfigReply(s.config, Xid(m))).(config := ConfigReply(s.config, Xid(m)));
    } else if kind == OFPT_SET_CONFIG {
      assert React(t, m) == t.(config := m[..12]);
    } else if kind == OFPT_STATS_REQUEST {
      assert React(t, m) == if IsDescRequest(m) then Push(t, StatsReply(m)) else t;
    }
  }

  lemma HandleIgnoresInbuf(s: Agent, m: seq<Octet>, rest: seq<Octet>)
    requires Acceptable(m) && |s.lists| == LISTS && |s.config| == 12
    ensures Handle(s.(inbuf := rest), m) == Handle(s, m).(inbuf := rest)
  {
    hide React, Acceptable;
    ReactIgnoresInbuf(s.(log := s.log + [Dispatched(m)]), m, rest);
    assert s.(inbuf := rest).(log := s.log + [Dispatched(m)]) == s.(log := s.log + [Dispatched(m)]).(inbuf := rest);
  }

  class Datapath {
    const id: nat
    const inbuf: Buffer
    const outbuf: Buffer
    const buffers: PacketBuffers
    var ready: bool
    var xid: nat
    var config: seq<Octet>
    // The ring, the keys of the packet buffer table, the flow directory, and the packets handed back.
    var ring: seq<Packet>
    var table: map<Key, nat>
    var chains: map<Key, seq<Entry>>
    var returned: seq<Packet>
    ghost var accepted: seq<Packet>
    ghost var received: seq<Octet>
    ghost var pushed: seq<seq<Octet>>
    ghost var sent: seq<Octet>
    ghost var log: seq<Event>

    ghost predicate Valid()
      reads this, inbuf, outbuf, buffers, buffers.lists, buffers.repr
    {
      && inbuf.Valid() && outbuf.Valid() && inbuf != outbuf && inbuf.buf != outbuf.buf
      && inbuf.end < inbuf.len
      && buffers.Valid() && |config| == 12
    }

    ghost function View(): Agent
      requires Valid()
      reads this, inbuf, inbuf.buf, outbuf, outbuf.buf, buffers, buffers.lists, buffers.repr
    {
      Agent(ring, table, buffers.View(), inbuf.Contents(), outbuf.Contents(), ready, xid, config, id, chains, returned,
            accepted, received, pushed, sent, log)
    }

    constructor (bufsize: nat, id: nat)
      requires bufsize > 0
      ensures Valid() && fresh(inbuf) && fresh(inbuf.buf) && fresh(outbuf) && fresh(outbuf.buf)
      ensures View() == Init(id)
    {
      hide Buffer.Valid, Buffer.Contents, PacketBuffers.Valid, PacketBuffers.View, EmptyReply;
      this.id := id;
      inbuf := new Buffer(bufsize);
      outbuf := new Buffer(bufsize);
      ready, xid, config := false, 1, INITIAL_CONFIG;
      buffers := new PacketBuffers();
      ring, table, chains, returned := [], map[], map[], [];
      accepted, received, pushed, sent, log := [], [], [], [], [];
      new;
      PushMessage(EmptyReply(OFPT_HELLO, Put32(1)));
    }

    method PushMessage(m: seq<Octet>)
      requires Valid()
      modifies this`pushed, outbuf, outbuf.buf
      ensures Valid() && (outbuf.buf == old(outbuf.buf) || fresh(outbuf.buf))
      ensures View() == Push(old(View()), m)
    {
      hide Buffer.Valid, Buffer.Contents, PacketBuffers.Valid, PacketBuffers.View;
      outbuf.Push(m);
      pushed := pushed + [m];
    }

    // flow_table_miss; the ring says whether it is full.
    method FlowTableMiss(p: Packet, full: bool) returns (handled: bool)
      requires Valid()
      modifies this`ring, this`accepted
      ensures Valid() && View() == Miss(old(View()), p, full)
      ensures handled == !full
    {
      hide PacketBuffers.Valid, PacketBuffers.View;
      if full {
        return false;
      }
      ring := ring + [p];
      accepted := accepted + [p];
      return true;
    }

    // The switch over message types.
    method Dispatch(m: seq<Octet>)
      requires Valid() && Acceptable(m)
      modifies this, outbuf, outbuf.buf, buffers.lists
      ensures Valid() && (outbuf.buf == old(outbuf.buf) || fresh(outbuf.buf)) && buffers.repr == old(buffers.repr)
      ensures View() == Handle(old(View()), m)
    {
      hide Buffer.Valid, Buffer.Contents, PacketBuffers.Valid, PacketBuffers.View, React, Acceptable;
      log := log + [Dispatched(m)];
      assert SelfFramed(m) by { AcceptableParts(m); }
      if MessageType(m) == OFPT_FLOW_MOD {
        FlowMod(m);
      } else {
        Answer(m);
      }
    }

    // Every case but OFPT_FLOW_MOD.
    method Answer(m: seq<Octet>)
      requires Valid() && Acceptable(m) && MessageType(m) != OFPT_FLOW_MOD
      modifies this`ready, this`config, this`pushed, outbuf, outbuf.buf
      ensures Valid() && (outbuf.buf == old(outbuf.buf) || fresh(outbuf.buf))
      ensures View() == React(old(View()), m)
    {
      hide Buffer.Valid, Buffer.Contents, PacketBuffers.Valid, PacketBuffers.View;
      hide FeaturesReply, VendorReply, EmptyReply, StatsReply, ConfigReply;
      var kind := MessageType(m);
      if kind == OFPT_HELLO {
        ready := true;
      } else if kind == OFPT_FEATURES_REQUEST {
        PushMessage(FeaturesReply(id, Xid(m)));
        ready := true;
      } else if kind == OFPT_SET_CONFIG {
        config := m[..12];
      } else if kind == OFPT_GET_CONFIG_REQUEST {
        config := ConfigReply(config, Xid(m));
        PushMessage(config);
      } else if kind == OFPT_VENDOR {
        PushMessage(VendorReply(Xid(m)));
      } else if kind == OFPT_ECHO_REQUEST {
        PushMessage(EmptyReply(OFPT_ECHO_REPLY, Xid(m)));
      } else if kind == OFPT_BARRIER_REQUEST {
        PushMessage(EmptyReply(OFPT_BARRIER_REPLY, Xid(m)));
      } else if kind == OFPT_STATS_REQUEST {
        if IsDescRequest(m) {
          PushMessage(StatsReply(m));
        }
      }
    }

    method FlowMod(m: seq<Octet>)
      requires Valid() && Acceptable(m) && MessageType(m) == OFPT_FLOW_MOD
      modifies this`chains, this`returned, this`log, buffers.lists
      ensures Valid() && buffers.repr == old(buffers.repr) && View() == React(old(View()), m)
    {
      hide Buffer.Valid, Buffer.Contents, PacketBuffers.Valid, PacketBuffers.View, Extract, MatchKey;
      var buffer := BufferId(m);
      if buffer != NO_BUFFER {
        var chain := FlowActionExtract(m[72..]);
        chains := chains[MatchKey(m) := chain];
        FlushList(buffer);
      }
    }

    // The buffered packets of the flow go back to the network function, in order.
    method FlushList(buffer: nat)
      requires Valid() && buffer < LISTS
      modifies this`returned, this`log, buffers.lists
      ensures Valid() && buffers.repr == old(buffers.repr) && View() == Flush(old(View()), buffer)
    {
      hide Buffer.Valid, Buffer.Contents, PacketBuffers.Valid, PacketBuffers.View;
      var back := buffers.Flush(buffer);
      returned := returned + back;
      log := log + [Flushed(buffer)];
    }

    // The length that the first buffered header announces.
    method PeekLength() returns (length: nat)
      requires Valid() && |inbuf.Contents()| >= HEADER_SIZE
      ensures length == HeaderLength(inbuf.Contents())
      ensures Whole(inbuf.Contents()) <==> length <= |inbuf.Contents()|
    {
      hide PacketBuffers.Valid, HeaderLength, Whole;
      var start := inbuf.Peek();
      var header := inbuf.buf[start..start + HEADER_SIZE];
      PeekedLength(inbuf.Contents(), header);
      length := Get16(header, 2);
    }

    // The body of the read loop: it ends the loop when the first message is not all there yet.
    method NextMessage(ghost target: Agent) returns (incomplete: bool)
      requires Valid() && Pending(View(), target) && |inbuf.Contents()| >= HEADER_SIZE
      modifies this, inbuf, outbuf, outbuf.buf, buffers.lists
      ensures Valid() && inbuf.buf == old(inbuf.buf) && buffers.repr == old(buffers.repr)
      ensures outbuf.buf == old(outbuf.buf) || fresh(outbuf.buf)
      ensures if incomplete then View() == target
              else Pending(View(), target) && |inbuf.Contents()| < |old(inbuf.Contents())|
    {
      hide Buffer.Valid, Buffer.Contents, PacketBuffers.Valid, PacketBuffers.View;
      hide Handle, Acceptable, Sound, Frames, HeaderLength, Whole, Pending;
      ghost var s, c := View(), inbuf.Contents();
      var length := PeekLength();
      var count := inbuf.CountBuffered();
      assert s.inbuf == c && count == |c| && (Whole(c) <==> length <= count);
      if count < length {
        PendingEnd(s, target);
        return true;
      }
      PendingStep(s, target);
      var pulled, m := inbuf.Pull(length);
      assert m == c[..length] && inbuf.Contents() == c[length..];
      assert View() == s.(inbuf := c[length..]);
      Dispatch(m);
      HandleIgnoresInbuf(s, m, c[length..]);
      return false;
    }

    // msgbuf_read leaves room for the next read.
    method Receive(chunk: seq<Octet>)
      requires Valid() && |chunk| <= inbuf.len - inbuf.end
      modifies this`received, inbuf, inbuf.buf
      ensures Valid() && (inbuf.buf == old(inbuf.buf) || fresh(inbuf.buf))
      ensures var s := old(View()); View() == s.(received := s.received + chunk, inbuf := s.inbuf + chunk)
    {
      hide Buffer.Valid, Buffer.Contents, PacketBuffers.Valid, PacketBuffers.View;
      inbuf.Read(chunk);
      received := received + chunk;
    }

    // The chunk is what one read delivers: at least a byte, and no more than there is room for.
    method HandleRead(chunk: seq<Octet>)
      requires Valid() && 0 < |chunk| <= inbuf.len - inbuf.end && CanRead(View(), chunk)
      modifies this, inbuf, inbuf.buf, outbuf, outbuf.buf, buffers.lists
      ensures Valid() && View() == ReadChunk(old(View()), chunk)
    {
      hide Buffer.Valid, Buffer.Contents, PacketBuffers.Valid, PacketBuffers.View;
      hide Pending, ReadChunk, Sound, Frames, CanRead;
      ghost var s, target := View(), ReadChunk(View(), chunk);
      Receive(chunk);
      PendingStart(s, chunk);
      var count := inbuf.CountBuffered();
      while count >= HEADER_SIZE
        invariant Valid() && Pending(View(), target) && count == |inbuf.Contents()|
        invariant inbuf.buf == old(inbuf.buf) || fresh(inbuf.buf)
        invariant (outbuf.buf == old(outbuf.buf) || fresh(outbuf.buf)) && buffers.repr == old(buffers.repr)
        decreases count
      {
        var incomplete := NextMessage(target);
        if incomplete {
          return;
        }
        count := inbuf.CountBuffered();
      }
      PendingEnd(View(), target);
    }

    // The slot is the index the packet buffer table returns; accepted is what the socket takes.
    method HandleWrite(slot: nat, accepted: int)
      requires Valid() && (ready && ring != [] ==> SlotFor(View(), ring[0].key, slot) && slot < LISTS)
      requires -1 <= accepted <= |TakePacket(View(), slot).outbuf|
      modifies this, outbuf, outbuf.buf, buffers`repr, buffers.lists, buffers.repr
      ensures Valid()
      ensures View() == Send(TakePacket(old(View()), slot), if accepted > 0 then accepted else 0)
    {
      hide Buffer.Valid, Buffer.Contents, PacketBuffers.Valid, PacketBuffers.View, SlotFor, Enlist;
      if ready && ring != [] {
        TakeFromRing(slot);
      }
      SendBytes(accepted);
    }

    method SendBytes(accepted: int)
      requires Valid() && -1 <= accepted <= |outbuf.Contents()|
      modifies this`sent, outbuf
      ensures Valid() && outbuf.buf == old(outbuf.buf)
      ensures View() == Send(old(View()), if accepted > 0 then accepted else 0)
    {
      hide PacketBuffers.Valid, PacketBuffers.View;
      ghost var s := View();
      if outbuf.end - outbuf.start > 0 {
        var count, bytes := outbuf.Write(0, accepted);
        sent := sent + bytes;
        assert s.outbuf == bytes + outbuf.Contents();
      }
    }

    method TakeFromRing(slot: nat)
      requires Valid() && ring != [] && slot < LISTS
      modifies this, outbuf, outbuf.buf, buffers`repr, buffers.lists, buffers.repr
      ensures Valid() && (outbuf.buf == old(outbuf.buf) || fresh(outbuf.buf))
      ensures View() == Enlist(old(View()), slot)
    {
      hide Buffer.Valid, Buffer.Contents, PacketBuffers.Valid, PacketBuffers.View;
      hide PacketIn, Enlist, Listed, AnnouncedFor;
      EnlistSteps(View(), slot);
      var pkt := ring[0];
      ring := ring[1..];
      AddToList(slot, pkt);
      var flag := buffers.GetFlag(slot);
      if !flag {
        Announce(slot, pkt);
      }
    }

    // The packet joins the list its flow is buffered in.
    method AddToList(slot: nat, pkt: Packet)
      requires Valid() && slot < LISTS
      modifies this`table, buffers`repr, buffers.lists, buffers.repr
      ensures Valid() && fresh(buffers.repr - old(buffers.repr))
      ensures View() == Listed(old(View()), slot, pkt)
    {
      hide Buffer.Valid, Buffer.Contents, PacketBuffers.Valid, PacketBuffers.View;
      table := table[pkt.key := slot];
      buffers.Add(slot, pkt);
    }

    // One OFPT_PACKET_IN for the list, which is then flagged.
    method Announce(slot: nat, pkt: Packet)
      requires Valid() && slot < LISTS
      modifies this`pushed, this`log, this`xid, outbuf, outbuf.buf, buffers.lists
      ensures Valid() && (outbuf.buf == old(outbuf.buf) || fresh(outbuf.buf)) && buffers.repr == old(buffers.repr)
      ensures View() == AnnouncedFor(old(View()), slot, pkt)
    {
      hide Buffer.Valid, Buffer.Contents, PacketBuffers.Valid, PacketBuffers.View, PacketIn;
      PushMessage(PacketIn(xid, slot, pkt));
      log := log + [Announced(slot, xid)];
      xid := xid + 1;
      buffers.SetFlag(slot);
    }
  }

  // A packet joins a list.
  function Listed(s: Agent, slot: nat, pkt: Packet): (t: Agent)
    requires slot < |s.lists|
    ensures |t.lists| == |s.lists|
  {
    var list := s.lists[slot];
    s.(table := s.table[pkt.key := slot],
       lists := s.lists[slot := PacketList(list.entries + [pkt], list.flag, list.counter + 1)])
  }

  // A list is announced and flagged.
  function AnnouncedFor(s: Agent, slot: nat, pkt: Packet): Agent
    requires slot < |s.lists|
  {
    Push(s, PacketIn(s.xid, slot, pkt)).(lists := s.lists[slot := s.lists[slot].(flag := true)], xid := s.xid + 1,
                                         log := s.log + [Announced(slot, s.xid)])
  }

  lemma EnlistSteps(s: Agent, slot: nat)
    requires s.ring != [] && slot < |s.lists|
    ensures var t := Listed(s.(ring := s.ring[1..]), slot, s.ring[0]);
            Enlist(s, slot) == if t.lists[slot].flag then t else AnnouncedFor(t, slot, s.ring[0])
  {
    hide PacketIn;
    var t := Listed(s.(ring := s.ring[1..]), slot, s.ring[0]);
    assert t.lists[slot := t.lists[slot].(flag := true)] == s.lists[slot := t.lists[slot].(flag := true)];
  }

  lemma AcceptableParts(m: seq<Octet>)
    requires Acceptable(m)
    ensures SelfFramed(m)
  {
  }

  lemma PeekedLength(c: seq<Octet>, header: seq<Octet>)
    requires |header| == HEADER_SIZE <= |c| && header == c[..HEADER_SIZE]
    ensures Get16(header, 2) == HeaderLength(c) && (Whole(c) <==> HeaderLength(c) <= |c|)
  {
  }

  // The messages still in the input buffer lead from s to the target.
  ghost predicate Pending(s: Agent, target: Agent) {
    && |s.lists| == LISTS && |s.config| == 12 && Sound(s.inbuf)
    && (forall m :: m in Frames(s.inbuf).messages ==> Acceptable(m))
    && HandleAll(s.(inbuf := Frames(s.inbuf).rest), Frames(s.inbuf).messages) == target
  }

  lemma PendingStart(s: Agent, chunk: seq<Octet>)
    requires |s.lists| == LISTS && |s.config| == 12 && CanRead(s, chunk)
    ensures Pending(s.(received := s.received + chunk, inbuf := s.inbuf + chunk), ReadChunk(s, chunk))
  {
  }

  lemma PendingEnd(s: Agent, target: Agent)
    requires Pending(s, target) && !Whole(s.inbuf)
    ensures s == target
  {
    FramesEnd(s.inbuf);
  }

  lemma PendingStep(s: Agent, target: Agent)
    requires Pending(s, target) && Whole(s.inbuf)
    ensures var n := HeaderLength(s.inbuf);
            && HEADER_SIZE <= n && Acceptable(s.inbuf[..n])
            && Pending(Handle(s.(inbuf := s.inbuf[n..]), s.inbuf[..n]), target)
  {
    var c, n := s.inbuf, HeaderLength(s.inbuf);
    FramesStep(c);
    hide Handle, Acceptable, HeaderLength, Sound, Frames;
    var m, f := c[..n], Frames(c[n..]);
    var ms := Frames(c).messages;
    assert ms == [m] + f.messages && Frames(c).rest == f.rest;
    assert m in ms && ms[1..] == f.messages;
    var t := s.(inbuf := c[n..]);
    HandleIgnoresInbuf(s, m, f.rest);
    HandleIgnoresInbuf(s, m, c[n..]);
    assert Handle(t, m).inbuf == c[n..];
    assert Handle(t, m).(inbuf := f.rest) == Handle(s.(inbuf := f.rest), m);
    assert forall x :: x in f.messages ==> x in ms;
  }
}
