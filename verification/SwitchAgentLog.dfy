/** What the log of a run says about the messages of the switch agent, and the invariant of all runs. */
module SwitchAgentLog {
  import opened OpenFlow
  import opened Actions
  import opened SwitchAgent
  import opened SwitchAgentRuns

  // ---------- Announcements ----------

  // A message that makes the switch ready.
  predicate Wakes(e: Event) {
    e.Dispatched? && |e.message| >= HEADER_SIZE &&
    (MessageType(e.message) == OFPT_HELLO || MessageType(e.message) == OFPT_FEATURES_REQUEST)
  }

  predicate Woken(log: seq<Event>) {
    exists i :: 0 <= i < |log| && Wakes(log[i])
  }

  // No packet is announced before the handshake.
  ghost predicate QuietBefore(log: seq<Event>) {
    forall i :: 0 <= i < |log| && log[i].Announced? ==> Woken(log[..i])
  }

  // The last event about buffer b was an announcement.
  predicate Armed(log: seq<Event>, b: nat) {
    log != [] &&
    var e := log[|log| - 1];
    if e.Announced? && e.buffer == b then true
    else if e.Flushed? && e.buffer == b then false
    else Armed(log[..|log| - 1], b)
  }

  ghost predicate OncePerBurst(log: seq<Event>) {
    forall i :: 0 <= i < |log| && log[i].Announced? ==> !Armed(log[..i], log[i].buffer)
  }

  ghost predicate AnnouncementsKept(s: Agent) {
    && |s.lists| == LISTS
    && s.ready == Woken(s.log)
    && QuietBefore(s.log) && OncePerBurst(s.log)
    && forall b :: 0 <= b < LISTS ==> s.lists[b].flag == Armed(s.log, b)
  }

  lemma LogSnoc(log: seq<Event>, e: Event)
    ensures Woken(log + [e]) == (Woken(log) || Wakes(e))
    ensures QuietBefore(log) && (e.Announced? ==> Woken(log)) ==> QuietBefore(log + [e])
    ensures OncePerBurst(log) && (e.Announced? ==> !Armed(log, e.buffer)) ==> OncePerBurst(log + [e])
  {
    var l := log + [e];
    assert l[..|log|] == log;
    assert forall i :: 0 <= i < |log| ==> l[i] == log[i] && l[..i] == log[..i];
    if Woken(log) {
      var i :| 0 <= i < |log| && Wakes(log[i]);
      assert Wakes(l[i]);
    }
    if Wakes(e) {
      assert Wakes(l[|log|]);
    }
  }

  lemma ArmedSnoc(log: seq<Event>, e: Event, b: nat)
    ensures Armed(log + [e], b) == if e.Announced? && e.buffer == b then true
                                   else if e.Flushed? && e.buffer == b then false
                                   else Armed(log, b)
  {
    assert (log + [e])[..|log|] == log;
  }

  // Between two announcements of the same buffer it was flushed.
  lemma {:induction false} FlushBetween(log: seq<Event>, i: nat, j: nat)
    requires i < j < |log| && log[i].Announced? && log[j].Announced? && log[i].buffer == log[j].buffer
    requires OncePerBurst(log)
    ensures exists n :: i < n < j && log[n] == Flushed(log[i].buffer)
  {
    var b := log[i].buffer;
    if forall n :: i < n < j ==> log[n] != Flushed(b) {
      ArmedUntilFlushed(log, b, i, j);
    }
  }

  lemma {:induction false} ArmedUntilFlushed(log: seq<Event>, b: nat, i: nat, j: nat)
    requires i < j <= |log| && log[i].Announced? && log[i].buffer == b
    requires forall n :: i < n < j ==> log[n] != Flushed(b)
    ensures Armed(log[..j], b)
    decreases j
  {
    var l := log[..j];
    assert l[..|l| - 1] == log[..j - 1];
    if j - 1 == i {
    } else {
      ArmedUntilFlushed(log, b, i, j - 1);
    }
  }

  lemma HandleKeepsAnnouncements(s: Agent, m: seq<Octet>)
    requires AnnouncementsKept(s) && Acceptable(m) && |s.config| == 12
    ensures AnnouncementsKept(Handle(s, m))
  {
    hide FeaturesReply, VendorReply, EmptyReply, StatsReply, ConfigReply, Extract, MatchKey;
    hide Armed, Woken, QuietBefore, OncePerBurst;
    var t, log := Handle(s, m), s.log + [Dispatched(m)];
    LogSnoc(s.log, Dispatched(m));
    forall b | 0 <= b < LISTS
      ensures t.lists[b].flag == Armed(t.log, b)
    {
      ArmedSnoc(s.log, Dispatched(m), b);
      if MessageType(m) == OFPT_FLOW_MOD && BufferId(m) != NO_BUFFER {
        ArmedSnoc(log, Flushed(BufferId(m)), b);
      }
    }
    if MessageType(m) == OFPT_FLOW_MOD && BufferId(m) != NO_BUFFER {
      LogSnoc(log, Flushed(BufferId(m)));
    }
  }

  lemma EnlistKeepsAnnouncements(s: Agent, slot: nat)
    requires AnnouncementsKept(s) && s.ready && s.ring != [] && slot < LISTS
    ensures AnnouncementsKept(Enlist(s, slot))
  {
    hide PacketIn, Armed, Woken, QuietBefore, OncePerBurst;
    var t := Enlist(s, slot);
    if !s.lists[slot].flag {
      var e := Announced(slot, s.xid);
      LogSnoc(s.log, e);
      forall b | 0 <= b < LISTS
        ensures t.lists[b].flag == Armed(t.log, b)
      {
        ArmedSnoc(s.log, e, b);
      }
    }
  }

  // ---------- Replies and their transaction ids ----------

  datatype Tag = Tag(kind: Octet, xid: seq<Octet>)

  function Tags(ms: seq<seq<Octet>>): seq<Tag>
    requires forall m :: m in ms ==> |m| >= HEADER_SIZE
  {
    seq(|ms|, i requires 0 <= i < |ms| => Tag(MessageType(ms[i]), Xid(ms[i])))
  }

  // The type of the answer to each request.
  function ReplyTags(e: Event): seq<Tag> {
    match e
    case Dispatched(m) =>
      if |m| < HEADER_SIZE then []
      else
        var kind, xid := MessageType(m), Xid(m);
        if kind == OFPT_FEATURES_REQUEST then [Tag(OFPT_FEATURES_REPLY, xid)]
        else if kind == OFPT_GET_CONFIG_REQUEST then [Tag(OFPT_GET_CONFIG_REPLY, xid)]
        else if kind == OFPT_VENDOR then [Tag(OFPT_ERROR, xid)]
        else if kind == OFPT_ECHO_REQUEST then [Tag(OFPT_ECHO_REPLY, xid)]
        else if kind == OFPT_BARRIER_REQUEST then [Tag(OFPT_BARRIER_REPLY, xid)]
        else if kind == OFPT_STATS_REQUEST && |m| >= 12 && IsDescRequest(m) then [Tag(OFPT_STATS_REPLY, xid)]
        else []
    case Announced(b, xid) => [Tag(OFPT_PACKET_IN, Put32(xid))]
    case Flushed(_) => []
  }

  // What a log calls for: the greeting, then one answer per request and one PACKET_IN per announcement.
  function Expected(log: seq<Event>): seq<Tag> {
    if log == [] then [Tag(OFPT_HELLO, Put32(1))]
    else Expected(log[..|log| - 1]) + ReplyTags(log[|log| - 1])
  }

  // Each message pushed answers its request, in order, with the request's transaction id, and nothing else is
  // pushed.
  ghost predicate RepliesKept(s: Agent) {
    && (forall m :: m in s.pushed ==> |m| >= HEADER_SIZE)
    && Tags(s.pushed) == Expected(s.log)
  }

  lemma ExpectedSnoc(log: seq<Event>, e: Event)
    ensures Expected(log + [e]) == Expected(log) + ReplyTags(e)
  {
    assert (log + [e])[..|log|] == log;
  }

  lemma TagsSnoc(ms: seq<seq<Octet>>, m: seq<Octet>)
    requires (forall x :: x in ms ==> |x| >= HEADER_SIZE) && |m| >= HEADER_SIZE
    ensures Tags(ms + [m]) == Tags(ms) + [Tag(MessageType(m), Xid(m))]
  {
  }

  // The header of a reply.
  ghost predicate Answers(r: seq<Octet>, kind: Octet, xid: seq<Octet>) {
    SelfFramed(r) && MessageType(r) == kind && Xid(r) == xid
  }

  lemma FeaturesAnswers(id: nat, xid: seq<Octet>)
    requires |xid| == 4
    ensures Answers(FeaturesReply(id, xid), OFPT_FEATURES_REPLY, xid)
  {
    hide Header, Port, Put32;
    var r, h := FeaturesReply(id, xid), Header(OFPT_FEATURES_REPLY, 224, xid);
    HeaderFields(h, r[8..]);
    assert r == h + r[8..];
  }

  lemma VendorAnswers(xid: seq<Octet>)
    requires |xid| == 4
    ensures Answers(VendorReply(xid), OFPT_ERROR, xid)
  {
    hide Header;
    HeaderFields(Header(OFPT_ERROR, 12, xid), [0, 1, 0, 3]);
  }

  lemma StatsAnswers(m: seq<Octet>)
    requires |m| >= 12
    ensures Answers(StatsReply(m), OFPT_STATS_REPLY, Xid(m))
  {
    hide Put16, Text;
    var r := StatsReply(m);
    assert r[2..4] == Put16(1068) && r[4..8] == Xid(m);
    LengthField(r, 1068);
  }

  lemma LengthField(r: seq<Octet>, n: nat)
    requires |r| >= HEADER_SIZE && n < 0x1_0000 && r[2..4] == Put16(n)
    ensures HeaderLength(r) == n
  {
    assert Get16(r[2..4], 0) == Get16(r, 2);
  }

  lemma PacketInAnswers(xid: nat, buffer: nat, p: Packet)
    ensures Answers(PacketIn(xid, buffer, p), OFPT_PACKET_IN, Put32(xid))
  {
    hide Header, Put16, Put32, Start128;
    var r, h := PacketIn(xid, buffer, p), Header(OFPT_PACKET_IN, 148, Put32(xid));
    HeaderFields(h, r[8..]);
    assert r == h + r[8..];
  }

  // The reply takes the length of the configuration it is made from.
  lemma ConfigReplyFields(config: seq<Octet>, xid: seq<Octet>)
    requires |config| == 12 && |xid| == 4
    ensures var r := ConfigReply(config, xid);
            MessageType(r) == OFPT_GET_CONFIG_REPLY && Xid(r) == xid && HeaderLength(r) == HeaderLength(config)
  {
    var r := ConfigReply(config, xid);
    assert r[4..8] == xid;
  }

  lemma ReplyHasTag(s: Agent, m: seq<Octet>)
    requires Acceptable(m) && |s.config| == 12
    ensures |Reply(s, m)| == |ReplyTags(Dispatched(m))| <= 1
    ensures Reply(s, m) != [] ==>
              var r := Reply(s, m)[0];
              && |r| >= HEADER_SIZE && ReplyTags(Dispatched(m)) == [Tag(MessageType(r), Xid(r))]
              && (if MessageType(m) == OFPT_GET_CONFIG_REQUEST then |r| == 12 && HeaderLength(r) == HeaderLength(s.config)
                  else SelfFramed(r))
  {
    hide FeaturesReply, VendorReply, StatsReply, ConfigReply;
    var xid := Xid(m);
    FeaturesAnswers(s.id, xid);
    VendorAnswers(xid);
    ConfigReplyFields(s.config, xid);
    if |m| >= 12 {
      StatsAnswers(m);
    }
  }

  lemma HandlePushes(s: Agent, m: seq<Octet>)
    requires Acceptable(m) && |s.lists| == LISTS && |s.config| == 12
    ensures Handle(s, m).pushed == s.pushed + Reply(s, m)
    ensures var log := s.log + [Dispatched(m)];
            Handle(s, m).log == if MessageType(m) == OFPT_FLOW_MOD && BufferId(m) != NO_BUFFER
                                then log + [Flushed(BufferId(m))] else log
    ensures Handle(s, m).xid == s.xid
  {
    hide FeaturesReply, VendorReply, StatsReply, ConfigReply, EmptyReply, Extract, MatchKey;
  }

  lemma HandleKeepsReplies(s: Agent, m: seq<Octet>)
    requires RepliesKept(s) && Acceptable(m) && |s.lists| == LISTS && |s.config| == 12
    ensures RepliesKept(Handle(s, m))
  {
    hide Handle, Reply, Acceptable, Tags, Expected, ReplyTags;
    var t, log := Handle(s, m), s.log + [Dispatched(m)];
    assert |m| >= HEADER_SIZE && (MessageType(m) == OFPT_FLOW_MOD ==> |m| >= 72) by { FlowModParts(m); }
    HandlePushes(s, m);
    ReplyHasTag(s, m);
    ExpectedSnoc(s.log, Dispatched(m));
    if MessageType(m) == OFPT_FLOW_MOD && BufferId(m) != NO_BUFFER {
      ExpectedSnoc(log, Flushed(BufferId(m)));
      FlushIsSilent(BufferId(m));
    }
    var r := Reply(s, m);
    if r == [] {
      assert s.pushed + r == s.pushed;
      assert ReplyTags(Dispatched(m)) == [];
    } else {
      assert r == [r[0]];
      TagsSnoc(s.pushed, r[0]);
    }
    assert Expected(t.log) == Expected(s.log) + ReplyTags(Dispatched(m));
  }

  lemma FlushIsSilent(b: nat)
    ensures ReplyTags(Flushed(b)) == []
  {
  }

  lemma EnlistKeepsReplies(s: Agent, slot: nat)
    requires RepliesKept(s) && s.ring != [] && slot < |s.lists|
    ensures RepliesKept(Enlist(s, slot))
  {
    hide PacketIn, Tags, Expected;
    if !s.lists[slot].flag {
      var m := PacketIn(s.xid, slot, s.ring[0]);
      PacketInAnswers(s.xid, slot, s.ring[0]);
      TagsSnoc(s.pushed, m);
      ExpectedSnoc(s.log, Announced(slot, s.xid));
    }
  }

  // ---------- Framing of the output ----------

  // The length field of the configuration: in host order at first, then that of the last SET_CONFIG.
  function ConfigLength(log: seq<Event>): nat {
    if log == [] then 3072
    else
      var e := log[|log| - 1];
      if e.Dispatched? && |e.message| >= HEADER_SIZE && MessageType(e.message) == OFPT_SET_CONFIG then |e.message|
      else ConfigLength(log[..|log| - 1])
  }

  predicate AsksConfig(e: Event) {
    e.Dispatched? && |e.message| >= HEADER_SIZE && MessageType(e.message) == OFPT_GET_CONFIG_REQUEST
  }

  // Every request for the configuration came when its length field was its length.
  ghost predicate ConfigsFramed(log: seq<Event>) {
    forall i :: 0 <= i < |log| && AsksConfig(log[i]) ==> ConfigLength(log[..i]) == 12
  }

  ghost predicate FramingKept(s: Agent) {
    && |s.config| == 12 && HeaderLength(s.config) == ConfigLength(s.log) >= HEADER_SIZE
    && (forall m :: m in s.pushed ==> |m| >= HEADER_SIZE && HeaderLength(m) >= HEADER_SIZE)
    && ((forall m :: m in s.pushed ==> SelfFramed(m)) <==> ConfigsFramed(s.log))
  }

  lemma ConfigSnoc(log: seq<Event>, e: Event)
    ensures ConfigLength(log + [e]) ==
            if e.Dispatched? && |e.message| >= HEADER_SIZE && MessageType(e.message) == OFPT_SET_CONFIG
            then |e.message| else ConfigLength(log)
    ensures ConfigsFramed(log + [e]) <==> ConfigsFramed(log) && (AsksConfig(e) ==> ConfigLength(log) == 12)
  {
    hide HeaderLength, MessageType;
    var l := log + [e];
    assert l[..|log|] == log && l[|log|] == e;
    assert forall i :: 0 <= i < |log| ==> l[i] == log[i] && l[..i] == log[..i];
    hide ConfigLength;
    if ConfigsFramed(l) {
      forall i | 0 <= i < |log| && AsksConfig(log[i])
        ensures ConfigLength(log[..i]) == 12
      {
        assert l[i] == log[i];
      }
    }
  }

  lemma HandleConfig(s: Agent, m: seq<Octet>)
    requires Acceptable(m) && |s.lists| == LISTS && |s.config| == 12
    ensures HeaderLength(Handle(s, m).config) == if MessageType(m) == OFPT_SET_CONFIG then |m| else HeaderLength(s.config)
  {
    hide FeaturesReply, VendorReply, StatsReply, ConfigReply, EmptyReply, Extract, MatchKey;
    ConfigReplyFields(s.config, Xid(m));
    if MessageType(m) == OFPT_SET_CONFIG {
      HeaderOfPrefix(m[..12], m[12..]);
      assert m == m[..12] + m[12..];
    }
  }

  lemma HandleConfigLog(s: Agent, m: seq<Octet>)
    requires Acceptable(m) && |s.lists| == LISTS && |s.config| == 12
    ensures var t := Handle(s, m);
            && ConfigLength(t.log) == (if MessageType(m) == OFPT_SET_CONFIG then |m| else ConfigLength(s.log))
            && (ConfigsFramed(t.log) <==>
                ConfigsFramed(s.log) && (MessageType(m) == OFPT_GET_CONFIG_REQUEST ==> ConfigLength(s.log) == 12))
  {
    hide Handle, Reply, Acceptable, ConfigLength, ConfigsFramed, Get16, Get32;
    var e := Dispatched(m);
    assert |m| >= HEADER_SIZE && (MessageType(m) == OFPT_FLOW_MOD ==> |m| >= 72) by { FlowModParts(m); }
    HandlePushes(s, m);
    ConfigSnoc(s.log, e);
    if MessageType(m) == OFPT_FLOW_MOD && BufferId(m) != NO_BUFFER {
      ConfigSnoc(s.log + [e], Flushed(BufferId(m)));
    }
  }

  lemma AcceptableKind(m: seq<Octet>)
    requires Acceptable(m)
    ensures |m| >= HEADER_SIZE && (MessageType(m) == OFPT_GET_CONFIG_REQUEST ==> |ReplyTags(Dispatched(m))| == 1)
  {
  }

  // The reply to a request for the configuration is framed exactly when the configuration is.
  lemma ReplyFramed(s: Agent, m: seq<Octet>)
    requires Acceptable(m) && FramingKept(s)
    ensures forall r :: r in Reply(s, m) ==> |r| >= HEADER_SIZE && HeaderLength(r) >= HEADER_SIZE
    ensures (forall r :: r in Reply(s, m) ==> SelfFramed(r)) <==>
            (MessageType(m) == OFPT_GET_CONFIG_REQUEST ==> ConfigLength(s.log) == 12)
  {
    ReplyHasTag(s, m);
    AcceptableKind(m);
    hide Reply, ReplyTags, Acceptable, ConfigLength, ConfigsFramed, HeaderLength, MessageType, Xid, Get16, Get32;
    OneReplyFramed(Reply(s, m), MessageType(m) == OFPT_GET_CONFIG_REQUEST, ConfigLength(s.log));
  }

  lemma OneReplyFramed(replies: seq<seq<Octet>>, asks: bool, length: nat)
    requires |replies| <= 1 && (asks ==> |replies| == 1 && |replies[0]| == 12 && HeaderLength(replies[0]) == length)
    requires length >= HEADER_SIZE && (!asks && replies != [] ==> SelfFramed(replies[0]))
    ensures forall r :: r in replies ==> |r| >= HEADER_SIZE && HeaderLength(r) >= HEADER_SIZE
    ensures (forall r :: r in replies ==> SelfFramed(r)) <==> (asks ==> length == 12)
  {
    hide HeaderLength;
    if replies != [] {
      assert replies == [replies[0]] && replies[0] in replies;
    }
  }

  lemma HandleKeepsFraming(s: Agent, m: seq<Octet>)
    requires FramingKept(s) && Acceptable(m) && |s.lists| == LISTS
    ensures FramingKept(Handle(s, m))
  {
    hide Handle, Reply, Acceptable, ConfigLength, ConfigsFramed, Get16, Get32, HeaderLength;
    SetConfigSize(m);
    HandleConfig(s, m);
    HandleConfigLog(s, m);
    HandlePushes(s, m);
    ReplyFramed(s, m);
    PushedFramed(s.pushed, Reply(s, m));
  }

  lemma SetConfigSize(m: seq<Octet>)
    requires Acceptable(m)
    ensures |m| >= HEADER_SIZE && (MessageType(m) == OFPT_SET_CONFIG ==> |m| >= 12)
  {
  }

  lemma PushedFramed(ms: seq<seq<Octet>>, r: seq<seq<Octet>>)
    ensures (forall m :: m in ms + r ==> SelfFramed(m)) <==>
            (forall m :: m in ms ==> SelfFramed(m)) && (forall m :: m in r ==> SelfFramed(m))
  {
    if forall m :: m in ms + r ==> SelfFramed(m) {
      assert forall m :: m in ms ==> m in ms + r;
      assert forall m :: m in r ==> m in ms + r;
    }
  }

  lemma EnlistKeepsFraming(s: Agent, slot: nat)
    requires FramingKept(s) && s.ring != [] && slot < |s.lists|
    ensures FramingKept(Enlist(s, slot))
  {
    hide PacketIn, ConfigLength, ConfigsFramed, Get16;
    if !s.lists[slot].flag {
      var m := PacketIn(s.xid, slot, s.ring[0]);
      PacketInAnswers(s.xid, slot, s.ring[0]);
      ConfigSnoc(s.log, Announced(slot, s.xid));
      PushedFramed(s.pushed, [m]);
    }
  }

  // ---------- Every run ----------

  ghost predicate Invariant(s: Agent) {
    && ListsKept(s) && PacketsKept(s)
    && StreamKept(s) && OutputKept(s)
    && AnnouncementsKept(s) && RepliesKept(s) && FramingKept(s)
  }

  lemma HandleKeepsInvariant(s: Agent, m: seq<Octet>)
    requires ListsKept(s) && PacketsKept(s) && OutputKept(s) && AnnouncementsKept(s) && RepliesKept(s) && FramingKept(s)
    requires Acceptable(m)
    ensures var t := Handle(s, m);
            ListsKept(t) && PacketsKept(t) && OutputKept(t) && AnnouncementsKept(t) && RepliesKept(t) && FramingKept(t)
  {
    ListsShape(s);
    hide *;
    HandleKeepsPackets(s, m);
    HandleKeepsOutput(s, m);
    HandleKeepsAnnouncements(s, m);
    HandleKeepsReplies(s, m);
    HandleKeepsFraming(s, m);
  }

  lemma {:induction false} HandleAllKeepsInvariant(s: Agent, ms: seq<seq<Octet>>)
    requires ListsKept(s) && PacketsKept(s) && OutputKept(s) && AnnouncementsKept(s) && RepliesKept(s) && FramingKept(s)
    requires forall m :: m in ms ==> Acceptable(m)
    ensures |s.lists| == LISTS && |s.config| == 12
    ensures var t := HandleAll(s, ms);
            ListsKept(t) && PacketsKept(t) && OutputKept(t) && AnnouncementsKept(t) && RepliesKept(t) && FramingKept(t)
    decreases |ms|
  {
    ListsShape(s);
    hide Handle, ListsKept, PacketsKept, OutputKept, AnnouncementsKept, RepliesKept, FramingKept, Acceptable;
    if ms == [] {
    } else {
      HandleKeepsInvariant(s, ms[0]);
      HandleAllKeepsInvariant(Handle(s, ms[0]), ms[1..]);
    }
  }

  lemma InitPackets(id: nat)
    ensures ListsKept(Init(id)) && PacketsKept(Init(id))
  {
    hide EmptyReply;
    var s := Init(id);
    forall b | 0 <= b < LISTS
      ensures ListKept(s, b)
    {
    }
    forall k
      ensures FlowKept(s, k)
    {
    }
  }

  lemma InitStreams(id: nat)
    ensures StreamKept(Init(id)) && OutputKept(Init(id)) && AnnouncementsKept(Init(id))
  {
    hide EmptyReply;
    var s, hello := Init(id), EmptyReply(OFPT_HELLO, Put32(1));
    assert s.pushed == [hello] && s.pushed[1..] == [];
    assert Flatten(s.pushed) == hello + [] == hello;
  }

  lemma InitReplies(id: nat)
    ensures RepliesKept(Init(id)) && FramingKept(Init(id))
  {
    hide Put16, Put32, Header, EmptyReply, HeaderLength, MessageType, Xid;
    var s, hello := Init(id), EmptyReply(OFPT_HELLO, Put32(1));
    HelloFields();
    assert s.pushed == [hello];
    assert Tags(s.pushed) == [Tag(OFPT_HELLO, Put32(1))];
  }

  lemma HelloFields()
    ensures var hello := EmptyReply(OFPT_HELLO, Put32(1));
            SelfFramed(hello) && MessageType(hello) == OFPT_HELLO && Xid(hello) == Put32(1)
    ensures HeaderLength(INITIAL_CONFIG) == 3072
  {
    hide Put16, Put32, Header;
  }

  lemma InitInvariant(id: nat)
    ensures Invariant(Init(id))
  {
    hide *;
    InitPackets(id);
    InitStreams(id);
    InitReplies(id);
    InvariantParts(Init(id));
  }

  lemma SameTalk(s: Agent, t: Agent)
    requires AnnouncementsKept(s) && RepliesKept(s) && FramingKept(s)
    requires t.lists == s.lists && t.ready == s.ready && t.log == s.log && t.pushed == s.pushed && t.config == s.config
    ensures AnnouncementsKept(t) && RepliesKept(t) && FramingKept(t)
  {
    hide Tags, Expected, ConfigLength, ConfigsFramed, Armed, QuietBefore, OncePerBurst, Woken, HeaderLength;
  }

  lemma MissKeepsInvariant(s: Agent, p: Packet, full: bool)
    requires Invariant(s)
    ensures Invariant(Miss(s, p, full))
  {
    MissKeepsPackets(s, p, full);
    SameTalk(s, Miss(s, p, full));
    hide ListsKept, PacketsKept, AnnouncementsKept, RepliesKept, FramingKept, Sound, Frames, Flatten, Messages;
  }

  lemma ReadKeepsInvariant(s: Agent, chunk: seq<Octet>)
    requires Invariant(s) && |s.lists| == LISTS && |s.config| == 12 && CanRead(s, chunk)
    ensures Invariant(ReadChunk(s, chunk))
  {
    ReadKeepsStream(s, chunk);
    var f := Frames(s.inbuf + chunk);
    var t := s.(received := s.received + chunk, inbuf := f.rest);
    SamePackets(s, t);
    SameTalk(s, t);
    hide HandleAll, ListsKept, PacketsKept, AnnouncementsKept, RepliesKept, FramingKept, Acceptable, StreamKept;
    HandleAllKeepsInvariant(t, f.messages);
  }

  lemma SendKeepsInvariant(s: Agent, n: nat)
    requires Invariant(s) && n <= |s.outbuf|
    ensures Invariant(Send(s, n))
  {
    SendKeepsOutput(s, n);
    SamePackets(s, Send(s, n));
    SameTalk(s, Send(s, n));
    hide ListsKept, PacketsKept, AnnouncementsKept, RepliesKept, FramingKept, Sound, Frames, Flatten, Messages;
  }

  lemma EnlistKeepsInvariant(s: Agent, slot: nat)
    requires Invariant(s) && s.ready && s.ring != [] && SlotFor(s, s.ring[0].key, slot) && slot < LISTS
    requires |s.lists| == LISTS
    ensures Invariant(Enlist(s, slot))
  {
    EnlistKeepsPackets(s, slot);
    EnlistKeepsAnnouncements(s, slot);
    EnlistKeepsReplies(s, slot);
    EnlistKeepsFraming(s, slot);
    EnlistKeepsStreams(s, slot);
    hide *;
    hide Invariant;
    InvariantParts(Enlist(s, slot));
  }

  lemma InvariantParts(s: Agent)
    requires ListsKept(s) && PacketsKept(s) && StreamKept(s) && OutputKept(s)
    requires AnnouncementsKept(s) && RepliesKept(s) && FramingKept(s)
    ensures Invariant(s)
  {
  }

  lemma EnlistKeepsStreams(s: Agent, slot: nat)
    requires StreamKept(s) && OutputKept(s) && s.ring != [] && slot < |s.lists|
    ensures StreamKept(Enlist(s, slot)) && OutputKept(Enlist(s, slot))
  {
    hide PacketIn, Sound, Frames, Flatten, Messages;
    if !s.lists[slot].flag {
      MessagesSnoc(s.log, Announced(slot, s.xid));
      PushKeepsOutput(s, PacketIn(s.xid, slot, s.ring[0]));
    }
  }

  lemma StepKeepsInvariant(s: Agent, t: Agent)
    requires Invariant(s) && Step(s, t)
    ensures Invariant(t)
  {
    hide Invariant, Miss, ReadChunk, Enlist, Send, CanRead;
    if MissStep(s, t) {
      var p, full :| t == Miss(s, p, full);
      MissKeepsInvariant(s, p, full);
    } else if ReadStep(s, t) {
      var chunk :| CanRead(s, chunk) && t == ReadChunk(s, chunk);
      ReadKeepsInvariant(s, chunk);
    } else {
      var slot: nat, n: nat :| WriteStep(s, slot, n, t);
      if s.ready && s.ring != [] {
        EnlistKeepsInvariant(s, slot);
      }
      SendKeepsInvariant(TakePacket(s, slot), n);
    }
  }

  lemma {:induction false} RunsKeepInvariant(states: seq<Agent>, i: nat)
    requires Run(states) && i < |states|
    ensures Invariant(states[i])
  {
    if i == 0 {
      var id: nat :| states[0] == Init(id);
      InitInvariant(id);
    } else {
      RunsKeepInvariant(states, i - 1);
      assert Step(states[i - 1], states[i - 1 + 1]);
      StepKeepsInvariant(states[i - 1], states[i]);
    }
  }

  // ---------- What it means ----------

  lemma {:induction false} CountByKey(s: seq<Packet>, p: Packet)
    ensures multiset(ByKey(s, p.key))[p] == multiset(s)[p]
  {
    if s == [] {
    } else {
      var n := |s| - 1;
      CountByKey(s[..n], p);
      assert s == s[..n] + [s[n]];
    }
  }

  lemma CountOfParts(a: seq<Packet>, b: seq<Packet>, c: seq<Packet>, p: Packet)
    ensures multiset(a + b + c)[p] == multiset(a)[p] + multiset(b)[p] + multiset(c)[p]
  {
  }

  lemma PacketCount(s: Agent, p: Packet)
    requires FlowKept(s, p.key)
    ensures multiset(s.accepted)[p] ==
            multiset(s.returned)[p] + multiset(Waiting(s, p.key))[p] + multiset(s.ring)[p]
  {
    hide ByKey, Waiting;
    CountByKey(s.accepted, p);
    CountByKey(s.returned, p);
    CountByKey(s.ring, p);
    CountOfParts(ByKey(s.returned, p.key), Waiting(s, p.key), ByKey(s.ring, p.key), p);
  }

  // Every accepted packet is in exactly one place, as often as it was accepted: returned, on the ring, or on the
  // list of its flow; no other list holds it.
  lemma EachPacketOnce(states: seq<Agent>, i: nat, p: Packet)
    requires Run(states) && i < |states|
    ensures var s := states[i];
            && |s.lists| == LISTS
            && multiset(s.accepted)[p] ==
               multiset(s.returned)[p] + multiset(Waiting(s, p.key))[p] + multiset(s.ring)[p]
            && (forall b :: 0 <= b < LISTS && p in s.lists[b].entries ==> p.key in s.table && s.table[p.key] == b)
  {
    var s := states[i];
    RunsKeepInvariant(states, i);
    hide Run, Waiting, FlowKept, ListsKept;
    assert FlowKept(s, p.key);
    ListsShape(s);
    PacketCount(s, p);
    OnlyOnOwnList(s, p);
  }

  lemma OnlyOnOwnList(s: Agent, p: Packet)
    requires ListsKept(s)
    ensures forall b :: 0 <= b < LISTS && p in s.lists[b].entries ==> p.key in s.table && s.table[p.key] == b
  {
    forall b | 0 <= b < LISTS && p in s.lists[b].entries
      ensures p.key in s.table && s.table[p.key] == b
    {
      assert ListKept(s, b);
    }
  }

  // The packets of a flow come back in the order in which they were accepted.
  lemma ReturnedInOrder(states: seq<Agent>, i: nat, k: Key)
    requires Run(states) && i < |states|
    ensures ByKey(states[i].returned, k) <= ByKey(states[i].accepted, k)
  {
    RunsKeepInvariant(states, i);
    hide Run;
    assert FlowKept(states[i], k);
  }

  // Two runs that received the same bytes dispatched the same messages, however the bytes were cut into reads
  // and whatever else happened in between.
  lemma DispatchDependsOnStreamOnly(one: seq<Agent>, i: nat, other: seq<Agent>, j: nat)
    requires Run(one) && i < |one| && Run(other) && j < |other| && one[i].received == other[j].received
    ensures Messages(one[i].log) == Messages(other[j].log) && one[i].inbuf == other[j].inbuf
    ensures Flatten(Messages(one[i].log)) + one[i].inbuf == one[i].received
  {
    RunsKeepInvariant(one, i);
    RunsKeepInvariant(other, j);
    hide Run;
    FramesPartition(one[i].received);
  }

  // In every run a read adds its bytes to the stream, and dispatches all messages that are complete then.
  lemma ReadDispatches(states: seq<Agent>, i: nat, chunk: seq<Octet>)
    requires Run(states) && i < |states| && CanRead(states[i], chunk)
    ensures |states[i].lists| == LISTS && |states[i].config| == 12
    ensures var t, stream := ReadChunk(states[i], chunk), states[i].received + chunk;
            && t.received == stream && Sound(stream)
            && Messages(t.log) == Frames(stream).messages && t.inbuf == Frames(stream).rest
  {
    RunsKeepInvariant(states, i);
    hide Run, CanRead, Frames, Sound, Acceptable, ReadChunk;
    hide ListsKept, PacketsKept, AnnouncementsKept, RepliesKept, FramingKept;
    ListsShape(states[i]);
    ReadKeepsStream(states[i], chunk);
  }

  // And a write sends the next bytes of the messages pushed.
  lemma WriteSends(states: seq<Agent>, i: nat, slot: nat, n: nat, t: Agent)
    requires Run(states) && i < |states| && |states[i].lists| == LISTS && WriteStep(states[i], slot, n, t)
    ensures |states[i].sent| + n <= |Flatten(t.pushed)| && t.sent == Flatten(t.pushed)[..|states[i].sent| + n]
  {
    RunsKeepInvariant(states, i);
    var s := states[i];
    hide Run, PacketIn, Flatten, SlotFor, ListsKept, PacketsKept, AnnouncementsKept, RepliesKept, FramingKept, StreamKept;
    if s.ready && s.ring != [] {
      EnlistKeepsStreams(s, slot);
    }
    SendKeepsOutput(TakePacket(s, slot), n);
    assert t.sent + t.outbuf == Flatten(t.pushed);
  }

  // The bytes for the controller divide into exactly the messages pushed, if and only if at every request for the
  // configuration the latest SET_CONFIG had twelve bytes, and there was one.
  lemma OutputDividesIntoMessages(states: seq<Agent>, i: nat)
    requires Run(states) && i < |states|
    ensures var s := states[i]; var b := s.sent + s.outbuf;
            Sound(b) && Frames(b) == Framing(s.pushed, []) <==> ConfigsFramed(s.log)
  {
    RunsKeepInvariant(states, i);
    hide Run;
    FlattenFrames(states[i].pushed);
  }

  // No packet is announced before the handshake.
  lemma AnnouncedAfterHandshake(states: seq<Agent>, i: nat, m: nat)
    requires Run(states) && i < |states| && m < |states[i].log| && states[i].log[m].Announced?
    ensures exists h :: 0 <= h < m && Wakes(states[i].log[h])
  {
    RunsKeepInvariant(states, i);
    hide Run;
    var log := states[i].log;
    assert Woken(log[..m]);
    var h :| 0 <= h < m && Wakes(log[..m][h]);
    assert Wakes(log[h]);
  }

  // Between two announcements of one buffer it is flushed.
  lemma AnnouncementsInOrder(states: seq<Agent>, i: nat, m: nat, n: nat)
    requires Run(states) && i < |states| && m < n < |states[i].log|
    requires states[i].log[m].Announced? && states[i].log[n].Announced?
    requires states[i].log[m].buffer == states[i].log[n].buffer
    ensures exists f :: m < f < n && states[i].log[f] == Flushed(states[i].log[m].buffer)
  {
    RunsKeepInvariant(states, i);
    hide Run, Woken;
    FlushBetween(states[i].log, m, n);
  }

  // A flag is set exactly when packets wait on its list, and exactly when the list has been announced since it was
  // last flushed.
  lemma FlagsTellWaiting(states: seq<Agent>, i: nat, b: nat)
    requires Run(states) && i < |states| && b < LISTS
    ensures var s := states[i];
            && |s.lists| == LISTS
            && (s.lists[b].flag <==> s.lists[b].entries != [])
            && (s.lists[b].flag <==> Armed(s.log, b))
  {
    RunsKeepInvariant(states, i);
    hide Run;
    assert ListKept(states[i], b);
  }

  // What is sent is a beginning of what is pushed, and what is pushed answers the requests one by one, in order, with
  // the transaction id of each; besides there are only the greeting and the announcements.
  lemma RepliesMatchRequests(states: seq<Agent>, i: nat)
    requires Run(states) && i < |states|
    ensures var s := states[i];
            && s.sent <= Flatten(s.pushed)
            && (forall m :: m in s.pushed ==> |m| >= HEADER_SIZE)
            && Tags(s.pushed) == Expected(s.log)
  {
    RunsKeepInvariant(states, i);
    hide Run, Flatten, Tags, Expected;
    assert states[i].sent + states[i].outbuf == Flatten(states[i].pushed);
  }

  // A configuration asked for at the very start is answered with a length field that is not its length, so that the
  // run's output does not divide into its messages.
  lemma FirstConfigReplyIsNotFramed(id: nat, xid: seq<Octet>)
    requires |xid| == 4
    ensures var ask := Header(OFPT_GET_CONFIG_REQUEST, 8, xid);
            && CanRead(Init(id), ask) && Run([Init(id), ReadChunk(Init(id), ask)])
            && var s := ReadChunk(Init(id), ask);
               var b := s.sent + s.outbuf;
               !(Sound(b) && Frames(b) == Framing(s.pushed, []))
    ensures HeaderLength(ConfigReply(INITIAL_CONFIG, xid)) == 3072 && |ConfigReply(INITIAL_CONFIG, xid)| == 12
  {
    ConfigReplyFields(INITIAL_CONFIG, xid);
    var ask, s := Header(OFPT_GET_CONFIG_REQUEST, 8, xid), Init(id);
    AskIsOneMessage(xid);
    hide Handle, Header, Init, Frames, Sound, Acceptable, ConfigsFramed;
    InitShape(id);
    AskedTooSoon(id, ask);
    var t := ReadChunk(s, ask);
    OneStep(id, ask);
    OutputDividesIntoMessages([s, t], 1);
  }

  lemma AskIsOneMessage(xid: seq<Octet>)
    requires |xid| == 4
    ensures var ask := Header(OFPT_GET_CONFIG_REQUEST, 8, xid);
            Sound(ask) && Frames(ask) == Framing([ask], []) && Acceptable(ask) && AsksConfig(Dispatched(ask))
  {
    hide Header;
    var ask := Header(OFPT_GET_CONFIG_REQUEST, 8, xid);
    FramesStep(ask);
    assert ask[8..] == [] && ask[..8] == ask;
    FramesEnd([]);
    assert [ask] + [] == [ask];
  }

  lemma OneStep(id: nat, chunk: seq<Octet>)
    requires CanRead(Init(id), chunk)
    ensures Run([Init(id), ReadChunk(Init(id), chunk)])
  {
    var s := Init(id);
    var states := [s, ReadChunk(s, chunk)];
    hide CanRead, ReadChunk, Init;
    InitShape(id);
    assert Step(states[0], states[0 + 1]);
  }

  lemma InitShape(id: nat)
    ensures |Init(id).lists| == LISTS && |Init(id).config| == 12 && Init(id).log == [] && Init(id).inbuf == []
  {
  }

  lemma AskedTooSoon(id: nat, ask: seq<Octet>)
    requires Sound(ask) && Frames(ask) == Framing([ask], []) && Acceptable(ask) && AsksConfig(Dispatched(ask))
    ensures CanRead(Init(id), ask) && !ConfigsFramed(ReadChunk(Init(id), ask).log)
  {
    hide Init, Acceptable, Frames, Sound, Handle;
    InitShape(id);
    assert [] + ask == ask;
    var s := Init(id).(received := Init(id).received + ask, inbuf := []);
    HandleConfigLog(s, ask);
    assert HandleAll(s, [ask]) == Handle(s, ask);
  }
}
