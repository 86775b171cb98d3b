/** What the switch agent remembers of the controller's messages: in every run its flow directory follows the FLOW_MODs,
    its configuration the SET_CONFIGs, and its transaction ids count its announcements. */
module SwitchAgentMemory {
  import opened Optional
  import opened OpenFlow
  import opened Actions
  import opened SwitchAgent

  // ---------- The messages that are remembered ----------

  // A flow of the directory, or the configuration.
  datatype Subject = Flow(key: Key) | Config

  function Word(a: int, b: int, c: int, d: int): int {
    0x100_0000 * a + 0x1_0000 * b + 0x100 * c + d
  }

  // An OFPT_FLOW_MOD with a buffer whose match has the five fields of a key (section 5.3.3 of the OpenFlow Switch
  // Specification 1.0.0): buffer_id at 64, nw_proto at 33, nw_src at 36, nw_dst at 40, tp_src at 44, tp_dst at 46.
  predicate Installs(m: seq<Octet>, k: Key) {
    && |m| >= 72 && m[1] == 14 && m[64..68] != [255, 255, 255, 255]
    && Word(m[36], m[37], m[38], m[39]) == k.srcAddr && Word(m[40], m[41], m[42], m[43]) == k.dstAddr
    && Word(0, 0, m[44], m[45]) == k.srcPort && Word(0, 0, m[46], m[47]) == k.dstPort
    && m[33] == k.proto
  }

  // An OFPT_SET_CONFIG.
  predicate Configures(m: seq<Octet>) {
    |m| >= 12 && m[1] == 9
  }

  predicate Concerns(e: Event, what: Subject): (yes: bool)
    ensures yes ==> e.Dispatched?
  {
    e.Dispatched? &&
    match what
    case Flow(k) => Installs(e.message, k)
    case Config => Configures(e.message)
  }

  lemma InstallsItsKey(m: seq<Octet>, k: Key)
    requires |m| >= 72
    ensures Installs(m, k) <==> MessageType(m) == OFPT_FLOW_MOD && BufferId(m) != NO_BUFFER && MatchKey(m) == k
  {
  }

  // The latest message of a log about something.
  function Latest(log: seq<Event>, what: Subject): Option<seq<Octet>> {
    if log == [] then None
    else
      var e := log[|log| - 1];
      if Concerns(e, what) then Some(e.message) else Latest(log[..|log| - 1], what)
  }

  lemma LatestSnoc(log: seq<Event>, e: Event, what: Subject)
    ensures Latest(log + [e], what) == if Concerns(e, what) then Some(e.message) else Latest(log, what)
  {
    assert (log + [e])[..|log|] == log;
  }

  ghost predicate IsLatest(log: seq<Event>, what: Subject, n: nat) {
    n < |log| && Concerns(log[n], what) && forall later :: n < later < |log| ==> !Concerns(log[later], what)
  }

  lemma {:induction false} LatestIsLatest(log: seq<Event>, what: Subject)
    ensures Latest(log, what).Some? <==> exists n :: 0 <= n < |log| && Concerns(log[n], what)
    ensures forall n: nat :: IsLatest(log, what, n) ==> Latest(log, what) == Some(log[n].message)
  {
    hide Concerns;
    if log == [] {
    } else {
      var rest := log[..|log| - 1];
      LatestIsLatest(rest, what);
      assert forall n :: 0 <= n < |rest| ==> rest[n] == log[n];
      forall n: nat | IsLatest(log, what, n)
        ensures Latest(log, what) == Some(log[n].message)
      {
        assert n < |rest| ==> IsLatest(rest, what, n);
      }
    }
  }

  function Announcements(log: seq<Event>): nat {
    if log == [] then 0 else Announcements(log[..|log| - 1]) + if log[|log| - 1].Announced? then 1 else 0
  }

  lemma AnnouncementsSnoc(log: seq<Event>, e: Event)
    ensures Announcements(log + [e]) == Announcements(log) + if e.Announced? then 1 else 0
  {
    assert (log + [e])[..|log|] == log;
  }

  // ---------- What is kept ----------

  // What the directory has to hold for a flow.
  ghost predicate ChainIs(chains: map<Key, seq<Entry>>, k: Key, latest: Option<seq<Octet>>) {
    match latest
    case None => k !in chains
    case Some(m) => |m| >= 72 && WellFormed(m[72..]) && k in chains && chains[k] == Extract(m[72..])
  }

  // The type and the transaction id of the configuration are overwritten by each reply, the rest stays.
  ghost predicate ConfigIs(config: seq<Octet>, latest: Option<seq<Octet>>) {
    && |config| == 12
    && match latest
       case None => config[0] == 1 && config[2..4] == [12, 0] && config[8..] == [0, 0, 0, 0]
       case Some(m) => |m| >= 12 && config[0] == m[0] && config[2..4] == m[2..4] && config[8..] == m[8..12]
  }

  ghost predicate Numbered(log: seq<Event>) {
    forall i :: 0 <= i < |log| && log[i].Announced? ==> log[i].xid == 1 + Announcements(log[..i])
  }

  ghost predicate Remembers(s: Agent) {
    && (forall k :: ChainIs(s.chains, k, Latest(s.log, Flow(k))))
    && ConfigIs(s.config, Latest(s.log, Config))
    && Numbered(s.log) && s.xid == 1 + Announcements(s.log)
  }

  // One more event that is remembered as it should be.
  lemma RemembersEvent(s: Agent, t: Agent, e: Event)
    requires Remembers(s) && t.log == s.log + [e]
    requires forall k :: if Concerns(e, Flow(k)) then ChainIs(t.chains, k, Some(e.message))
                         else (k in t.chains <==> k in s.chains) && (k in s.chains ==> t.chains[k] == s.chains[k])
    requires if Concerns(e, Config) then ConfigIs(t.config, Some(e.message))
             else forall latest :: ConfigIs(s.config, latest) ==> ConfigIs(t.config, latest)
    requires t.xid == s.xid + if e.Announced? then 1 else 0
    requires e.Announced? ==> e.xid == s.xid
    ensures Remembers(t)
  {
    hide Concerns, Latest, WellFormed, Extract, Announcements, ConfigIs;
    forall k
      ensures ChainIs(t.chains, k, Latest(t.log, Flow(k)))
    {
      LatestSnoc(s.log, e, Flow(k));
      assert ChainIs(s.chains, k, Latest(s.log, Flow(k)));
    }
    LatestSnoc(s.log, e, Config);
    AnnouncementsSnoc(s.log, e);
    NumberedSnoc(s.log, e);
  }

  lemma NumberedSnoc(log: seq<Event>, e: Event)
    requires Numbered(log) && (e.Announced? ==> e.xid == 1 + Announcements(log))
    ensures Numbered(log + [e])
  {
    hide Announcements;
    assert (log + [e])[..|log|] == log;
    assert forall i :: 0 <= i < |log| ==> (log + [e])[..i] == log[..i];
  }

  lemma HandleMemory(s: Agent, m: seq<Octet>)
    requires Acceptable(m) && |s.lists| == LISTS && |s.config| == 12
    ensures var t, log, kind := Handle(s, m), s.log + [Dispatched(m)], MessageType(m);
            && t.xid == s.xid
            && t.config == (if kind == OFPT_SET_CONFIG then m[..12]
                            else if kind == OFPT_GET_CONFIG_REQUEST then ConfigReply(s.config, Xid(m)) else s.config)
            && if kind == OFPT_FLOW_MOD && BufferId(m) != NO_BUFFER
               then t.chains == s.chains[MatchKey(m) := Extract(m[72..])] && t.log == log + [Flushed(BufferId(m))]
               else t.chains == s.chains && t.log == log
  {
    hide FeaturesReply, VendorReply, StatsReply, ConfigReply, EmptyReply, Extract, MatchKey;
  }

  lemma ConfigReplyKeeps(config: seq<Octet>, xid: seq<Octet>)
    requires |config| == 12 && |xid| == 4
    ensures forall latest :: ConfigIs(config, latest) ==> ConfigIs(ConfigReply(config, xid), latest)
  {
    var r := ConfigReply(config, xid);
    assert r[0] == config[0] && r[2..4] == config[2..4] && r[8..] == config[8..];
  }

  lemma ConcernsByType(m: seq<Octet>)
    requires Acceptable(m)
    ensures Concerns(Dispatched(m), Config) <==> MessageType(m) == OFPT_SET_CONFIG
    ensures MessageType(m) == OFPT_SET_CONFIG ==> ConfigIs(m[..12], Some(m))
    ensures forall k :: Concerns(Dispatched(m), Flow(k)) <==>
                          MessageType(m) == OFPT_FLOW_MOD && BufferId(m) != NO_BUFFER && MatchKey(m) == k
  {
    hide MatchKey, WellFormed, Installs;
    forall k
      ensures Concerns(Dispatched(m), Flow(k)) <==>
                MessageType(m) == OFPT_FLOW_MOD && BufferId(m) != NO_BUFFER && MatchKey(m) == k
    {
      if |m| >= 72 {
        InstallsItsKey(m, k);
      } else {
        TooShort(m, k);
      }
    }
  }

  lemma TooShort(m: seq<Octet>, k: Key)
    requires |m| < 72
    ensures !Installs(m, k)
  {
  }

  lemma FlushedIsNoMessage(b: nat)
    ensures forall what :: !Concerns(Flushed(b), what)
  {
  }

  lemma AnnouncedIsNoMessage(b: nat, xid: nat)
    ensures forall what :: !Concerns(Announced(b, xid), what)
  {
  }

  lemma FlowModMemory(m: seq<Octet>)
    requires Acceptable(m)
    ensures |m| >= HEADER_SIZE
    ensures MessageType(m) == OFPT_FLOW_MOD ==> |m| >= 72 && (BufferId(m) != NO_BUFFER ==> WellFormed(m[72..]))
  {
    hide WellFormed;
  }

  lemma HandleRemembers(s: Agent, m: seq<Octet>)
    requires Remembers(s) && Acceptable(m) && |s.lists| == LISTS && |s.config| == 12
    ensures Remembers(Handle(s, m))
  {
    hide Handle, Remembers, Concerns, Acceptable, Extract, WellFormed, MatchKey, ConfigReply, ConfigIs;
    FlowModMemory(m);
    var t, e, kind := Handle(s, m), Dispatched(m), MessageType(m);
    HandleMemory(s, m);
    ConcernsByType(m);
    ConfigReplyKeeps(s.config, Xid(m));
    var u := t.(log := s.log + [e]);
    RemembersEvent(s, u, e);
    if kind == OFPT_FLOW_MOD && BufferId(m) != NO_BUFFER {
      FlushedIsNoMessage(BufferId(m));
      RemembersEvent(u, t, Flushed(BufferId(m)));
    }
  }

  lemma {:induction false} HandleAllRemembers(s: Agent, ms: seq<seq<Octet>>)
    requires (forall m :: m in ms ==> Acceptable(m)) && |s.lists| == LISTS && |s.config| == 12
    requires Remembers(s)
    ensures Remembers(HandleAll(s, ms))
    decreases |ms|
  {
    hide Handle, Remembers, Acceptable;
    if ms == [] {
    } else {
      HandleRemembers(s, ms[0]);
      HandleAllRemembers(Handle(s, ms[0]), ms[1..]);
    }
  }

  lemma SameMemory(s: Agent, t: Agent)
    requires Remembers(s) && t.log == s.log && t.chains == s.chains && t.config == s.config && t.xid == s.xid
    ensures Remembers(t)
  {
    hide ChainIs, ConfigIs, Latest, Numbered, Announcements;
  }

  lemma TakeRemembers(s: Agent, slot: nat)
    requires Remembers(s) && (s.ready && s.ring != [] ==> slot < |s.lists|)
    ensures Remembers(TakePacket(s, slot))
  {
    hide Remembers, Concerns, PacketIn, ConfigIs;
    var t := TakePacket(s, slot);
    if t.log == s.log {
      SameMemory(s, t);
    } else {
      AnnouncedIsNoMessage(slot, s.xid);
      RemembersEvent(s, t, Announced(slot, s.xid));
    }
  }

  lemma ReadRemembers(s: Agent, chunk: seq<Octet>)
    requires Remembers(s) && CanRead(s, chunk) && |s.lists| == LISTS && |s.config| == 12
    ensures Remembers(ReadChunk(s, chunk))
  {
    hide Remembers, HandleAll, Frames, Sound, Acceptable;
    var f := Frames(s.inbuf + chunk);
    var t := s.(received := s.received + chunk, inbuf := f.rest);
    SameMemory(s, t);
    HandleAllRemembers(t, f.messages);
  }

  lemma StepRemembers(s: Agent, t: Agent)
    requires Remembers(s) && Step(s, t)
    ensures Remembers(t)
  {
    hide Remembers, TakePacket, ReadChunk, CanRead, SlotFor;
    if MissStep(s, t) {
      SameMemory(s, t);
    } else if ReadStep(s, t) {
      var chunk :| CanRead(s, chunk) && t == ReadChunk(s, chunk);
      ReadRemembers(s, chunk);
    } else {
      var slot: nat, n: nat :| WriteStep(s, slot, n, t);
      TakeRemembers(s, slot);
      SameMemory(TakePacket(s, slot), t);
    }
  }

  lemma InitRemembers(id: nat)
    ensures Remembers(Init(id))
  {
    hide EmptyReply;
  }

  lemma {:induction false} RunsRemember(states: seq<Agent>, i: nat)
    requires Run(states) && i < |states|
    ensures Remembers(states[i])
  {
    hide Step, Remembers, Init;
    if i == 0 {
      var id: nat :| states[0] == Init(id);
      InitRemembers(id);
    } else {
      RunsRemember(states, i - 1);
      assert Step(states[i - 1], states[i - 1 + 1]);
      StepRemembers(states[i - 1], states[i]);
    }
  }

  // ---------- What it means ----------

  /** In every run the directory has an entry for a flow exactly when a FLOW_MOD with a buffer has been dispatched whose
      match has the five fields of the flow, and the chain is that of the actions of the latest such message. */
  lemma DirectoryFollowsFlowMods(states: seq<Agent>, i: nat, k: Key)
    requires Run(states) && i < |states|
    ensures var s := states[i];
            && (k in s.chains <==> exists n :: 0 <= n < |s.log| && Concerns(s.log[n], Flow(k)))
            && forall n: nat :: IsLatest(s.log, Flow(k), n) ==>
                                  && WellFormed(s.log[n].message[72..]) && k in s.chains
                                  && s.chains[k] == Extract(s.log[n].message[72..])
  {
    RunsRemember(states, i);
    hide Run, Latest, Installs, WellFormed, Extract, Numbered, ConfigIs, IsLatest;
    var s := states[i];
    LatestIsLatest(s.log, Flow(k));
    assert ChainIs(s.chains, k, Latest(s.log, Flow(k)));
    IsLatestConcerns(s.log, Flow(k));
  }

  lemma IsLatestConcerns(log: seq<Event>, what: Subject)
    ensures forall n: nat :: IsLatest(log, what, n) ==> n < |log| && Concerns(log[n], what)
  {
    hide Concerns;
  }

  /** In every run a request for the configuration is answered with the version, the length field, the flags and the miss
      length of the latest SET_CONFIG, whatever was asked in between; before the first of them, with no flags and a length
      in host order. */
  lemma ConfigFollowsSetConfigs(states: seq<Agent>, i: nat, m: seq<Octet>)
    requires Run(states) && i < |states| && Acceptable(m) && m[1] == 7
    ensures var s := states[i];
            && |s.lists| == LISTS && |s.config| == 12
            && ((forall n :: 0 <= n < |s.log| ==> !Concerns(s.log[n], Config)) ==>
                  Handle(s, m).pushed == s.pushed + [[1, 8, 12, 0] + m[4..8] + [0, 0, 0, 0]])
            && forall n: nat :: IsLatest(s.log, Config, n) ==>
                                  var c := s.log[n].message;
                                  |c| >= 12 &&
                                  Handle(s, m).pushed == s.pushed + [[c[0], 8] + c[2..4] + m[4..8] + c[8..12]]
  {
    RunsRemember(states, i);
    RunShape(states, i);
    hide Run, Latest, Installs, Numbered, IsLatest, ChainIs;
    var s := states[i];
    LatestIsLatest(s.log, Config);
    IsLatestConcerns(s.log, Config);
    assert ConfigIs(s.config, Latest(s.log, Config));
    ConfigAnswer(s, m);
    hide Handle, ConfigReply;
    assert [1, 8] + [12, 0] == [1, 8, 12, 0];
  }

  lemma ConfigAnswer(s: Agent, m: seq<Octet>)
    requires Acceptable(m) && m[1] == 7 && |s.lists| == LISTS && |s.config| == 12
    ensures Handle(s, m).pushed == s.pushed + [[s.config[0], 8] + s.config[2..4] + m[4..8] + s.config[8..]]
  {
  }

  lemma {:induction false} RunShape(states: seq<Agent>, i: nat)
    requires Run(states) && i < |states|
    ensures |states[i].lists| == LISTS && |states[i].config| == 12
  {
    hide Step, Init, SlotFor;
    if i == 0 {
      var id: nat :| states[0] == Init(id);
      InitShape(id);
    } else {
      RunShape(states, i - 1);
      assert Step(states[i - 1], states[i - 1 + 1]);
      StepShape(states[i - 1], states[i]);
    }
  }

  lemma InitShape(id: nat)
    ensures |Init(id).lists| == LISTS && |Init(id).config| == 12
  {
  }

  lemma StepShape(s: Agent, t: Agent)
    requires Step(s, t)
    ensures |t.lists| == LISTS && |t.config| == 12
  {
    hide Frames, Sound, Acceptable, PacketIn;
  }

  /** In every run the announcements have the transaction ids 1, 2, 3 and so on. */
  lemma AnnouncementsAreNumbered(states: seq<Agent>, i: nat, m: nat)
    requires Run(states) && i < |states| && m < |states[i].log| && states[i].log[m].Announced?
    ensures states[i].log[m].xid == 1 + Announcements(states[i].log[..m])
  {
    RunsRemember(states, i);
    hide Run;
  }
}
