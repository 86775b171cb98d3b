/** flow_action_extract of examples/flow_table/sdn.c: the actions of a FLOW_MOD become a service chain. */
module Actions {
  import opened OpenFlow

  const OFPAT_OUTPUT := 0
  const OFPAT_ENQUEUE := 11

  // An entry of a service chain.
  datatype Entry = Drop | Out(port: nat) | ToNf(destination: nat)

  // ---------- Actions and their encoding, section 5.2.4 of the OpenFlow Switch Specification 1.0.0 ----------

  datatype Action =
    | Output(port: nat, maxLen: nat)
    | Enqueue(port: nat, queueId: nat)
    | Other(kind: nat, body: seq<Octet>)

  // Fields within their width; other actions keep the total length a multiple of eight.
  predicate ActionOk(a: Action) {
    match a
    case Output(port, maxLen) => port < 0x1_0000 && maxLen < 0x1_0000
    case Enqueue(port, queueId) => port < 0x1_0000 && queueId < 0x1_0000_0000
    case Other(kind, body) =>
      kind < 0x1_0000 && kind != OFPAT_OUTPUT && kind != OFPAT_ENQUEUE && |body| % 8 == 4 && |body| + 4 < 0x1_0000
  }

  function Encode(a: Action): seq<Octet> {
    match a
    case Output(port, maxLen) => Put16(OFPAT_OUTPUT) + Put16(8) + Put16(port) + Put16(maxLen)
    case Enqueue(port, queueId) => Put16(OFPAT_ENQUEUE) + Put16(16) + Put16(port) + [0, 0, 0, 0, 0, 0] + Put32(queueId)
    case Other(kind, body) => Put16(kind) + Put16(|body| + 4) + body
  }

  function EncodeAll(list: seq<Action>): seq<Octet> {
    if list == [] then [] else Encode(list[0]) + EncodeAll(list[1..])
  }

  // What each action adds to the chain.
  function EntryOf(a: Action): seq<Entry> {
    match a
    case Output(port, _) => [Out(port)]
    case Enqueue(_, queueId) => [ToNf(queueId % 0x1_0000)]
    case Other(_, _) => []
  }

  function EntriesOf(list: seq<Action>): seq<Entry> {
    if list == [] then [] else EntryOf(list[0]) + EntriesOf(list[1..])
  }

  // ---------- The code ----------

  // Lengths that lead from action to action and end where the list ends; an ENQUEUE has all its fields.
  predicate WellFormed(b: seq<Octet>)
    decreases |b|
  {
    b != [] ==>
      && |b| >= 8
      && (var n := Get16(b, 2); 8 <= n <= |b| && (Get16(b, 0) == OFPAT_ENQUEUE ==> n >= 16) && WellFormed(b[n..]))
  }

  // The entries that the loop appends from b on.
  function Walk(b: seq<Octet>): seq<Entry>
    requires WellFormed(b)
    decreases |b|
  {
    if b == [] then []
    else FirstEntry(b) + Walk(b[Get16(b, 2)..])
  }

  function FirstEntry(b: seq<Octet>): seq<Entry>
    requires |b| >= 8 && (Get16(b, 0) == OFPAT_ENQUEUE ==> |b| >= 16)
  {
    if Get16(b, 0) == OFPAT_OUTPUT then [Out(Get16(b, 4))]
    else if Get16(b, 0) == OFPAT_ENQUEUE then [ToNf(Get32(b, 12) % 0x1_0000)]
    else []
  }

  function Extract(b: seq<Octet>): seq<Entry>
    requires WellFormed(b)
  {
    if b == [] then [Drop] else Walk(b)
  }

  // The entry the loop appends at position p.
  function EntryAt(actions: seq<Octet>, p: nat): seq<Entry>
    requires p + 8 <= |actions| && (Get16(actions, p) == OFPAT_ENQUEUE ==> p + 16 <= |actions|)
  {
    if Get16(actions, p) == OFPAT_OUTPUT then [Out(Get16(actions, p + 4))]
    else if Get16(actions, p) == OFPAT_ENQUEUE then [ToNf(Get32(actions, p + 12) % 0x1_0000)]
    else []
  }

  lemma TailWord(actions: seq<Octet>, p: nat)
    requires p <= |actions|
    ensures |actions[p..]| >= 16 ==> Get32(actions[p..], 12) == Get32(actions, p + 12)
  {
  }

  lemma WalkStep(actions: seq<Octet>, p: nat)
    requires p < |actions| && WellFormed(actions[p..])
    ensures p + 8 <= |actions|
    ensures var n := Get16(actions, p + 2);
            && 8 <= n <= |actions| - p && (Get16(actions, p) == OFPAT_ENQUEUE ==> p + 16 <= |actions|)
            && WellFormed(actions[p + n..])
            && Walk(actions[p..]) == EntryAt(actions, p) + Walk(actions[p + n..])
  {
    var rest := actions[p..];
    var n := Get16(actions, p + 2);
    hide Get32;
    assert |rest| >= 16 ==> Get32(rest, 12) == Get32(actions, p + 12) by { TailWord(actions, p); }
    assert |rest| >= 8 && Get16(rest, 4) == Get16(actions, p + 4);
    assert Get16(rest, 2) == n && Get16(rest, 0) == Get16(actions, p);
    assert rest[n..] == actions[p + n..];
  }

  lemma WalkEnd()
    ensures WellFormed([]) && Walk([]) == []
  {
  }

  method FlowActionExtract(actions: seq<Octet>) returns (chain: seq<Entry>)
    requires WellFormed(actions)
    ensures chain == Extract(actions)
  {
    hide Walk, WellFormed, Get16, Get32;
    WalkEnd();
    assert actions[0..] == actions;
    chain := [];
    var actionsLen := |actions|;
    if actionsLen == 0 {
      chain := chain + [Drop];
    } else {
      var p := 0;
      while actionsLen > 0
        invariant actionsLen == |actions| - p && 0 <= p <= |actions|
        invariant WellFormed(actions[p..])
        invariant chain + Walk(actions[p..]) == Walk(actions)
      {
        WalkStep(actions, p);
        var len := Get16(actions, p + 2);
        ghost var before := chain;
        if Get16(actions, p) == OFPAT_OUTPUT {
          chain := chain + [Out(Get16(actions, p + 4))];
        } else if Get16(actions, p) == OFPAT_ENQUEUE {
          chain := chain + [ToNf(Get32(actions, p + 12) % 0x1_0000)];
        }
        assert chain == before + EntryAt(actions, p);
        assert before + (EntryAt(actions, p) + Walk(actions[p + len..])) == chain + Walk(actions[p + len..]);
        p := p + len;
        actionsLen := actionsLen - len;
      }
      assert actions[p..] == [] && chain + [] == chain;
    }
  }

  // ---------- Encoding and extracting ----------

  lemma OutputFields(port: nat, maxLen: nat, tail: seq<Octet>)
    requires port < 0x1_0000
    ensures var b := Encode(Output(port, maxLen)) + tail;
            Get16(b, 0) == OFPAT_OUTPUT && Get16(b, 2) == 8 && Get16(b, 4) == port
  {
    var b := Encode(Output(port, maxLen)) + tail;
    assert b[0..2] == Put16(OFPAT_OUTPUT) && b[2..4] == Put16(8) && b[4..6] == Put16(port);
  }

  lemma EnqueueFields(port: nat, queueId: nat, tail: seq<Octet>)
    requires queueId < 0x1_0000_0000
    ensures var b := Encode(Enqueue(port, queueId)) + tail;
            Get16(b, 0) == OFPAT_ENQUEUE && Get16(b, 2) == 16 && Get32(b, 12) == queueId
  {
    var b := Encode(Enqueue(port, queueId)) + tail;
    assert b[0..2] == Put16(OFPAT_ENQUEUE) && b[2..4] == Put16(16) && b[12..16] == Put32(queueId);
  }

  lemma OtherFields(kind: nat, body: seq<Octet>, tail: seq<Octet>)
    requires kind < 0x1_0000 && |body| + 4 < 0x1_0000
    ensures var b := Encode(Other(kind, body)) + tail; Get16(b, 0) == kind && Get16(b, 2) == |body| + 4
  {
    var b := Encode(Other(kind, body)) + tail;
    assert b[0..2] == Put16(kind) && b[2..4] == Put16(|body| + 4);
  }

  lemma EncodedFields(a: Action, tail: seq<Octet>)
    requires ActionOk(a)
    ensures var b := Encode(a) + tail;
            && |Encode(a)| >= 8 && Get16(b, 2) == |Encode(a)| && |Encode(a)| % 8 == 0
            && (Get16(b, 0) == OFPAT_ENQUEUE ==> |Encode(a)| >= 16)
            && FirstEntry(b) == EntryOf(a)
  {
    hide Get16, Get32;
    match a
    case Output(port, maxLen) => OutputFields(port, maxLen, tail);
    case Enqueue(port, queueId) => EnqueueFields(port, queueId, tail);
    case Other(kind, body) => OtherFields(kind, body, tail);
  }

  lemma {:induction false} WalkOfEncoded(list: seq<Action>)
    requires forall a :: a in list ==> ActionOk(a)
    ensures WellFormed(EncodeAll(list)) && Walk(EncodeAll(list)) == EntriesOf(list)
  {
    if list == [] {
    } else {
      var a, tail := list[0], EncodeAll(list[1..]);
      var b := EncodeAll(list);
      WalkOfEncoded(list[1..]);
      hide Encode, FirstEntry, EntryOf;
      EncodedFields(a, tail);
      assert b == Encode(a) + tail && b[|Encode(a)|..] == tail;
    }
  }

  // The two actions as they go over the wire.
  lemma ActionBytes(port: nat, maxLen: nat, queueId: nat)
    requires port < 0x1_0000 && maxLen < 0x1_0000 && queueId < 0x1_0000_0000
    ensures Encode(Output(port, maxLen)) == [0, 0, 0, 8, port / 256, port % 256, maxLen / 256, maxLen % 256]
    ensures Encode(Enqueue(port, queueId)) ==
            [0, 11, 0, 16, port / 256, port % 256, 0, 0, 0, 0, 0, 0] + Bytes32(queueId)
  {
    hide Put16, Put32, Bytes32;
    Put16Bytes(OFPAT_OUTPUT);
    Put16Bytes(OFPAT_ENQUEUE);
    Put16Bytes(8);
    Put16Bytes(16);
    Put16Bytes(port);
    Put16Bytes(maxLen);
    Put32Bytes(queueId);
  }

  // The OUTPUT and ENQUEUE actions come out in order, queue numbers modulo 2^16; only an empty list drops.
  lemma ExtractOfEncoded(list: seq<Action>)
    requires forall a :: a in list ==> ActionOk(a)
    ensures WellFormed(EncodeAll(list))
    ensures Extract(EncodeAll(list)) == if list == [] then [Drop] else EntriesOf(list)
  {
    WalkOfEncoded(list);
    if list != [] {
      EncodedFields(list[0], []);
      assert Encode(list[0]) + [] == Encode(list[0]);
      assert |EncodeAll(list)| > 0;
    }
  }
}
