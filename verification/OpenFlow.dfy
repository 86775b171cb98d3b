/** OpenFlow 1.0 messages as byte sequences: how a stream divides into messages (section 5.1 of the OpenFlow
    Switch Specification 1.0.0) and the replies that examples/flow_table/sdn.c makes. */
module OpenFlow {

  type Octet = x: int | 0 <= x < 256

  // ---------- Big-endian fields ----------

  function Get16(b: seq<Octet>, at: nat): (v: nat)
    requires at + 2 <= |b|
    ensures v < 0x1_0000
  {
    var high: int, low: int := b[at], b[at + 1];
    256 * high + low
  }

  function Get32(b: seq<Octet>, at: nat): (v: nat)
    requires at + 4 <= |b|
    ensures v < 0x1_0000_0000
  {
    0x1_0000 * Get16(b, at) + Get16(b, at + 2)
  }

  function Put16(v: nat): (b: seq<Octet>)
    ensures |b| == 2 && Get16(b, 0) == v % 0x1_0000
  {
    var w := v % 0x1_0000;
    [w / 256, w % 256]
  }

  function Put32(v: nat): (b: seq<Octet>)
    ensures |b| == 4 && Get32(b, 0) == v % 0x1_0000_0000
  {
    var b := Put16(v / 0x1_0000) + Put16(v);
    assert b[0..2] == Put16(v / 0x1_0000) && b[2..4] == Put16(v);
    b
  }

  lemma Put16Bytes(w: nat)
    ensures Put16(w) == [w / 0x100 % 256, w % 256]
  {
    var a, r := w / 0x1_0000, w % 0x1_0000;
    assert w == 256 * (256 * a + r / 256) + r % 256;
  }

  // A number in four bytes, high byte first.
  function Bytes32(v: nat): (b: seq<Octet>) {
    [v / 0x100_0000 % 256, v / 0x1_0000 % 256, v / 0x100 % 256, v % 256]
  }

  lemma Put32Bytes(v: nat)
    ensures Put32(v) == Bytes32(v)
  {
    hide Put16;
    Put16Bytes(v / 0x1_0000);
    Put16Bytes(v);
    assert v / 0x1_0000 / 0x100 == v / 0x100_0000;
  }

  // ---------- Headers ----------

  const HEADER_SIZE := 8

  function HeaderLength(b: seq<Octet>): nat
    requires |b| >= HEADER_SIZE
  {
    Get16(b, 2)
  }

  function MessageType(b: seq<Octet>): Octet
    requires |b| >= HEADER_SIZE
  {
    b[1]
  }

  function Xid(b: seq<Octet>): (x: seq<Octet>)
    requires |b| >= HEADER_SIZE
    ensures |x| == 4
  {
    b[4..8]
  }

  // A message whose header carries its own length.
  predicate SelfFramed(m: seq<Octet>) {
    |m| >= HEADER_SIZE && HeaderLength(m) == |m|
  }

  // ---------- Dividing a stream into messages ----------

  datatype Framing = Framing(messages: seq<seq<Octet>>, rest: seq<Octet>)

  // Every header the division comes to announces at least a header.
  predicate Sound(b: seq<Octet>)
    decreases |b|
  {
    |b| >= HEADER_SIZE ==>
      var n := HeaderLength(b);
      n >= HEADER_SIZE && (n <= |b| ==> Sound(b[n..]))
  }

  function Frames(b: seq<Octet>): (f: Framing)
    requires Sound(b)
    ensures |f.rest| <= |b|
    decreases |b|
  {
    if |b| < HEADER_SIZE || |b| < HeaderLength(b) then Framing([], b)
    else
      var n := HeaderLength(b);
      var f := Frames(b[n..]);
      Framing([b[..n]] + f.messages, f.rest)
  }

  function Flatten(ms: seq<seq<Octet>>): seq<Octet> {
    if ms == [] then [] else ms[0] + Flatten(ms[1..])
  }

  lemma Regroup(a: seq<Octet>, b: seq<Octet>, c: seq<Octet>)
    ensures a + (b + c) == (a + b) + c
  {
  }

  lemma {:induction false} FlattenAppend(s: seq<seq<Octet>>, t: seq<seq<Octet>>)
    ensures Flatten(s + t) == Flatten(s) + Flatten(t)
  {
    if s == [] {
      assert s + t == t;
    } else {
      FlattenAppend(s[1..], t);
      assert (s + t)[1..] == s[1..] + t;
      Regroup(s[0], Flatten(s[1..]), Flatten(t));
    }
  }

  // Every message is framed by its own header, and what is left is not a whole message.
  lemma {:induction false} FramesAreFramed(b: seq<Octet>)
    requires Sound(b)
    ensures forall m :: m in Frames(b).messages ==> SelfFramed(m)
    ensures var rest := Frames(b).rest; Sound(rest) && (|rest| < HEADER_SIZE || |rest| < HeaderLength(rest))
    decreases |b|
  {
    if !Whole(b) {
    } else {
      var n := HeaderLength(b);
      FramesAreFramed(b[n..]);
      assert SelfFramed(b[..n]);
    }
  }

  lemma HeaderOfPrefix(a: seq<Octet>, b: seq<Octet>)
    requires |a| >= HEADER_SIZE
    ensures HeaderLength(a + b) == HeaderLength(a)
  {
  }

  predicate Whole(b: seq<Octet>) {
    |b| >= HEADER_SIZE && HeaderLength(b) <= |b|
  }

  // One step of the division, and one step of checking it.
  lemma FramesStep(b: seq<Octet>)
    requires Whole(b)
    ensures Sound(b) <==> HeaderLength(b) >= HEADER_SIZE && Sound(b[HeaderLength(b)..])
    ensures Sound(b) ==>
              var f := Frames(b[HeaderLength(b)..]);
              Frames(b) == Framing([b[..HeaderLength(b)]] + f.messages, f.rest)
  {
  }

  lemma FramesEnd(b: seq<Octet>)
    requires !Whole(b)
    ensures Sound(b) <==> (|b| >= HEADER_SIZE ==> HeaderLength(b) >= HEADER_SIZE)
    ensures Sound(b) ==> Frames(b) == Framing([], b)
  {
  }

  // What has been dispatched and what is left make up the stream.
  lemma {:induction false} FramesPartition(b: seq<Octet>)
    requires Sound(b)
    ensures Flatten(Frames(b).messages) + Frames(b).rest == b
    decreases |b|
  {
    hide Frames, Sound, HeaderLength;
    if !Whole(b) {
      FramesEnd(b);
    } else {
      FramesStep(b);
      var n := HeaderLength(b);
      var f := Frames(b[n..]);
      FramesPartition(b[n..]);
      assert ([b[..n]] + f.messages)[1..] == f.messages;
      Regroup(b[..n], Flatten(f.messages), f.rest);
      assert b == b[..n] + b[n..];
    }
  }

  // Framing goes on from what an earlier read left over.
  lemma {:induction false} FramesAppend(a: seq<Octet>, b: seq<Octet>)
    requires Sound(a + b)
    ensures Sound(a) && Sound(Frames(a).rest + b)
    ensures Frames(a + b) == Framing(Frames(a).messages + Frames(Frames(a).rest + b).messages,
                                     Frames(Frames(a).rest + b).rest)
    decreases |a|
  {
    hide HeaderLength, Frames, Sound;
    if |a| >= HEADER_SIZE {
      HeaderOfPrefix(a, b);
    }
    if Whole(a + b) {
      FramesStep(a + b);
    } else {
      FramesEnd(a + b);
    }
    if Whole(a) {
      var n := HeaderLength(a);
      FramesStep(a);
      assert (a + b)[n..] == a[n..] + b && (a + b)[..n] == a[..n];
      FramesAppend(a[n..], b);
      var f, g := Frames(a[n..]), Frames(Frames(a[n..]).rest + b);
      assert [a[..n]] + (f.messages + g.messages) == ([a[..n]] + f.messages) + g.messages;
    } else {
      FramesEnd(a);
      assert [] + Frames(a + b).messages == Frames(a + b).messages;
    }
  }

  // A stream of messages divides into exactly those messages if and only if each header carries the length of
  // its message.
  lemma {:induction false} FlattenFrames(ms: seq<seq<Octet>>)
    requires forall m :: m in ms ==> |m| >= HEADER_SIZE && HeaderLength(m) >= HEADER_SIZE
    ensures (forall m :: m in ms ==> SelfFramed(m)) ==>
              Sound(Flatten(ms)) && Frames(Flatten(ms)) == Framing(ms, [])
    ensures Sound(Flatten(ms)) && Frames(Flatten(ms)) == Framing(ms, []) ==>
              forall m :: m in ms ==> SelfFramed(m)
  {
    if ms == [] {
      FramesEnd([]);
    } else {
      hide Frames, Sound, HeaderLength;
      var m, rest := ms[0], Flatten(ms[1..]);
      var b := m + rest;
      var n := HeaderLength(m);
      FlattenFrames(ms[1..]);
      HeaderOfPrefix(m, rest);
      assert ms == [m] + ms[1..];
      if n <= |b| {
        FramesStep(b);
        assert |b[..n]| == n;
        if SelfFramed(m) {
          assert b[..n] == m && b[n..] == rest;
        }
      } else {
        FramesEnd(b);
      }
    }
  }
}
