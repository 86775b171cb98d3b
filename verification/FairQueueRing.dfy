/** One queue of examples/fair_queue/fair_queue_helper.h: a circular array in which an empty slot is the only sign that
    tells a full queue from an empty one, and the choice of a queue by the 5-tuple. */
module FairQueueRing {
  import opened Optional
  import FlowTable

  const QUEUE_SIZE: nat := 16384

  // A packet that is not IPv4 has no 5-tuple; the number tells packets of one flow apart.
  datatype Packet = Packet(tuple: Option<FlowTable.Key>, id: nat)

  datatype Slot = Null | Full(pkt: Packet)

  // rte_hash_crc_4byte: value, then the running hash.
  type Hash = (nat, nat) -> nat

  function TupleQueue(hash: Hash, k: FlowTable.Key, n: nat): (q: nat)
    requires n > 0
    ensures q < n
  {
    hash(k.dstPort, hash(k.srcPort, hash(k.dstAddr, hash(k.srcAddr, hash(k.proto, n))))) % n
  }

  function EnqueueQid(hash: Hash, p: Packet, n: nat): (q: int)
    requires n > 0
    ensures -1 <= q < n
    ensures q == -1 <==> p.tuple.None?
  {
    if p.tuple.None? then -1 else TupleQueue(hash, p.tuple.value, n)
  }

  // --- The choice of a queue ------------------------------------------------------------------------------------------

  // The fields of a 5-tuple in the order in which they are hashed.
  function Fields(k: FlowTable.Key): (f: seq<nat>) {
    [k.proto, k.srcAddr, k.dstAddr, k.srcPort, k.dstPort]
  }

  // A sequence of values is hashed one by one.
  function HashAll(hash: Hash, values: seq<nat>, start: nat): nat {
    if values == [] then start else hash(values[|values| - 1], HashAll(hash, values[..|values| - 1], start))
  }

  /** The queue of a packet is the hash of its five fields, in this order, modulo the number of queues; a packet without
      a 5-tuple has none. */
  lemma QueueIsHash(hash: Hash, p: Packet, n: nat)
    requires n > 0
    ensures EnqueueQid(hash, p, n) == if p.tuple.None? then -1 else HashAll(hash, Fields(p.tuple.value), n) % n
  {
    if p.tuple.Some? {
      var f, k := Fields(p.tuple.value), p.tuple.value;
      assert f[..0] == [] && f[..1] == [k.proto] && f[..2] == f[..1] + [k.srcAddr] && f[..3] == f[..2] + [k.dstAddr];
      assert f[..4] == f[..3] + [k.srcPort] && f == f[..4] + [k.dstPort];
      forall i | 0 <= i < 5
        ensures HashAll(hash, f[..i + 1], n) == hash(f[i], HashAll(hash, f[..i], n))
      {
        assert f[..i + 1][..i] == f[..i];
      }
      assert HashAll(hash, f[..0 + 1], n) == hash(k.proto, n);
      assert HashAll(hash, f[..1 + 1], n) == hash(k.srcAddr, hash(k.proto, n));
      assert f[..4 + 1] == f;
    }
  }

  // A hash that counts the values it meets from n on, and ends in 0 or 1 at the given place: there it tells the given
  // value from all others.
  function Telling(place: nat, value: nat, n: nat): Hash {
    (v: nat, acc: nat) => if acc < n then acc else if acc != n + place then acc + 1 else if v == value then 0 else 1
  }

  lemma {:induction false} TellingCounts(values: seq<nat>, place: nat, value: nat, n: nat)
    requires n >= 2
    ensures HashAll(Telling(place, value, n), values, n) ==
            if |values| <= place then n + |values| else if values[place] == value then 0 else 1
  {
    if values == [] {
    } else {
      TellingCounts(values[..|values| - 1], place, value, n);
    }
  }

  /** No field is left out: any two different 5-tuples are put into different queues by some hash. */
  lemma FlowsSpread(j: FlowTable.Key, k: FlowTable.Key, n: nat) returns (hash: Hash)
    requires j != k && n >= 2
    ensures TupleQueue(hash, j, n) != TupleQueue(hash, k, n)
  {
    var place := if j.proto != k.proto then 0 else if j.srcAddr != k.srcAddr then 1 else if j.dstAddr != k.dstAddr then 2
                 else if j.srcPort != k.srcPort then 3 else 4;
    assert Fields(j)[place] != Fields(k)[place];
    hash := Telling(place, Fields(j)[place], n);
    TellingCounts(Fields(j), place, Fields(j)[place], n);
    TellingCounts(Fields(k), place, Fields(j)[place], n);
    hide *;
    TupleIsHash(hash, j, n);
    TupleIsHash(hash, k, n);
    Small(0, n);
    Small(1, n);
  }

  lemma TupleIsHash(hash: Hash, k: FlowTable.Key, n: nat)
    requires n > 0
    ensures TupleQueue(hash, k, n) == HashAll(hash, Fields(k), n) % n
  {
    hide TupleQueue, HashAll, Fields;
    QueueIsHash(hash, Packet(Some(k), 0), n);
  }

  lemma Small(x: nat, n: nat)
    requires x < n
    ensures x % n == x
  {
  }

  // How many steps round a circle of n lead from one index to another.
  function Around(n: nat, from: nat, to: nat): (d: nat)
    requires from < n && to < n
    ensures d < n && (d == 0 <==> from == to)
  {
    if to >= from then to - from else to + n - from
  }

  // A step round the circle comes nearer to any index but the present one.
  lemma AroundNext(n: nat, qid: nat, q: nat)
    requires qid < n && q < n && qid != q
    ensures Around(n, (qid + 1) % n, q) == Around(n, qid, q) - 1
  {
  }

  function Next(i: nat): (j: nat)
    ensures j < QUEUE_SIZE
  {
    (i + 1) % QUEUE_SIZE
  }

  /** The array holds the contents from head on, its other slots are empty, and tail is one past the last. */
  ghost predicate Holds(pkts: seq<Slot>, head: nat, tail: nat, contents: seq<Packet>) {
    && |pkts| == QUEUE_SIZE && head < QUEUE_SIZE && |contents| <= QUEUE_SIZE
    && tail == (head + |contents|) % QUEUE_SIZE
    && forall j :: 0 <= j < QUEUE_SIZE ==>
         pkts[j] == if Around(QUEUE_SIZE, head, j) < |contents| then Full(contents[Around(QUEUE_SIZE, head, j)]) else Null
  }

  /** The head slot alone says whether the queue is empty, and what its first packet is. */
  lemma HeadSlot(pkts: seq<Slot>, head: nat, tail: nat, contents: seq<Packet>)
    requires Holds(pkts, head, tail, contents)
    ensures pkts[head] == Null <==> contents == []
    ensures contents != [] ==> pkts[head] == Full(contents[0])
  {
    assert Around(QUEUE_SIZE, head, head) == 0;
  }

  /** The test of the producer: equal indices and an occupied head mean full, and nothing else does. */
  lemma FullTest(pkts: seq<Slot>, head: nat, tail: nat, contents: seq<Packet>)
    requires Holds(pkts, head, tail, contents)
    ensures head == tail && pkts[head] != Null <==> |contents| == QUEUE_SIZE
    ensures |contents| <= QUEUE_SIZE
  {
    HeadSlot(pkts, head, tail, contents);
  }

  lemma StoreHolds(pkts: seq<Slot>, head: nat, tail: nat, contents: seq<Packet>, p: Packet)
    requires Holds(pkts, head, tail, contents) && |contents| < QUEUE_SIZE
    ensures Holds(pkts[tail := Full(p)], head, Next(tail), contents + [p])
  {
    assert Around(QUEUE_SIZE, head, tail) == |contents|;
    var stored := pkts[tail := Full(p)];
    forall j | 0 <= j < QUEUE_SIZE
      ensures stored[j] == if Around(QUEUE_SIZE, head, j) < |contents| + 1
                           then Full((contents + [p])[Around(QUEUE_SIZE, head, j)]) else Null
    {
      assert j != tail ==> Around(QUEUE_SIZE, head, j) != Around(QUEUE_SIZE, head, tail);
    }
  }

  lemma ClearHolds(pkts: seq<Slot>, head: nat, tail: nat, contents: seq<Packet>)
    requires Holds(pkts, head, tail, contents) && contents != []
    ensures Holds(pkts[head := Null], Next(head), tail, contents[1..])
  {
    var cleared := pkts[head := Null];
    forall j | 0 <= j < QUEUE_SIZE
      ensures cleared[j] == if Around(QUEUE_SIZE, Next(head), j) < |contents| - 1
                            then Full(contents[1..][Around(QUEUE_SIZE, Next(head), j)]) else Null
    {
      if j == head {
        assert Around(QUEUE_SIZE, Next(head), j) == QUEUE_SIZE - 1;
      } else {
        assert Around(QUEUE_SIZE, Next(head), j) == Around(QUEUE_SIZE, head, j) - 1;
      }
    }
  }

  lemma EmptyHolds()
    ensures Holds(seq(QUEUE_SIZE, i => Null), 0, 0, [])
  {
  }

  /** What the queue holds is read off the array and the two indices, so nothing else need be remembered. */
  lemma HoldsOnce(pkts: seq<Slot>, head: nat, tail: nat, c: seq<Packet>, d: seq<Packet>)
    requires Holds(pkts, head, tail, c) && Holds(pkts, head, tail, d)
    ensures c == d
  {
    HeadSlot(pkts, head, tail, c);
    HeadSlot(pkts, head, tail, d);
    assert |c| == |d|;
    forall i | 0 <= i < |c|
      ensures c[i] == d[i]
    {
      var j := (head + i) % QUEUE_SIZE;
      assert Around(QUEUE_SIZE, head, j) == i;
      assert pkts[j] == Full(c[i]);
    }
  }
}
