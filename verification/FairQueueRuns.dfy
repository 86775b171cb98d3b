/** What every interleaving of the two threads of the fair queue keeps, and what it means for the packets. */
module FairQueueRuns {
  import opened Optional
  import FlowTable
  import opened FairQueueRing
  import opened FairQueueThreads

  // --- Arrive ---------------------------------------------------------------------------------------------------------

  lemma ArriveKeepsQueues(hash: Hash, s: State, p: Packet)
    requires Invariant(hash, s) && s.producer.Resting?
    ensures WellFormed(Arrive(hash, s, p)) && QueuesKept(Arrive(hash, s, p))
  {
    hide Holds, HistoryKept;
    var t := Arrive(hash, s, p);
    forall q | 0 <= q < |t.queues|
      ensures QueueKept(t.queues[q], ProducerAt(t, q), ConsumerAt(t, q))
    {
      assert QueueKept(s.queues[q], ProducerAt(s, q), ConsumerAt(s, q));
    }
  }

  lemma ArriveKeepsHistory(hash: Hash, s: State, p: Packet)
    requires Invariant(hash, s) && s.producer.Resting?
    ensures HistoryKept(hash, Arrive(hash, s, p))
  {
    hide QueuesKept, OfQueue, Packets;
    var t := Arrive(hash, s, p);
    forall q | 0 <= q < |t.queues|
      ensures QueueHistory(hash, t, q)
    {
      assert QueueHistory(hash, s, q);
      OfQueueSnoc(hash, |s.queues|, s.arrived, p, q);
    }
  }

  // --- Produce --------------------------------------------------------------------------------------------------------

  lemma ProduceKeepsQueues(hash: Hash, s: State)
    requires Invariant(hash, s) && s.producer.Enqueuing?
    ensures WellFormed(Produce(s)) && QueuesKept(Produce(s))
  {
    hide QueueKept, HistoryKept, StoreStep;
    var t := Produce(s);
    var Enqueuing(p, k, at) := s.producer;
    var (y, next) := StoreStep(s.queues[k], p, at);
    assert t.queues[k] == y && ProducerAt(t, k) == next;
    forall q | 0 <= q < |t.queues|
      ensures QueueKept(t.queues[q], ProducerAt(t, q), ConsumerAt(t, q)) && WellFormedQueue(t.queues[q])
    {
      assert QueueKept(s.queues[q], ProducerAt(s, q), ConsumerAt(s, q));
      if q == k {
        StoreKeepsQueue(s.queues[q], p, at, ConsumerAt(s, q));
        QueueKeptParts(y, next, ConsumerAt(s, q));
      }
    }
  }

  lemma QueueKeptParts(x: Queue, pa: Option<Storing>, ca: Option<Taking>)
    requires QueueKept(x, pa, ca)
    ensures WellFormedQueue(x) && LockKept(x, pa, ca) && ChoiceKept(x, ca)
  {
  }

  lemma ProduceKeepsHistory(hash: Hash, s: State)
    requires Invariant(hash, s) && s.producer.Enqueuing?
    ensures HistoryKept(hash, Produce(s))
  {
    hide QueueKept, OfQueue, Packets;
    var t := Produce(s);
    var Enqueuing(p, k, at) := s.producer;
    assert QueueKept(s.queues[k], ProducerAt(s, k), ConsumerAt(s, k));
    QueueKeptParts(s.queues[k], ProducerAt(s, k), ConsumerAt(s, k));
    assert Taken(t) == Taken(s);
    forall q | 0 <= q < |t.queues|
      ensures QueueHistory(hash, t, q)
    {
      assert QueueHistory(hash, s, q);
      OfQueueSnoc(hash, |s.queues|, s.accepted, p, q);
      if q == k && at == Passed {
        assert s.queues[q].rxDrop == 0 && t.queues[q].contents == s.queues[q].contents + [p];
      }
    }
  }

  // --- Scan -----------------------------------------------------------------------------------------------------------

  lemma ScanKeeps(hash: Hash, s: State)
    requires Invariant(hash, s) && s.consumer.Scanning?
    ensures Invariant(hash, Scan(s))
  {
    hide Holds, OfQueue, Packets;
    var t := Scan(s);
    forall q | 0 <= q < |t.queues|
      ensures QueueKept(t.queues[q], ProducerAt(t, q), ConsumerAt(t, q)) && QueueHistory(hash, t, q)
    {
      assert QueueKept(s.queues[q], ProducerAt(s, q), ConsumerAt(s, q)) && QueueHistory(hash, s, q);
      ScannedSlot(s, q);
    }
  }

  /** What the scan reads without the lock is the truth about the queue. */
  lemma ScannedSlot(s: State, q: nat)
    requires WellFormed(s) && QueuesKept(s) && s.consumer.Scanning? && q < |s.queues|
    ensures var x := s.queues[q];
            && (x.pkts[x.head] == Null <==> x.contents == [])
            && (x.contents != [] ==> x.pkts[x.head] == Full(x.contents[0]))
  {
    hide Holds;
    var x := s.queues[q];
    assert QueueKept(x, ProducerAt(s, q), ConsumerAt(s, q));
    HeadSlot(x.pkts, x.head, if ProducerAt(s, q) == Some(Stored) then Next(x.tail) else x.tail, x.contents);
  }

  // --- Take -----------------------------------------------------------------------------------------------------------

  lemma TakeKeepsQueues(hash: Hash, s: State)
    requires Invariant(hash, s) && s.consumer.Dequeuing?
    ensures WellFormed(Take(s)) && QueuesKept(Take(s))
  {
    hide QueueKept, HistoryKept, TakeStep;
    var t := Take(s);
    var Dequeuing(k, at) := s.consumer;
    var (y, next) := TakeStep(s.queues[k], at);
    assert t.queues[k] == y && ConsumerAt(t, k) == next;
    forall q | 0 <= q < |t.queues|
      ensures QueueKept(t.queues[q], ProducerAt(t, q), ConsumerAt(t, q)) && WellFormedQueue(t.queues[q])
    {
      assert QueueKept(s.queues[q], ProducerAt(s, q), ConsumerAt(s, q));
      if q == k {
        TakeKeepsQueue(s.queues[q], at, ProducerAt(s, q));
        QueueKeptParts(y, ProducerAt(s, q), next);
      }
    }
  }

  // What is taken grows by the first packet of the queue when its slot is cleared, and at no other step.
  lemma TakenAfterTake(hash: Hash, s: State)
    requires Invariant(hash, s) && s.consumer.Dequeuing?
    ensures var x := s.queues[s.consumer.q];
            if s.consumer.at.Fetched? then
              && x.contents != [] && s.consumer.at.slot == Full(x.contents[0])
              && Taken(Take(s)) == Taken(s) + [x.contents[0]]
            else Taken(Take(s)) == Taken(s) && Take(s).queues[s.consumer.q].contents == x.contents
    ensures s.consumer.at.Left? ==> s.consumer.at.slot.Full?
  {
    hide QueueKept, OfQueue, Packets, HistoryKept;
    var Dequeuing(k, at) := s.consumer;
    assert QueueKept(s.queues[k], ProducerAt(s, k), ConsumerAt(s, k));
    QueueKeptParts(s.queues[k], ProducerAt(s, k), ConsumerAt(s, k));
    if at.Fetched? {
      assert s.returned + [] == s.returned;
      PacketsSnoc(s.returned, at.slot);
    } else if at.Left? {
      assert Take(s).returned + [] == s.returned + [at.slot];
    }
  }

  lemma TakeKeepsHistory(hash: Hash, s: State)
    requires Invariant(hash, s) && s.consumer.Dequeuing?
    ensures HistoryKept(hash, Take(s))
  {
    hide QueueKept, QueuesKept, OfQueue, Packets, Taken;
    var t := Take(s);
    var k := s.consumer.q;
    TakenAfterTake(hash, s);
    forall q | 0 <= q < |t.queues|
      ensures QueueHistory(hash, t, q)
    {
      assert QueueHistory(hash, s, q) && QueueHistory(hash, s, k);
      if s.consumer.at.Fetched? {
        var first := s.queues[k].contents[0];
        OfQueueSnoc(hash, |s.queues|, Taken(s), first, q);
        assert EnqueueQid(hash, first, |s.queues|) == k;
        if q == k {
          assert s.queues[k].contents == [first] + t.queues[k].contents;
        }
      }
    }
  }

  // --- Every run ------------------------------------------------------------------------------------------------------

  lemma StepKeepsInvariant(hash: Hash, s: State, t: State)
    requires Invariant(hash, s) && Step(hash, s, t)
    ensures Invariant(hash, t)
  {
    hide QueuesKept, HistoryKept;
    if t == Consume(s) {
      match s.consumer
      case Idle => BeginKeeps(hash, s);
      case Scanning(_) => ScanKeeps(hash, s);
      case Dequeuing(_, _) => TakeKeepsQueues(hash, s); TakeKeepsHistory(hash, s);
    } else if s.producer.Resting? {
      var p :| t == Arrive(hash, s, p);
      ArriveKeepsQueues(hash, s, p);
      ArriveKeepsHistory(hash, s, p);
    } else {
      ProduceKeepsQueues(hash, s);
      ProduceKeepsHistory(hash, s);
    }
  }

  lemma BeginKeeps(hash: Hash, s: State)
    requires Invariant(hash, s) && s.consumer.Idle?
    ensures Invariant(hash, s.(consumer := Scanning(s.qid)))
  {
    hide QueueKept, OfQueue, Packets;
    var t := s.(consumer := Scanning(s.qid));
    forall q | 0 <= q < |t.queues|
      ensures QueueKept(t.queues[q], ProducerAt(t, q), ConsumerAt(t, q)) && QueueHistory(hash, t, q)
    {
      assert QueueKept(s.queues[q], ProducerAt(s, q), ConsumerAt(s, q)) && QueueHistory(hash, s, q);
    }
  }

  lemma StartInvariant(hash: Hash, n: nat)
    requires n > 0
    ensures Invariant(hash, Start(n))
  {
    var s := Start(n);
    EmptyHolds();
    forall q | 0 <= q < n
      ensures QueueKept(s.queues[q], ProducerAt(s, q), ConsumerAt(s, q)) && QueueHistory(hash, s, q)
    {
      assert [] + [] == s.returned + InFlight(s.consumer);
    }
  }

  /** Every state of every interleaving, from empty queues, keeps the invariant. */
  lemma {:induction false} RunsKeepInvariant(hash: Hash, n: nat, states: seq<State>)
    requires n > 0 && states != [] && states[0] == Start(n) && Run(hash, states)
    ensures Invariant(hash, states[|states| - 1])
    decreases |states|
  {
    if |states| == 1 {
      StartInvariant(hash, n);
    } else {
      var before := states[..|states| - 1];
      RunsKeepInvariant(hash, n, before);
      assert Step(hash, states[|states| - 2], states[|states| - 2 + 1]);
      StepKeepsInvariant(hash, before[|before| - 1], states[|states| - 1]);
    }
  }

  // --- What follows for the queues ------------------------------------------------------------------------------------

  /** Each ring refines a bounded FIFO. The test of the producer drops the packet exactly if the queue is full; where it
      writes the slot there is room, and the packet is appended; where the consumer clears the slot the first packet is
      removed, and there is one; every other step leaves the queue as it is. */
  lemma StepRefinesFifo(hash: Hash, s: State, t: State, q: nat)
    requires Invariant(hash, s) && Step(hash, s, t) && q < |s.queues|
    ensures q < |t.queues|
    ensures var c, d := s.queues[q].contents, t.queues[q].contents;
            if s.producer.Enqueuing? && t == Produce(s) && ProducerAt(s, q) == Some(Passed) then
              |c| < QUEUE_SIZE && d == c + [s.producer.p]
            else if t == Consume(s) && ConsumerAt(s, q).Some? && s.consumer.at.Fetched? then
              s.consumer.at.slot.Full? && c == [s.consumer.at.slot.pkt] + d
            else d == c
    ensures var x, y := s.queues[q], t.queues[q];
            if s.producer.Enqueuing? && t == Produce(s) && ProducerAt(s, q) == Some(Checking)
               && |x.contents| == QUEUE_SIZE then y.rxDrop == x.rxDrop + 1
            else y.rxDrop == x.rxDrop
  {
    hide Holds, HistoryKept;
    var x := s.queues[q];
    assert QueueKept(x, ProducerAt(s, q), ConsumerAt(s, q));
    if ProducerAt(s, q) == Some(Checking) {
      FullTest(x.pkts, x.head, x.tail, x.contents);
    }
  }

  /** Between calls the counters balance and the array holds exactly the packets stored and not yet taken. */
  lemma AtRest(hash: Hash, s: State, q: nat)
    requires Invariant(hash, s) && q < |s.queues| && s.producer.Resting? && !s.consumer.Dequeuing?
    ensures var x := s.queues[q];
            && x.rx == x.tx + |x.contents| && Holds(x.pkts, x.head, x.tail, x.contents)
            && OfQueue(hash, |s.queues|, s.accepted, q) == OfQueue(hash, |s.queues|, Packets(s.returned), q) + x.contents
  {
    assert QueueKept(s.queues[q], ProducerAt(s, q), ConsumerAt(s, q)) && QueueHistory(hash, s, q);
    assert s.returned + InFlight(s.consumer) == s.returned;
  }

  // --- What follows for the packets -----------------------------------------------------------------------------------

  function ByTuple(ps: seq<Packet>, k: FlowTable.Key): seq<Packet> {
    if ps == [] then []
    else ByTuple(ps[..|ps| - 1], k) + if ps[|ps| - 1].tuple == Some(k) then [ps[|ps| - 1]] else []
  }

  // A flow lies within its queue.
  lemma {:induction false} ByTupleOfQueue(hash: Hash, n: nat, ps: seq<Packet>, k: FlowTable.Key)
    requires n > 0
    ensures ByTuple(OfQueue(hash, n, ps, TupleQueue(hash, k, n)), k) == ByTuple(ps, k)
  {
    if ps == [] {
    } else {
      var init, p, q := ps[..|ps| - 1], ps[|ps| - 1], TupleQueue(hash, k, n);
      ByTupleOfQueue(hash, n, init, k);
      if EnqueueQid(hash, p, n) == q {
        ByTupleAppend(OfQueue(hash, n, init, q), [p], k);
        assert [p][..0] == [];
      } else {
        assert OfQueue(hash, n, ps, q) == OfQueue(hash, n, init, q) && ByTuple(ps, k) == ByTuple(init, k);
      }
    }
  }

  lemma {:induction false} ByTupleAppend(a: seq<Packet>, b: seq<Packet>, k: FlowTable.Key)
    ensures ByTuple(a + b, k) == ByTuple(a, k) + ByTuple(b, k)
  {
    if b == [] {
      assert a + b == a;
    } else {
      var init := b[..|b| - 1];
      assert (a + b)[..|a + b| - 1] == a + init;
      ByTupleAppend(a, init, k);
    }
  }

  lemma ByTuplePrefix(a: seq<Packet>, b: seq<Packet>, k: FlowTable.Key)
    requires a <= b
    ensures ByTuple(a, k) <= ByTuple(b, k)
  {
    assert b == a + b[|a|..];
    ByTupleAppend(a, b[|a|..], k);
  }

  /** The packets of one flow leave in the order they arrived, without a gap; and no call that found a queue returned a
      null pointer. */
  lemma FlowLeavesInOrder(hash: Hash, n: nat, states: seq<State>, k: FlowTable.Key)
    requires n > 0 && states != [] && states[0] == Start(n) && Run(hash, states)
    ensures var s := states[|states| - 1];
            && (forall i :: 0 <= i < |s.returned| ==> s.returned[i].Full?)
            && ByTuple(Packets(s.returned), k) <= ByTuple(s.arrived, k)
  {
    hide Run, QueuesKept, Step, OfQueue, Packets, ByTuple;
    RunsKeepInvariant(hash, n, states);
    var s := states[|states| - 1];
    var m := |s.queues|;
    var q := TupleQueue(hash, k, m);
    assert QueueHistory(hash, s, q);
    assert OfQueue(hash, m, Taken(s), q) <= OfQueue(hash, m, s.arrived, q);
    ByTuplePrefix(OfQueue(hash, m, Taken(s), q), OfQueue(hash, m, s.arrived, q), k);
    ByTupleOfQueue(hash, m, Taken(s), k);
    ByTupleOfQueue(hash, m, s.arrived, k);
    assert Packets(s.returned) <= Taken(s) by {
      if InFlight(s.consumer) == [] {
        assert s.returned + [] == s.returned;
      } else {
        PacketsSnoc(s.returned, s.consumer.at.slot);
      }
    }
    ByTuplePrefix(Packets(s.returned), Taken(s), k);
  }

  // --- What a drop leaves behind --------------------------------------------------------------------------------------

  // The queue as the other calls see it; only tx may still count a packet taken before.
  function Frozen(x: Queue): Queue {
    x.(tx := 0)
  }

  lemma DroppedStep(hash: Hash, s: State, t: State, q: nat)
    requires Invariant(hash, s) && Step(hash, s, t) && q < |s.queues| && s.queues[q].rxDrop > 0
    ensures q < |t.queues| && Frozen(t.queues[q]) == Frozen(s.queues[q])
    ensures s.consumer == Dequeuing(q, Chosen) ==> t.consumer == s.consumer && t.returned == s.returned
    ensures s.producer.Enqueuing? && s.producer.q == q ==> t.producer == s.producer && t.arrived == s.arrived
  {
    hide Holds, HistoryKept;
    assert QueueKept(s.queues[q], ProducerAt(s, q), ConsumerAt(s, q));
  }

  /** After a drop the queue never changes again: it stays full and locked. A consumer that then chooses it returns
      nothing more, and a producer with a packet for it takes in nothing more. */
  lemma {:induction false} DropFreezes(hash: Hash, states: seq<State>, q: nat)
    requires states != [] && Invariant(hash, states[0]) && Run(hash, states)
    requires q < |states[0].queues| && states[0].queues[q].rxDrop > 0
    ensures var s, t := states[0], states[|states| - 1];
            && Invariant(hash, t) && q < |t.queues|
            && Frozen(t.queues[q]) == Frozen(s.queues[q]) && |t.queues[q].contents| == QUEUE_SIZE
            && t.queues[q].lock == ByProducer
            && (s.consumer == Dequeuing(q, Chosen) ==> t.consumer == s.consumer && t.returned == s.returned)
            && (s.producer.Enqueuing? && s.producer.q == q ==> t.producer == s.producer && t.arrived == s.arrived)
    decreases |states|
  {
    hide Invariant, Step, QueueKept;
    if |states| == 1 {
      DroppedQueue(hash, states[0], q);
    } else {
      var before := states[..|states| - 1];
      DropFreezes(hash, before, q);
      var s, t := states[|states| - 2], states[|states| - 2 + 1];
      assert s == before[|before| - 1] && Step(hash, s, t);
      assert Frozen(s.queues[q]).rxDrop == s.queues[q].rxDrop == states[0].queues[q].rxDrop;
      DroppedStep(hash, s, t, q);
      StepKeepsInvariant(hash, s, t);
      assert Frozen(t.queues[q]).rxDrop == t.queues[q].rxDrop;
      DroppedQueue(hash, t, q);
    }
  }

  lemma DroppedQueue(hash: Hash, s: State, q: nat)
    requires Invariant(hash, s) && q < |s.queues| && s.queues[q].rxDrop > 0
    ensures |s.queues[q].contents| == QUEUE_SIZE && s.queues[q].lock == ByProducer
  {
    assert QueueKept(s.queues[q], ProducerAt(s, q), ConsumerAt(s, q));
  }

  // --- Fairness -------------------------------------------------------------------------------------------------------

  // What the scans returned since there were m of them.
  function Since(s: State, m: nat): seq<int>
    requires m <= |s.scans|
  {
    s.scans[m..]
  }

  predicate Distinct(r: seq<int>) {
    forall i, j :: 0 <= i < j < |r| ==> r[i] != r[j]
  }

  // Before its turn a queue waits for at most n - 1 others, each served once.
  predicate Fair(n: nat, r: seq<int>, q: nat) {
    && -1 !in r
    && forall k :: 0 <= k <= |r| && q !in r[..k] ==> k < n && Distinct(r[..k])
  }

  // As long as q has not been served, those served lie behind the scan, and the room left is what lies ahead of it.
  predicate Track(s: State, m: nat, q: nat)
    requires WellFormed(s) && m <= |s.scans| && q < |s.queues|
  {
    var n, r := |s.queues|, Since(s, m);
    && Fair(n, r, q)
    && (s.consumer.Scanning? ==> Around(n, s.qid, q) <= Around(n, s.consumer.start, q))
    && (q !in r ==> && |r| + Around(n, s.qid, q) < n
                    && forall i :: 0 <= i < |r| ==> 0 <= r[i] < n && Around(n, r[i], q) > Around(n, s.qid, q))
  }

  // The scan goes on, without an end in sight, or serves a queue.
  lemma FairSnoc(n: nat, r: seq<int>, e: int, q: nat)
    requires Fair(n, r, q) && e != -1 && (q !in r ==> |r| + 1 < n || e == q) && (q !in r ==> e !in r)
    ensures Fair(n, r + [e], q)
  {
    var t := r + [e];
    forall k | 0 <= k <= |t| && q !in t[..k]
      ensures k < n && Distinct(t[..k])
    {
      if k <= |r| {
        assert t[..k] == r[..k];
      } else {
        assert t[..k] == t && r[..|r|] == r;
        assert q == t[|r|] || q != e;
        assert forall i :: 0 <= i < |r| ==> t[i] == r[i];
      }
    }
  }

  lemma StepTracks(hash: Hash, s: State, t: State, m: nat, q: nat)
    requires Invariant(hash, s) && Step(hash, s, t) && WellFormed(t) && m <= |s.scans| && q < |s.queues|
    requires Track(s, m, q) && (s.consumer.Scanning? ==> s.queues[q].contents != [])
    ensures |s.queues| == |t.queues| && m <= |t.scans| && Track(t, m, q)
  {
    hide QueuesKept, HistoryKept, Fair, Around, Step, Produce, Consume, Track;
    if t == Consume(s) && s.consumer.Scanning? {
      ScannedSlot(s, q);
      ScanTracks(s, m, q);
      ConsumeScans(s);
    } else {
      OtherStep(hash, s, t);
      StillTracks(s, t, m, q);
    }
  }

  lemma ConsumeScans(s: State)
    requires WellFormed(s) && s.consumer.Scanning?
    ensures Consume(s) == Scan(s) && |Scan(s).queues| == |s.queues| && |s.scans| <= |Scan(s).scans|
  {
  }

  // Any step but one of the scan leaves the scan where it is, or begins it.
  lemma OtherStep(hash: Hash, s: State, t: State)
    requires Step(hash, s, t) && !(t == Consume(s) && s.consumer.Scanning?)
    ensures |t.queues| == |s.queues| && t.scans == s.scans && t.qid == s.qid
    ensures t.consumer.Scanning? ==> t.consumer == s.consumer || t.consumer.start == s.qid
  {
    hide StoreStep, TakeStep;
  }

  lemma StillTracks(s: State, t: State, m: nat, q: nat)
    requires WellFormed(s) && WellFormed(t) && m <= |s.scans| && q < |s.queues| && Track(s, m, q)
    requires |t.queues| == |s.queues| && t.scans == s.scans && t.qid == s.qid
    requires t.consumer.Scanning? ==> t.consumer == s.consumer || t.consumer.start == s.qid
    ensures Track(t, m, q)
  {
    hide Fair, Around;
  }

  lemma ScanTracks(s: State, m: nat, q: nat)
    requires WellFormed(s) && s.consumer.Scanning? && m <= |s.scans| && q < |s.queues|
    requires Track(s, m, q) && s.queues[q].pkts[s.queues[q].head] != Null
    ensures WellFormed(Scan(s)) && Track(Scan(s), m, q)
  {
    hide Fair, Around;
    var n, r, t := |s.queues|, Since(s, m), Scan(s);
    if s.qid != q {
      AroundNext(n, s.qid, q);
    }
    if t.scans != s.scans {
      assert t.scans == s.scans + [s.qid];
      assert Since(t, m) == r + [s.qid];
      FairSnoc(n, r, s.qid, q);
    }
  }

  // The queue has a packet whenever the scan looks.
  predicate StaysNonEmpty(states: seq<State>, q: nat) {
    forall i :: 0 <= i < |states| && states[i].consumer.Scanning? ==>
      q < |states[i].queues| && states[i].queues[q].contents != []
  }

  /** Take any stretch of a run, begun between two scans, in which q always has a packet when the scan looks, whatever
      is stored meanwhile. Then no scan fails, and before q is served at most n - 1 queues are, none of them twice. */
  lemma {:induction false} RoundRobinIsFair(hash: Hash, states: seq<State>, q: nat)
    requires states != [] && Invariant(hash, states[0]) && Run(hash, states) && q < |states[0].queues|
    requires !states[0].consumer.Scanning? && StaysNonEmpty(states, q)
    ensures var s, t := states[0], states[|states| - 1];
            && Invariant(hash, t) && |s.queues| == |t.queues| && |s.scans| <= |t.scans|
            && Track(t, |s.scans|, q)
            && Fair(|s.queues|, t.scans[|s.scans|..], q)
    decreases |states|
  {
    hide Invariant, Step, Track, Fair;
    var s := states[0];
    if |states| == 1 {
      TrackStarts(hash, s, q);
    } else {
      var before := states[..|states| - 1];
      RoundRobinIsFair(hash, before, q);
      var u, t := states[|states| - 2], states[|states| - 2 + 1];
      assert u == before[|before| - 1] && Step(hash, u, t);
      StepKeepsInvariant(hash, u, t);
      InvariantWellFormed(hash, t);
      StepTracks(hash, u, t, |s.scans|, q);
      TrackFair(t, |s.scans|, q);
    }
  }

  lemma InvariantWellFormed(hash: Hash, s: State)
    requires Invariant(hash, s)
    ensures WellFormed(s)
  {
  }

  lemma TrackFair(s: State, m: nat, q: nat)
    requires WellFormed(s) && m <= |s.scans| && q < |s.queues| && Track(s, m, q)
    ensures Fair(|s.queues|, s.scans[m..], q)
  {
  }

  lemma TrackStarts(hash: Hash, s: State, q: nat)
    requires Invariant(hash, s) && q < |s.queues| && !s.consumer.Scanning?
    ensures WellFormed(s) && Track(s, |s.scans|, q) && Fair(|s.queues|, s.scans[|s.scans|..], q)
  {
  }
}
