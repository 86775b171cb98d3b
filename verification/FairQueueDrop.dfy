/** A run of the fair queue that drops a packet: one flow sends more packets than a queue holds. */
module FairQueueDrop {
  import opened Optional
  import FlowTable
  import opened FairQueueRing
  import opened FairQueueThreads
  import opened FairQueueRuns

  // The producer is between two packets, and the queue it is about to use has m packets and a free lock.
  ghost predicate Ready(hash: Hash, s: State, q: nat, m: nat) {
    && Invariant(hash, s) && s.producer.Resting? && q < |s.queues|
    && |s.queues[q].contents| == m && s.queues[q].lock.Free?
  }

  // Where the producer stands after a step that finds the lock free and room in the queue.
  function Following(at: Storing): Option<Storing> {
    match at
    case Waiting => Some(Checking)
    case Checking => Some(Passed)
    case Passed => Some(Stored)
    case Stored => Some(Moved)
    case Moved => Some(Unlocked)
    case Unlocked => None
  }

  lemma Phase(hash: Hash, s: State, p: Packet, q: nat, at: Storing, m: nat)
    requires Invariant(hash, s) && s.producer == Enqueuing(p, q, at)
    requires q < |s.queues| && |s.queues[q].contents| == m
    requires at == Waiting ==> s.queues[q].lock.Free?
    requires at == Checking ==> m < QUEUE_SIZE
    ensures WellFormed(s)
    ensures var t := Produce(s);
            && Invariant(hash, t) && Step(hash, s, t) && |t.queues| == |s.queues| && t.arrived == s.arrived
            && t.producer == (if Following(at).None? then Resting else Enqueuing(p, q, Following(at).value))
            && |t.queues[q].contents| == (if at == Passed then m + 1 else m)
            && (at == Moved || (at == Unlocked && s.queues[q].lock.Free?) ==> t.queues[q].lock.Free?)
  {
    hide QueueKept, HistoryKept;
    StepOfProducer(hash, s);
    StepKeepsInvariant(hash, s, Produce(s));
    if at == Checking {
      RoomAtTest(hash, s, q);
    }
  }

  lemma StepOfProducer(hash: Hash, s: State)
    requires Invariant(hash, s) && s.producer.Enqueuing?
    ensures WellFormed(s) && Step(hash, s, Produce(s))
  {
  }

  lemma RoomAtTest(hash: Hash, s: State, q: nat)
    requires Invariant(hash, s) && q < |s.queues| && ProducerAt(s, q) == Some(Checking)
    ensures var x := s.queues[q];
            WellFormedQueue(x) && (x.head == x.tail && x.pkts[x.head] != Null <==> |x.contents| == QUEUE_SIZE)
  {
    hide Holds;
    var x := s.queues[q];
    assert QueueKept(x, ProducerAt(s, q), ConsumerAt(s, q));
    FullTest(x.pkts, x.head, x.tail, x.contents);
  }

  // --- Longer and longer runs -----------------------------------------------------------------------------------------

  lemma RunSnoc(hash: Hash, run: seq<State>, t: State)
    requires run != [] && Run(hash, run) && Step(hash, run[|run| - 1], t)
    ensures Run(hash, run + [t])
  {
    hide Step;
  }

  // The producer goes on by one step.
  lemma PhaseRun(hash: Hash, run: seq<State>, p: Packet, q: nat, at: Storing, m: nat) returns (longer: seq<State>)
    requires run != [] && Run(hash, run)
    requires var s := run[|run| - 1];
             && Invariant(hash, s) && s.producer == Enqueuing(p, q, at) && q < |s.queues|
             && |s.queues[q].contents| == m && (at == Waiting || at == Unlocked ==> s.queues[q].lock.Free?)
             && (at == Checking ==> m < QUEUE_SIZE)
    ensures Run(hash, longer) && |longer| == |run| + 1 && longer[0] == run[0]
    ensures var s, t := run[|run| - 1], longer[|run|];
            && Invariant(hash, t) && |t.queues| == |s.queues| && t.arrived == s.arrived
            && t.producer == (if Following(at).None? then Resting else Enqueuing(p, q, Following(at).value))
            && q < |t.queues| && |t.queues[q].contents| == (if at == Passed then m + 1 else m)
            && (at == Moved || at == Unlocked ==> t.queues[q].lock.Free?)
  {
    hide Invariant, Step, Run, Produce;
    var s := run[|run| - 1];
    Phase(hash, s, p, q, at, m);
    RunSnoc(hash, run, Produce(s));
    longer := run + [Produce(s)];
  }

  // A packet arrives at a queue with a free lock.
  lemma ArriveRun(hash: Hash, run: seq<State>, p: Packet, q: nat, m: nat) returns (longer: seq<State>)
    requires run != [] && Run(hash, run) && Ready(hash, run[|run| - 1], q, m)
    requires EnqueueQid(hash, p, |run[|run| - 1].queues|) == q
    ensures Run(hash, longer) && |longer| == |run| + 1 && longer[0] == run[0]
    ensures var s, t := run[|run| - 1], longer[|run|];
            && Invariant(hash, t) && |t.queues| == |s.queues| && t.arrived == s.arrived + [p]
            && t.producer == Enqueuing(p, q, Waiting) && t.queues[q].lock.Free? && |t.queues[q].contents| == m
  {
    hide Step, QueuesKept, HistoryKept, Run;
    var s := run[|run| - 1];
    var t := Arrive(hash, s, p);
    StepOfArrival(hash, s, p);
    StepKeepsInvariant(hash, s, t);
    RunSnoc(hash, run, t);
    longer := run + [t];
  }

  lemma StepOfArrival(hash: Hash, s: State, p: Packet)
    requires Invariant(hash, s) && s.producer.Resting?
    ensures Step(hash, s, Arrive(hash, s, p))
  {
  }

  // One whole call that stores its packet.
  lemma StoreRun(hash: Hash, run: seq<State>, p: Packet, q: nat, m: nat) returns (longer: seq<State>)
    requires run != [] && Run(hash, run) && Ready(hash, run[|run| - 1], q, m) && m < QUEUE_SIZE
    requires EnqueueQid(hash, p, |run[|run| - 1].queues|) == q
    ensures longer != [] && Run(hash, longer) && longer[0] == run[0]
    ensures var s, t := run[|run| - 1], longer[|longer| - 1];
            Ready(hash, t, q, m + 1) && |t.queues| == |s.queues| && t.arrived == s.arrived + [p]
  {
    hide Invariant, Run;
    longer := ArriveRun(hash, run, p, q, m);
    longer := PhaseRun(hash, longer, p, q, Waiting, m);
    longer := PhaseRun(hash, longer, p, q, Checking, m);
    longer := PhaseRun(hash, longer, p, q, Passed, m);
    longer := PhaseRun(hash, longer, p, q, Stored, m + 1);
    longer := PhaseRun(hash, longer, p, q, Moved, m + 1);
    longer := PhaseRun(hash, longer, p, q, Unlocked, m + 1);
  }

  // The packets of one flow, numbered.
  function FlowPackets(k: FlowTable.Key, m: nat): seq<Packet> {
    seq(m, i requires 0 <= i => Packet(Some(k), i))
  }

  lemma {:induction false} FillRun(hash: Hash, n: nat, k: FlowTable.Key, m: nat) returns (run: seq<State>)
    requires n > 0 && m <= QUEUE_SIZE
    ensures run != [] && Run(hash, run) && run[0] == Start(n)
    ensures var t := run[|run| - 1];
            Ready(hash, t, TupleQueue(hash, k, n), m) && |t.queues| == n && t.arrived == FlowPackets(k, m)
    decreases m
  {
    hide Invariant, Run;
    if m == 0 {
      run := [Start(n)];
      StartReady(hash, n, TupleQueue(hash, k, n));
    } else {
      run := FillRun(hash, n, k, m - 1);
      run := StoreRun(hash, run, Packet(Some(k), m - 1), TupleQueue(hash, k, n), m - 1);
      assert FlowPackets(k, m) == FlowPackets(k, m - 1) + [Packet(Some(k), m - 1)];
    }
  }

  lemma StartReady(hash: Hash, n: nat, q: nat)
    requires q < n
    ensures Ready(hash, Start(n), q, 0) && Run(hash, [Start(n)]) && |Start(n).queues| == n && Start(n).arrived == []
  {
    hide Invariant;
    StartInvariant(hash, n);
  }

  /** From the start, one packet of a flow more than a queue holds, and nothing taken out meanwhile: the last is dropped. */
  lemma DropHappens(hash: Hash, n: nat, k: FlowTable.Key) returns (run: seq<State>)
    requires n > 0
    ensures run != [] && Run(hash, run) && run[0] == Start(n)
    ensures var t, q := run[|run| - 1], TupleQueue(hash, k, n);
            && Invariant(hash, t) && |t.queues| == n && t.queues[q].rxDrop == 1
            && t.arrived == FlowPackets(k, QUEUE_SIZE + 1)
  {
    hide Invariant, Run;
    var q, p := TupleQueue(hash, k, n), Packet(Some(k), QUEUE_SIZE);
    run := FillRun(hash, n, k, QUEUE_SIZE);
    run := ArriveRun(hash, run, p, q, QUEUE_SIZE);
    run := PhaseRun(hash, run, p, q, Waiting, QUEUE_SIZE);
    var s := run[|run| - 1];
    StepOfProducer(hash, s);
    RoomAtTest(hash, s, q);
    StepKeepsInvariant(hash, s, Produce(s));
    RunSnoc(hash, run, Produce(s));
    run := run + [Produce(s)];
    assert FlowPackets(k, QUEUE_SIZE + 1) == FlowPackets(k, QUEUE_SIZE) + [p];
    DropCounted(hash, s, q);
    DroppedOnce(hash, Produce(s), q);
  }

  lemma DropCounted(hash: Hash, s: State, q: nat)
    requires Invariant(hash, s) && q < |s.queues| && ProducerAt(s, q) == Some(Checking)
    requires |s.queues[q].contents| == QUEUE_SIZE
    ensures WellFormed(s) && s.producer.Enqueuing?
    ensures var t := Produce(s);
            q < |t.queues| && t.queues[q].rxDrop == s.queues[q].rxDrop + 1 && t.arrived == s.arrived
  {
    hide QueuesKept, HistoryKept;
    RoomAtTest(hash, s, q);
  }

  lemma DroppedOnce(hash: Hash, s: State, q: nat)
    requires Invariant(hash, s) && q < |s.queues| && s.queues[q].rxDrop > 0
    ensures s.queues[q].rxDrop == 1
  {
    assert QueueKept(s.queues[q], ProducerAt(s, q), ConsumerAt(s, q));
  }
}
