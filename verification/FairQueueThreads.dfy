/** The two threads of examples/fair_queue: one enqueues what arrives, the other scans and dequeues. Each write to a slot,
    an index, a lock or a counter is a step of its own, and so is each read outside a lock; the reads of one test inside
    a lock are one step. The steps of the two threads interleave freely. */
module FairQueueThreads {
  import opened Optional
  import opened FairQueueRing

  datatype Lock = Free | ByProducer | ByConsumer

  // contents is the abstract queue; the rest are the fields of struct fairqueue_queue.
  datatype Queue = Queue(pkts: seq<Slot>, head: nat, tail: nat, lock: Lock, rx: nat, tx: nat, rxDrop: nat,
                         contents: seq<Packet>)

  // Where fairqueue_enqueue stands: before the lock, inside it before and after the test and each write, after the unlock.
  datatype Storing = Waiting | Checking | Passed | Stored | Moved | Unlocked

  datatype Producer = Resting | Enqueuing(p: Packet, q: nat, at: Storing)

  // Where fairqueue_dequeue stands once the scan has chosen a queue; slot is what *pkt was set to.
  datatype Taking = Chosen | Entered | Fetched(slot: Slot) | Cleared(slot: Slot) | Advanced(slot: Slot) | Left(slot: Slot)

  datatype Consumer = Idle | Scanning(start: nat) | Dequeuing(q: nat, at: Taking)

  /** qid is the static variable of the scan. The logs: what arrived, what was stored, what the calls that found a queue
      returned, and what the scans returned. */
  datatype State = State(queues: seq<Queue>, qid: nat, producer: Producer, consumer: Consumer, arrived: seq<Packet>,
                         accepted: seq<Packet>, returned: seq<Slot>, scans: seq<int>)

  predicate WellFormedQueue(x: Queue) {
    |x.pkts| == QUEUE_SIZE && x.head < QUEUE_SIZE && x.tail < QUEUE_SIZE
  }

  predicate WellFormed(s: State) {
    && 0 < |s.queues| && s.qid < |s.queues|
    && (forall q :: 0 <= q < |s.queues| ==> WellFormedQueue(s.queues[q]))
    && (s.producer.Enqueuing? ==> s.producer.q < |s.queues|)
    && (s.consumer.Dequeuing? ==> s.consumer.q < |s.queues|)
    && (s.consumer.Scanning? ==> s.consumer.start < |s.queues|)
  }

  // --- The producer ---------------------------------------------------------------------------------------------------

  function Arrive(hash: Hash, s: State, p: Packet): State
    requires WellFormed(s) && s.producer.Resting?
  {
    var q := EnqueueQid(hash, p, |s.queues|);
    s.(arrived := s.arrived + [p], producer := if q == -1 then Resting else Enqueuing(p, q, Waiting))
  }

  // One step on the queue, and where the producer stands then; None once the call has returned.
  function StoreStep(x: Queue, p: Packet, at: Storing): (Queue, Option<Storing>)
    requires WellFormedQueue(x)
  {
    match at
    case Waiting => if x.lock.Free? then (x.(lock := ByProducer), Some(Checking)) else (x, Some(Waiting))
    case Checking =>
      if x.head == x.tail && x.pkts[x.head] != Null then (x.(rxDrop := x.rxDrop + 1), None) else (x, Some(Passed))
    case Passed => (x.(pkts := x.pkts[x.tail := Full(p)], contents := x.contents + [p]), Some(Stored))
    case Stored => (x.(tail := Next(x.tail)), Some(Moved))
    case Moved => (x.(lock := Free), Some(Unlocked))
    case Unlocked => (x.(rx := x.rx + 1), None)
  }

  function Produce(s: State): State
    requires WellFormed(s) && s.producer.Enqueuing?
  {
    var Enqueuing(p, q, at) := s.producer;
    var (x, next) := StoreStep(s.queues[q], p, at);
    s.(queues := s.queues[q := x],
       producer := if next.None? then Resting else Enqueuing(p, q, next.value),
       accepted := if at == Passed then s.accepted + [p] else s.accepted)
  }

  // --- The consumer ---------------------------------------------------------------------------------------------------

  function NextQid(s: State): (q: nat)
    requires WellFormed(s)
    ensures q < |s.queues|
  {
    (s.qid + 1) % |s.queues|
  }

  // One turn of the scan; it reads the slot without the lock.
  function Scan(s: State): State
    requires WellFormed(s) && s.consumer.Scanning?
  {
    var x := s.queues[s.qid];
    if x.pkts[x.head] != Null then
      s.(qid := NextQid(s), consumer := Dequeuing(s.qid, Chosen), scans := s.scans + [s.qid])
    else if NextQid(s) == s.consumer.start then
      s.(qid := NextQid(s), consumer := Idle, scans := s.scans + [-1])
    else s.(qid := NextQid(s))
  }

  function TakeStep(x: Queue, at: Taking): (Queue, Option<Taking>)
    requires WellFormedQueue(x)
  {
    match at
    case Chosen => if x.lock.Free? then (x.(lock := ByConsumer), Some(Entered)) else (x, Some(Chosen))
    case Entered => (x, Some(Fetched(x.pkts[x.head])))
    case Fetched(slot) =>
      (x.(pkts := x.pkts[x.head := Null], contents := if x.contents == [] then [] else x.contents[1..]),
       Some(Cleared(slot)))
    case Cleared(slot) => (x.(head := Next(x.head)), Some(Advanced(slot)))
    case Advanced(slot) => (x.(lock := Free), Some(Left(slot)))
    case Left(slot) => (x.(tx := x.tx + 1), None)
  }

  function Take(s: State): State
    requires WellFormed(s) && s.consumer.Dequeuing?
  {
    var Dequeuing(q, at) := s.consumer;
    var (x, next) := TakeStep(s.queues[q], at);
    s.(queues := s.queues[q := x],
       consumer := if next.None? then Idle else Dequeuing(q, next.value),
       returned := if at.Left? then s.returned + [at.slot] else s.returned)
  }

  function Consume(s: State): State
    requires WellFormed(s)
  {
    match s.consumer
    case Idle => s.(consumer := Scanning(s.qid))
    case Scanning(_) => Scan(s)
    case Dequeuing(_, _) => Take(s)
  }

  // --- Runs -----------------------------------------------------------------------------------------------------------

  ghost predicate Step(hash: Hash, s: State, t: State) {
    WellFormed(s) &&
    (t == Consume(s) || if s.producer.Resting? then exists p :: t == Arrive(hash, s, p) else t == Produce(s))
  }

  // Every queue is empty to begin with, and so is every slot.
  function Start(n: nat): State {
    State(seq(n, i => Queue(seq(QUEUE_SIZE, j => Null), 0, 0, Free, 0, 0, 0, [])), 0, Resting, Idle, [], [], [], [])
  }

  ghost predicate Run(hash: Hash, states: seq<State>) {
    forall i :: 0 <= i < |states| - 1 ==> Step(hash, states[i], states[i + 1])
  }

  // --- One queue ------------------------------------------------------------------------------------------------------

  function ProducerAt(s: State, q: nat): Option<Storing> {
    if s.producer.Enqueuing? && s.producer.q == q then Some(s.producer.at) else None
  }

  function ConsumerAt(s: State, q: nat): Option<Taking> {
    if s.consumer.Dequeuing? && s.consumer.q == q then Some(s.consumer.at) else None
  }

  predicate StoreInside(at: Option<Storing>) {
    at == Some(Checking) || at == Some(Passed) || at == Some(Stored) || at == Some(Moved)
  }

  predicate TakeInside(at: Option<Taking>) {
    at.Some? && !at.value.Chosen? && !at.value.Left?
  }

  // A packet is stored but not yet counted, or taken but not yet counted.
  predicate StoreUncounted(at: Option<Storing>) {
    at == Some(Stored) || at == Some(Moved) || at == Some(Unlocked)
  }

  predicate TakeUncounted(at: Option<Taking>) {
    at.Some? && (at.value.Cleared? || at.value.Advanced? || at.value.Left?)
  }

  /** Mutual exclusion, and what a drop leaves behind: the lock of a full queue, held for ever. */
  predicate LockKept(x: Queue, pa: Option<Storing>, ca: Option<Taking>) {
    && (x.lock == ByProducer <==> StoreInside(pa) || x.rxDrop > 0)
    && (x.lock == ByConsumer <==> TakeInside(ca))
    && (x.rxDrop > 0 ==> x.rxDrop == 1 && |x.contents| == QUEUE_SIZE && (pa.None? || pa == Some(Waiting)))
  }

  /** The array holds the abstract queue; between a slot write and the move of its index the index counts as moved. */
  ghost predicate RingKept(x: Queue, pa: Option<Storing>, ca: Option<Taking>) {
    Holds(x.pkts, if ca.Some? && ca.value.Cleared? then Next(x.head) else x.head,
          if pa == Some(Stored) then Next(x.tail) else x.tail, x.contents)
  }

  /** A queue that was chosen stays non-empty until its packet is taken, and that packet is its first. */
  predicate ChoiceKept(x: Queue, ca: Option<Taking>) {
    && (ca.Some? && (ca.value.Chosen? || ca.value.Entered? || ca.value.Fetched?) ==> x.contents != [])
    && (ca.Some? && ca.value.Fetched? ==> x.contents != [] && ca.value.slot == Full(x.contents[0]))
    && (TakeUncounted(ca) ==> ca.value.slot.Full?)
  }

  /** Once the test is passed there is room for the packet. */
  predicate RoomKept(x: Queue, pa: Option<Storing>) {
    pa == Some(Passed) ==> |x.contents| < QUEUE_SIZE
  }

  predicate CountsKept(x: Queue, pa: Option<Storing>, ca: Option<Taking>) {
    x.rx + (if StoreUncounted(pa) then 1 else 0) == x.tx + (if TakeUncounted(ca) then 1 else 0) + |x.contents|
  }

  ghost predicate QueueKept(x: Queue, pa: Option<Storing>, ca: Option<Taking>) {
    && WellFormedQueue(x) && LockKept(x, pa, ca) && RingKept(x, pa, ca) && ChoiceKept(x, ca) && RoomKept(x, pa)
    && CountsKept(x, pa, ca)
  }

  lemma StoreKeepsQueue(x: Queue, p: Packet, at: Storing, ca: Option<Taking>)
    requires QueueKept(x, Some(at), ca)
    ensures var (y, next) := StoreStep(x, p, at); QueueKept(y, next, ca)
  {
    hide Holds;
    if at == Checking {
      FullTest(x.pkts, x.head, x.tail, x.contents);
    } else if at == Passed {
      StoreHolds(x.pkts, x.head, x.tail, x.contents, p);
    }
  }

  lemma TakeKeepsQueue(x: Queue, at: Taking, pa: Option<Storing>)
    requires QueueKept(x, pa, Some(at))
    ensures var (y, next) := TakeStep(x, at); QueueKept(y, pa, next)
  {
    hide Holds;
    if at.Entered? {
      HeadSlot(x.pkts, x.head, x.tail, x.contents);
    } else if at.Fetched? {
      ClearHolds(x.pkts, x.head, if pa == Some(Stored) then Next(x.tail) else x.tail, x.contents);
    }
  }

  // --- The two threads together ---------------------------------------------------------------------------------------

  // The packets of one queue, in order.
  function OfQueue(hash: Hash, n: nat, ps: seq<Packet>, q: nat): seq<Packet>
    requires n > 0
  {
    if ps == [] then []
    else OfQueue(hash, n, ps[..|ps| - 1], q) + if EnqueueQid(hash, ps[|ps| - 1], n) == q then [ps[|ps| - 1]] else []
  }

  lemma OfQueueSnoc(hash: Hash, n: nat, ps: seq<Packet>, p: Packet, q: nat)
    requires n > 0
    ensures OfQueue(hash, n, ps + [p], q) == OfQueue(hash, n, ps, q) + if EnqueueQid(hash, p, n) == q then [p] else []
  {
    assert (ps + [p])[..|ps|] == ps;
  }

  // The thread that sends skips a null pointer.
  function Packets(slots: seq<Slot>): seq<Packet> {
    if slots == [] then []
    else Packets(slots[..|slots| - 1]) + if slots[|slots| - 1].Full? then [slots[|slots| - 1].pkt] else []
  }

  lemma PacketsSnoc(slots: seq<Slot>, slot: Slot)
    ensures Packets(slots + [slot]) == Packets(slots) + if slot.Full? then [slot.pkt] else []
  {
    assert (slots + [slot])[..|slots|] == slots;
  }

  // Taken from its queue, not yet returned.
  function InFlight(c: Consumer): seq<Slot> {
    if c.Dequeuing? && (c.at.Cleared? || c.at.Advanced? || c.at.Left?) then [c.at.slot] else []
  }

  function Taken(s: State): seq<Packet> {
    Packets(s.returned + InFlight(s.consumer))
  }

  // Arrived, neither stored nor refused.
  function Pending(s: State, q: nat): seq<Packet> {
    var at := ProducerAt(s, q);
    if at == Some(Waiting) || at == Some(Checking) || at == Some(Passed) then [s.producer.p] else []
  }

  ghost predicate QueuesKept(s: State) {
    forall q :: 0 <= q < |s.queues| ==> QueueKept(s.queues[q], ProducerAt(s, q), ConsumerAt(s, q))
  }

  // The packet under way belongs to the queue it is under way to.
  predicate RouteKept(hash: Hash, s: State)
    requires |s.queues| > 0
  {
    s.producer.Enqueuing? ==> EnqueueQid(hash, s.producer.p, |s.queues|) == s.producer.q
  }

  /** Each queue is what was stored into it less what was taken, and what was stored is a beginning of what arrived:
      all of it but the pending packet, unless the queue has dropped one. */
  ghost predicate QueueHistory(hash: Hash, s: State, q: nat)
    requires |s.queues| > 0 && q < |s.queues|
  {
    var n := |s.queues|;
    var stored, came := OfQueue(hash, n, s.accepted, q), OfQueue(hash, n, s.arrived, q);
    && stored == OfQueue(hash, n, Taken(s), q) + s.queues[q].contents
    && stored <= came
    && (s.queues[q].rxDrop == 0 ==> came == stored + Pending(s, q))
    && (forall p :: p in s.queues[q].contents ==> EnqueueQid(hash, p, n) == q)
  }

  ghost predicate HistoryKept(hash: Hash, s: State)
    requires |s.queues| > 0
  {
    && (forall q :: 0 <= q < |s.queues| ==> QueueHistory(hash, s, q))
    && (forall i :: 0 <= i < |s.returned| ==> s.returned[i].Full?)
  }

  ghost predicate Invariant(hash: Hash, s: State) {
    WellFormed(s) && QueuesKept(s) && RouteKept(hash, s) && HistoryKept(hash, s)
  }
}
