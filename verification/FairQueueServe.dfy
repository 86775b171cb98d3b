/** A call to fairqueue_dequeue that nothing disturbs, as a run of the consumer: it serves the first non-empty queue from
    qid on, or reports that all are empty. */
module FairQueueServe {
  import opened Optional
  import opened FairQueueRing
  import opened FairQueueThreads
  import opened FairQueueRuns
  import FairQueue
  import FairQueueDrop

  // The consumer goes on by one step.
  lemma Goes(hash: Hash, run: seq<State>) returns (longer: seq<State>)
    requires run != [] && Run(hash, run) && Invariant(hash, run[|run| - 1])
    ensures WellFormed(run[|run| - 1])
    ensures Run(hash, longer) && |longer| == |run| + 1 && longer[0] == run[0]
    ensures longer[|run|] == Consume(run[|run| - 1]) && Invariant(hash, longer[|run|])
  {
    var s := run[|run| - 1];
    hide QueuesKept, HistoryKept, Run, Consume;
    assert Step(hash, s, Consume(s));
    hide Step;
    FairQueueDrop.RunSnoc(hash, run, Consume(s));
    StepKeepsInvariant(hash, s, Consume(s));
    longer := run + [Consume(s)];
  }

  // --- The scan -------------------------------------------------------------------------------------------------------

  lemma ScanTurn(hash: Hash, s: State, turn: nat)
    requires Invariant(hash, s) && s.consumer.Scanning? && turn < |s.queues|
    requires s.qid == FairQueue.Turned(|s.queues|, s.consumer.start, turn)
    ensures var n, q := |s.queues|, s.qid;
            Consume(s) ==
            if s.queues[q].contents != [] then
              s.(qid := (q + 1) % n, consumer := Dequeuing(q, Chosen), scans := s.scans + [q])
            else if turn + 1 == n then s.(qid := s.consumer.start, consumer := Idle, scans := s.scans + [-1])
            else s.(qid := FairQueue.Turned(n, s.consumer.start, turn + 1))
  {
    hide QueuesKept, HistoryKept, FairQueue.Turned;
    FairQueue.TurnOnce(|s.queues|, s.consumer.start, turn);
    ScannedSlot(s, s.qid);
  }

  // The scan passes over empty queues.
  lemma {:induction false} Passes(hash: Hash, run: seq<State>, turn: nat, last: nat) returns (longer: seq<State>)
    requires run != [] && Run(hash, run) && Invariant(hash, run[|run| - 1]) && run[|run| - 1].consumer.Scanning?
    requires var s := run[|run| - 1];
             && turn <= last < |s.queues| && s.qid == FairQueue.Turned(|s.queues|, s.consumer.start, turn)
             && forall i :: turn <= i < last ==>
                  s.queues[FairQueue.Turned(|s.queues|, s.consumer.start, i)].contents == []
    ensures longer != [] && Run(hash, longer) && longer[0] == run[0]
    ensures var s, t := run[|run| - 1], longer[|longer| - 1];
            Invariant(hash, t) && t == s.(qid := FairQueue.Turned(|s.queues|, s.consumer.start, last))
    decreases last - turn
  {
    hide Run, Invariant, Consume, FairQueue.Turned;
    var s := run[|run| - 1];
    if turn == last {
      longer := run;
    } else {
      ScanTurn(hash, s, turn);
      longer := Goes(hash, run);
      longer := Passes(hash, longer, turn + 1, last);
    }
  }

  // --- The call -------------------------------------------------------------------------------------------------------

  // All but one queue and the place of the consumer are as they were.
  ghost predicate Beside(s: State, t: State, q: nat) {
    && |t.queues| == |s.queues| && (forall i :: 0 <= i < |s.queues| && i != q ==> t.queues[i] == s.queues[i])
    && t.producer == s.producer && t.arrived == s.arrived && t.accepted == s.accepted
    && t.scans == s.scans && t.qid == s.qid
  }

  lemma TakePhase(hash: Hash, s: State, q: nat)
    requires Invariant(hash, s) && s.consumer.Dequeuing? && s.consumer.q == q
    requires s.consumer.at.Chosen? ==> s.queues[q].lock.Free?
    ensures WellFormed(s) && q < |s.queues|
    ensures var t := Consume(s);
            && Beside(s, t, q)
            && match s.consumer.at
               case Chosen => t.consumer == Dequeuing(q, Entered) && t.returned == s.returned
                              && t.queues[q] == s.queues[q].(lock := ByConsumer)
               case Entered => t.consumer == Dequeuing(q, Fetched(s.queues[q].pkts[s.queues[q].head]))
                               && t.returned == s.returned && t.queues[q] == s.queues[q]
               case Fetched(slot) => t.consumer == Dequeuing(q, Cleared(slot)) && t.returned == s.returned
                                     && s.queues[q].contents != [] && slot == Full(s.queues[q].contents[0])
                                     && t.queues[q].contents == s.queues[q].contents[1..]
                                     && t.queues[q].tx == s.queues[q].tx && t.queues[q].rx == s.queues[q].rx
               case Cleared(slot) => t.consumer == Dequeuing(q, Advanced(slot)) && t.returned == s.returned
                                     && t.queues[q] == s.queues[q].(head := t.queues[q].head)
               case Advanced(slot) => t.consumer == Dequeuing(q, Left(slot)) && t.returned == s.returned
                                      && t.queues[q] == s.queues[q].(lock := Free)
               case Left(slot) => t.consumer == Idle && t.returned == s.returned + [slot]
                                  && t.queues[q] == s.queues[q].(tx := s.queues[q].tx + 1)
  {
    hide Holds, HistoryKept;
    assert QueueKept(s.queues[q], ProducerAt(s, q), ConsumerAt(s, q));
  }

  // From the choice of a queue to the return of its packet.
  lemma TakeRun(hash: Hash, run: seq<State>, q: nat) returns (longer: seq<State>)
    requires run != [] && Run(hash, run) && Invariant(hash, run[|run| - 1])
    requires var s := run[|run| - 1];
             q < |s.queues| && s.consumer == Dequeuing(q, Chosen) && s.queues[q].lock.Free? && s.queues[q].contents != []
    ensures longer != [] && Run(hash, longer) && longer[0] == run[0]
    ensures var s, t := run[|run| - 1], longer[|longer| - 1];
            && Invariant(hash, t) && Beside(s, t, q) && t.consumer == Idle
            && t.returned == s.returned + [Full(s.queues[q].contents[0])]
            && t.queues[q].contents == s.queues[q].contents[1..] && t.queues[q].lock.Free?
            && t.queues[q].tx == s.queues[q].tx + 1 && t.queues[q].rx == s.queues[q].rx
  {
    hide Run, Invariant, Consume, WellFormed;
    TakePhase(hash, run[|run| - 1], q);
    longer := Goes(hash, run);
    TakePhase(hash, longer[|longer| - 1], q);
    longer := Goes(hash, longer);
    TakePhase(hash, longer[|longer| - 1], q);
    longer := Goes(hash, longer);
    TakePhase(hash, longer[|longer| - 1], q);
    longer := Goes(hash, longer);
    TakePhase(hash, longer[|longer| - 1], q);
    longer := Goes(hash, longer);
    TakePhase(hash, longer[|longer| - 1], q);
    longer := Goes(hash, longer);
  }

  lemma Begins(hash: Hash, s: State)
    requires Invariant(hash, s) && s.consumer.Idle?
    ensures Consume(s) == s.(consumer := Scanning(s.qid)) && s.qid == FairQueue.Turned(|s.queues|, s.qid, 0)
    ensures |s.queues| > 0 && s.qid < |s.queues|
  {
  }

  lemma TurnsReach(n: nat, start: nat, q: nat)
    requires start < n && q < n
    ensures FairQueue.Turned(n, start, Around(n, start, q)) == q
    ensures forall i :: 0 <= i < n ==> Around(n, start, FairQueue.Turned(n, start, i)) == i
  {
  }

  /** While the producer rests or waits, and no drop has locked the queue, a call serves the first non-empty queue from qid
      on: it returns the first packet of that queue, and the next scan begins behind it. */
  lemma ServesNext(hash: Hash, s: State, q: nat) returns (run: seq<State>)
    requires Invariant(hash, s) && s.consumer.Idle? && q < |s.queues| && s.queues[q].contents != []
    requires s.queues[q].lock.Free?
    requires forall i :: 0 <= i < |s.queues| && Around(|s.queues|, s.qid, i) < Around(|s.queues|, s.qid, q) ==>
                           s.queues[i].contents == []
    ensures run != [] && Run(hash, run) && run[0] == s
    ensures var t := run[|run| - 1];
            && Invariant(hash, t) && t.consumer == Idle && t.producer == s.producer && t.arrived == s.arrived
            && t.returned == s.returned + [Full(s.queues[q].contents[0])]
            && t.scans == s.scans + [q] && t.qid == (q + 1) % |s.queues|
            && |t.queues| == |s.queues| && (forall i :: 0 <= i < |s.queues| && i != q ==> t.queues[i] == s.queues[i])
            && t.queues[q].contents == s.queues[q].contents[1..] && t.queues[q].lock.Free?
            && t.queues[q].tx == s.queues[q].tx + 1 && t.queues[q].rx == s.queues[q].rx
  {
    Begins(hash, s);
    hide Run, Invariant, Consume, Around, FairQueue.Turned, WellFormed;
    var n := |s.queues|;
    var last := Around(n, s.qid, q);
    TurnsReach(n, s.qid, q);
    OneState(hash, s);
    run := Goes(hash, [s]);
    run := Passes(hash, run, 0, last);
    ScanTurn(hash, run[|run| - 1], last);
    run := Goes(hash, run);
    run := TakeRun(hash, run, q);
  }

  lemma OneState(hash: Hash, s: State)
    ensures Run(hash, [s])
  {
  }

  /** When all queues are empty the call returns nothing, and the next scan begins where this one began. */
  lemma NothingToServe(hash: Hash, s: State) returns (run: seq<State>)
    requires Invariant(hash, s) && s.consumer.Idle? && forall i :: 0 <= i < |s.queues| ==> s.queues[i].contents == []
    ensures run != [] && Run(hash, run) && run[0] == s && run[|run| - 1] == s.(scans := s.scans + [-1])
  {
    Begins(hash, s);
    hide Run, Invariant, Consume, FairQueue.Turned, WellFormed;
    OneState(hash, s);
    run := Goes(hash, [s]);
    run := Passes(hash, run, 0, |s.queues| - 1);
    ScanTurn(hash, run[|run| - 1], |s.queues| - 1);
    run := Goes(hash, run);
  }
}
