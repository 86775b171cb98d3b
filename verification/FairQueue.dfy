/** The calls of examples/fair_queue/fair_queue_helper.h as methods on mutable queues, one call at a time. */
module FairQueue {
  import opened Optional
  import opened FairQueueRing

  class Ring {
    const pkts: array<Slot>
    var head: nat
    var tail: nat
    var locked: bool
    var rx: nat
    var tx: nat
    var rxDrop: nat
    ghost var contents: seq<Packet>

    ghost predicate Valid()
      reads this, pkts
    {
      Holds(pkts[..], head, tail, contents) && rx == tx + |contents|
    }

    constructor ()
      ensures Valid() && fresh(pkts) && contents == [] && !locked && rx == 0 && tx == 0 && rxDrop == 0
    {
      pkts := new Slot[QUEUE_SIZE](_ => Null);
      head, tail, locked := 0, 0, false;
      rx, tx, rxDrop, contents := 0, 0, 0, [];
      new;
      assert pkts[..] == seq(QUEUE_SIZE, i => Null);
      EmptyHolds();
    }

    // The read of the scan, which does not take the lock.
    method LooksEmpty() returns (empty: bool)
      requires Valid()
      ensures empty <==> contents == []
    {
      hide Holds;
      HoldsIndices(pkts[..], head, tail, contents);
      HeadSlot(pkts[..], head, tail, contents);
      return pkts[head] == Null;
    }

    // The critical section of fairqueue_enqueue; a refusal leaves the lock held.
    method Store(p: Packet) returns (stored: bool)
      requires Valid() && !locked
      modifies this, pkts
      ensures Valid() && stored == (|old(contents)| < QUEUE_SIZE) && locked == !stored && tx == old(tx)
      ensures contents == if stored then old(contents) + [p] else old(contents)
      ensures rx == old(rx) + (if stored then 1 else 0) && rxDrop == old(rxDrop) + if stored then 0 else 1
    {
      hide Holds;
      HoldsIndices(pkts[..], head, tail, contents);
      FullTest(pkts[..], head, tail, contents);
      locked := true;
      if head == tail && pkts[head] != Null {
        rxDrop := rxDrop + 1;
        return false;
      }
      StoreHolds(pkts[..], head, tail, contents, p);
      assert pkts[..][tail := Full(p)] == pkts[..tail] + [Full(p)] + pkts[tail + 1..];
      pkts[tail] := Full(p);
      contents := contents + [p];
      tail := Next(tail);
      locked := false;
      rx := rx + 1;
      return true;
    }

    // The critical section of fairqueue_dequeue, on a queue the scan has chosen.
    method TakeFirst() returns (slot: Slot)
      requires Valid() && !locked && contents != []
      modifies this, pkts
      ensures Valid() && !locked && slot == Full(old(contents)[0]) && contents == old(contents)[1..]
      ensures tx == old(tx) + 1 && rx == old(rx) && rxDrop == old(rxDrop)
    {
      hide Holds;
      HoldsIndices(pkts[..], head, tail, contents);
      HeadSlot(pkts[..], head, tail, contents);
      ClearHolds(pkts[..], head, tail, contents);
      locked := true;
      slot := pkts[head];
      pkts[head] := Null;
      contents := contents[1..];
      head := Next(head);
      locked := false;
      tx := tx + 1;
    }
  }

  lemma HoldsIndices(pkts: seq<Slot>, head: nat, tail: nat, contents: seq<Packet>)
    requires Holds(pkts, head, tail, contents)
    ensures |pkts| == QUEUE_SIZE && head < QUEUE_SIZE && tail < QUEUE_SIZE
  {
  }

  class Scheduler {
    const queues: seq<Ring>
    var qid: nat

    ghost predicate Valid()
      reads this, queues, Arrays()
    {
      && qid < |queues|
      && (forall r :: r in queues ==> r.pkts in Arrays() && r.Valid())
      && (forall i, j :: 0 <= i < j < |queues| ==> queues[i] != queues[j] && queues[i].pkts != queues[j].pkts)
    }

    ghost function Arrays(): set<array<Slot>> {
      set r: Ring | r in queues :: r.pkts
    }

    constructor (queues: seq<Ring>)
      requires queues != [] && (forall i :: 0 <= i < |queues| ==> queues[i].Valid())
      requires forall i, j :: 0 <= i < j < |queues| ==> queues[i] != queues[j] && queues[i].pkts != queues[j].pkts
      ensures Valid() && this.queues == queues && qid == 0
    {
      this.queues := queues;
      qid := 0;
    }

    // Where the lock of the chosen queue is held, the call does not return.
    method Enqueue(hash: Hash, p: Packet) returns (r: int)
      requires Valid() && (p.tuple.Some? ==> !queues[EnqueueQid(hash, p, |queues|)].locked)
      modifies queues, Arrays()
      ensures Valid() && qid == old(qid) && (r == 0 || r == -1)
      ensures var q := EnqueueQid(hash, p, |queues|);
              r == 0 <==> q != -1 && |old(queues[q].contents)| < QUEUE_SIZE
      ensures forall i :: 0 <= i < |queues| ==>
                if i != EnqueueQid(hash, p, |queues|) then
                  queues[i].contents == old(queues[i].contents) && queues[i].locked == old(queues[i].locked)
                else if r == 0 then
                  queues[i].contents == old(queues[i].contents) + [p] && !queues[i].locked
                else
                  queues[i].contents == old(queues[i].contents) && queues[i].locked
    {
      hide Holds;
      var q := EnqueueQid(hash, p, |queues|);
      if q == -1 {
        return -1;
      }
      var stored := queues[q].Store(p);
      return if stored then 0 else -1;
    }

    /** The scan finds the first non-empty queue from qid on and leaves qid behind it; it fails exactly when every queue
        is empty, and then qid is where it was. */
    method GetDequeueQid() returns (r: int)
      requires Valid()
      modifies this`qid
      ensures Valid() && -1 <= r < |queues|
      ensures r == -1 ==> qid == old(qid) && forall i :: 0 <= i < |queues| ==> queues[i].contents == []
      ensures r >= 0 ==> queues[r].contents != [] && qid == (r + 1) % |queues|
      ensures r >= 0 ==> forall i :: 0 <= i < |queues| && Around(|queues|, old(qid), i) < Around(|queues|, old(qid), r)
                             ==> queues[i].contents == []
    {
      hide Ring.Valid;
      var start, n := qid, |queues|;
      ghost var turns := 0;
      while true
        invariant Valid() && turns < n && qid == Turned(n, start, turns)
        invariant forall i :: 0 <= i < n && Around(n, start, i) < turns ==> queues[i].contents == []
        decreases n - turns
      {
        var empty := queues[qid].LooksEmpty();
        TurnOnce(n, start, turns);
        if !empty {
          r := qid;
          qid := (qid + 1) % n;
          return;
        }
        qid := (qid + 1) % n;
        turns := turns + 1;
        if qid == start {
          return -1;
        }
      }
    }

    // The first queue from qid on that has a packet.
    ghost predicate IsNext(i: nat)
      requires Valid() && i < |queues|
      reads this, queues, Arrays()
    {
      && queues[i].contents != []
      && forall j :: 0 <= j < |queues| && Around(|queues|, qid, j) < Around(|queues|, qid, i) ==> queues[j].contents == []
    }

    // Where the lock of the chosen queue is held, the call does not return.
    method Dequeue() returns (r: int, pkt: Slot, ghost served: int)
      requires Valid() && forall i :: 0 <= i < |queues| && IsNext(i) ==> !queues[i].locked
      modifies this`qid, queues, Arrays()
      ensures Valid() && -1 <= served < |queues| && r == if served == -1 then -1 else 0
      ensures served == -1 ==> pkt == Null && qid == old(qid)
      ensures served == -1 ==> forall i :: 0 <= i < |queues| ==> queues[i].contents == old(queues[i].contents) == []
      ensures served >= 0 ==> pkt.Full? && old(queues[served].contents) == [pkt.pkt] + queues[served].contents
      ensures served >= 0 ==> qid == (served + 1) % |queues|
      ensures served >= 0 ==> forall i :: 0 <= i < |queues| && i != served ==>
                                queues[i].contents == old(queues[i].contents)
      ensures served >= 0 ==> forall i :: 0 <= i < |queues| ==>
                                Around(|queues|, old(qid), i) < Around(|queues|, old(qid), served) ==>
                                  queues[i].contents == []
      ensures forall i :: 0 <= i < |queues| ==> queues[i].locked == old(queues[i].locked)
    {
      hide Holds;
      var q := GetDequeueQid();
      served := q;
      if q == -1 {
        return -1, Null, served;
      }
      pkt := queues[q].TakeFirst();
      return 0, pkt, served;
    }
  }

  // Where a number of turns, at most a whole round, leads.
  function Turned(n: nat, start: nat, turns: nat): (at: nat)
    requires start < n && turns <= n
    ensures at < n
  {
    if start + turns < n then start + turns else start + turns - n
  }

  lemma TurnOnce(n: nat, start: nat, turns: nat)
    requires start < n && turns < n
    ensures Around(n, start, Turned(n, start, turns)) == turns
    ensures (Turned(n, start, turns) + 1) % n == Turned(n, start, turns + 1)
    ensures Turned(n, start, turns + 1) == start <==> turns + 1 == n
    ensures forall i :: 0 <= i < n ==> (Around(n, start, i) == turns <==> i == Turned(n, start, turns))
  {
  }
}
