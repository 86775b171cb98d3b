/** The per-flow packet list of examples/flow_table/sdn_pkt_list.h: a singly linked list with a tail pointer, a flag
    and a counter, proved against the list values of the switch agent. */
module SdnPktList {
  import opened SwitchAgent

  class Node {
    var pkt: Packet
    var next: Node?
    // The list the node was made for.
    ghost const owner: object

    constructor (pkt: Packet, ghost owner: object)
      ensures this.pkt == pkt && next == null && this.owner == owner
    {
      this.pkt := pkt;
      this.owner := owner;
      next := null;
    }
  }

  class List {
    var head: Node?
    var tail: Node?
    var flag: bool
    var counter: int
    ghost var nodes: seq<Node>

    // A chain from the first node to the last.
    ghost predicate Chain(first: Node?, chain: seq<Node>)
      reads chain
    {
      if chain == [] then first == null
      else
        && first == chain[0] && chain[|chain| - 1].next == null
        && (forall i :: 0 <= i < |chain| - 1 ==> chain[i].next == chain[i + 1])
    }

    ghost predicate Valid()
      reads this, nodes
    {
      && Chain(head, nodes)
      && (nodes != [] ==> tail == nodes[|nodes| - 1])
      && (forall i, j :: 0 <= i < j < |nodes| ==> nodes[i] != nodes[j])
      && forall n :: n in nodes ==> n.owner == this
    }

    ghost function Contents(): seq<Packet>
      reads this, nodes
    {
      seq(|nodes|, i requires 0 <= i < |nodes| reads this, nodes => nodes[i].pkt)
    }

    ghost function View(): PacketList
      reads this, nodes
    {
      PacketList(Contents(), flag, counter)
    }

    constructor ()
      ensures Valid() && View() == EMPTY_LIST && nodes == []
    {
      head, tail := null, null;
      flag := false;
      counter := 0;
      nodes := [];
    }

    method Add(pkt: Packet)
      requires Valid()
      modifies this, nodes
      ensures Valid()
      ensures View() == PacketList(old(View()).entries + [pkt], old(View()).flag, old(View()).counter + 1)
      ensures forall n :: n in nodes ==> n.owner == this && (n in old(nodes) || fresh(n))
    {
      ghost var before := Contents();
      counter := counter + 1;
      var entry := new Node(pkt, this);
      if head == null {
        head := entry;
        tail := head;
      } else {
        tail.next := entry;
        tail := entry;
      }
      nodes := nodes + [entry];
      assert Contents() == before + [pkt];
    }

    method SetFlag()
      requires Valid()
      modifies this`flag
      ensures Valid() && View() == old(View()).(flag := true) && nodes == old(nodes)
    {
      flag := true;
    }

    method GetFlag() returns (f: bool)
      ensures f == flag
    {
      f := flag;
    }

    // The packets go back in list order.
    method Flush() returns (returned: seq<Packet>)
      requires Valid()
      modifies this
      ensures Valid() && View() == EMPTY_LIST && nodes == []
      ensures returned == old(Contents())
    {
      returned := [];
      ghost var k := 0;
      while head != null
        invariant 0 <= k <= |nodes| && nodes == old(nodes)
        invariant Chain(head, nodes[k..])
        invariant returned == Contents()[..k]
        decreases |nodes| - k
      {
        var entry := head;
        assert entry == nodes[k..][0];
        head := entry.next;
        returned := returned + [entry.pkt];
        counter := counter - 1;
        assert nodes[k + 1..] == nodes[k..][1..];
        k := k + 1;
      }
      assert k == |nodes|;
      flag := false;
      head, tail := null, null;
      counter := 0;
      nodes := [];
    }
  }

  // A list whose own fields and nodes did not change is as it was.
  twostate lemma Untouched(l: List)
    requires old(l.Valid()) && unchanged(l)
    requires forall k :: 0 <= k < |l.nodes| ==>
               l.nodes[k].next == old(l.nodes[k].next) && l.nodes[k].pkt == old(l.nodes[k].pkt)
    ensures l.Valid() && l.View() == old(l.View())
  {
  }

  /** The packet buffer table of the switch agent: its lists, each a chain of nodes of its own. */
  class PacketBuffers {
    const lists: seq<List>
    ghost var repr: set<Node>

    ghost predicate Valid()
      reads this, lists, repr
    {
      && |lists| == LISTS
      && (forall i, n :: 0 <= i < LISTS && n in lists[i].nodes ==> n in repr && n.owner == lists[i])
      && (forall i :: 0 <= i < LISTS ==> lists[i].Valid())
      && (forall i, j :: 0 <= i < j < LISTS ==> lists[i] != lists[j])
    }

    ghost function View(): (v: seq<PacketList>)
      requires Valid()
      reads this, lists, repr
      ensures |v| == LISTS
    {
      seq(LISTS, i requires 0 <= i < LISTS && Valid() reads this, lists, repr => lists[i].View())
    }

    constructor ()
      ensures Valid() && View() == seq(LISTS, i => EMPTY_LIST)
      ensures fresh(repr) && forall l :: l in lists ==> fresh(l)
    {
      var ls: seq<List> := [];
      while |ls| < LISTS
        invariant |ls| <= LISTS
        invariant forall i :: 0 <= i < |ls| ==> fresh(ls[i]) && ls[i].Valid()
        invariant forall i :: 0 <= i < |ls| ==> ls[i].View() == EMPTY_LIST && ls[i].nodes == []
        invariant forall i, j :: 0 <= i < j < |ls| ==> ls[i] != ls[j]
      {
        var l := new List();
        ls := ls + [l];
      }
      lists := ls;
      repr := {};
    }

    method Add(slot: nat, pkt: Packet)
      requires Valid() && slot < LISTS
      modifies this`repr, lists, repr
      ensures Valid() && fresh(repr - old(repr))
      ensures View() == old(View())[slot := PacketList(old(View())[slot].entries + [pkt], old(View())[slot].flag,
                                                       old(View())[slot].counter + 1)]
    {
      hide List.Valid, List.View, List.Contents;
      var list := lists[slot];
      label before:
      list.Add(pkt);
      forall i | 0 <= i < LISTS && i != slot
        ensures lists[i].nodes == old(lists[i].nodes) && lists[i].Valid() && lists[i].View() == old(lists[i].View())
      {
        var l := lists[i];
        forall k | 0 <= k < |l.nodes|
          ensures l.nodes[k].next == old@before(l.nodes[k].next) && l.nodes[k].pkt == old@before(l.nodes[k].pkt)
        {
          assert l.nodes[k].owner == l && l.nodes[k] !in old@before(list.nodes);
        }
        Untouched@before(l);
      }
      repr := repr + set n | n in list.nodes;
    }

    method SetFlag(slot: nat)
      requires Valid() && slot < LISTS
      modifies lists
      ensures Valid() && repr == old(repr)
      ensures View() == old(View())[slot := old(View())[slot].(flag := true)]
    {
      lists[slot].SetFlag();
    }

    method GetFlag(slot: nat) returns (f: bool)
      requires Valid() && slot < LISTS
      ensures f == View()[slot].flag
    {
      f := lists[slot].GetFlag();
    }

    method Flush(slot: nat) returns (returned: seq<Packet>)
      requires Valid() && slot < LISTS
      modifies lists
      ensures Valid() && repr == old(repr)
      ensures View() == old(View())[slot := EMPTY_LIST] && returned == old(View())[slot].entries
    {
      returned := lists[slot].Flush();
    }
  }
}
