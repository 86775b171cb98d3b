/** The growable byte buffer of examples/flow_table/msgbuf.c: a byte queue in an array between start and end.

    The result of a system call is a parameter: the bytes a read delivers, the count a write accepts. */
module Msgbuf {
  import opened OpenFlow

  class Buffer {
    var buf: array<Octet>
    var len: nat
    var start: nat
    var end: nat

    ghost predicate Valid()
      reads this
    {
      0 < len == buf.Length && start <= end <= len
    }

    // The queued bytes.
    function Contents(): seq<Octet>
      requires Valid()
      reads this, buf
    {
      buf[start..end]
    }

    constructor (bufsize: nat)
      requires bufsize > 0
      ensures Valid() && fresh(buf) && len == bufsize && Contents() == [] && end < len
    {
      len := bufsize;
      buf := new Octet[bufsize](_ => 0);
      start, end := 0, 0;
    }

    method Grow()
      requires Valid()
      modifies this
      ensures Valid() && fresh(buf) && len == 2 * old(len) && start == old(start) && end == old(end)
      ensures Contents() == old(Contents())
    {
      var previous := buf;
      len := 2 * len;
      buf := new Octet[len](i requires 0 <= i reads previous => if i < previous.Length then previous[i] else 0);
    }

    // Copies bytes behind end.
    method Append(data: seq<Octet>)
      requires Valid() && end + |data| <= len
      modifies this`end, buf
      ensures Valid() && end == old(end) + |data|
      ensures Contents() == old(Contents()) + data
    {
      forall i | 0 <= i < |data| {
        buf[end + i] := data[i];
      }
      end := end + |data|;
    }

    // The bytes read must fit behind end; afterwards there is room for the next read.
    method Read(incoming: seq<Octet>)
      requires Valid() && |incoming| <= len - end
      modifies this, buf
      ensures Valid() && (buf == old(buf) || fresh(buf))
      ensures Contents() == old(Contents()) + incoming
      ensures end < len
    {
      Append(incoming);
      if end >= len {
        Grow();
      }
    }

    // With a positive limit exactly that many bytes are offered; the call fails if fewer are queued.
    method Write(limit: nat, accepted: int) returns (count: int, sent: seq<Octet>)
      requires Valid() && -1 <= accepted <= end - start && (limit > 0 ==> accepted <= limit)
      modifies this
      ensures Valid() && buf == old(buf) && len == old(len)
      ensures if limit > old(end - start) then count == -1 && sent == []
              else count == accepted && |sent| == if accepted > 0 then accepted else 0
      ensures old(Contents()) == sent + Contents()
    {
      var sendLen := end - start;
      if limit > 0 {
        if sendLen < limit {
          return -1, [];
        }
        if sendLen > limit {
          sendLen := limit;
        }
      }
      count := accepted;
      sent := [];
      if count > 0 {
        sent := buf[start..start + count];
        start := start + count;
      }
      if start >= end {
        start, end := 0, 0;
      }
    }

    method CountBuffered() returns (n: nat)
      requires Valid()
      ensures n == |Contents()|
    {
      n := end - start;
    }

    // The position of the first queued byte; none if the queue is empty.
    method Peek() returns (at: int)
      requires Valid()
      ensures if Contents() == [] then at == -1 else 0 <= at == start
    {
      if start >= end {
        return -1;
      }
      return start;
    }

    // The bytes stay in the array; only start moves.
    method Pull(count: int) returns (pulled: int, data: seq<Octet>)
      requires Valid()
      modifies this
      ensures Valid() && buf == old(buf) && len == old(len) && buf[..] == old(buf[..]) && end <= old(end)
      ensures if count <= 0 || old(Contents()) == [] then pulled == -1 && data == []
              else pulled == |data| && |data| == if count < |old(Contents())| then count else |old(Contents())|
      ensures old(Contents()) == data + Contents()
    {
      var min := if count < end - start then count else end - start;
      if min <= 0 {
        return -1, [];
      }
      data := buf[start..start + min];
      start := start + min;
      if start >= end {
        start, end := 0, 0;
      }
      return min, data;
    }

    method Push(data: seq<Octet>)
      requires Valid()
      modifies this, buf
      ensures Valid() && (buf == old(buf) || fresh(buf))
      ensures Contents() == old(Contents()) + data
    {
      while end + |data| > len
        invariant Valid() && (buf == old(buf) || fresh(buf))
        invariant start == old(start) && end == old(end) && Contents() == old(Contents())
        decreases end + |data| - len
      {
        Grow();
      }
      Append(data);
    }
  }
}
