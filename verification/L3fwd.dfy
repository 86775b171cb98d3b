/** The exact-match table of examples/l3fwd/l3fwd_em.c: keys generated by arithmetic, and the port a packet leaves by. */
module L3fwd {
  import opened Optional
  import opened FlowTable

  // The entries of the table on a 64-bit and on a 32-bit machine.
  const HASH_ENTRIES_64: nat := 4194304
  const HASH_ENTRIES_32: nat := 1048576
  const HASH_ENTRY_NUMBER_DEFAULT: nat := 4

  const NUMBER_PORT_USED: nat := 4
  const BYTE_VALUE_MAX: nat := 256

  // The number of keys there are: four routes, three bytes.
  const PERIOD: nat := 67108864

  function Ipv4(a: nat, b: nat, c: nat, d: nat): nat {
    d + 256 * (c + 256 * (b + 256 * a))
  }

  function Byte(x: nat): (r: nat)
    ensures r < 256
  {
    x % 256
  }

  datatype Route = Route(key: Key, ifOut: nat)

  function RouteAt(i: nat): Route
    requires i < NUMBER_PORT_USED
  {
    match i
    case 0 => Route(Key(Ipv4(101, 0, 0, 0), Ipv4(100, 10, 0, 1), 0, 1, TCP), 0)
    case 1 => Route(Key(Ipv4(201, 0, 0, 0), Ipv4(200, 20, 0, 1), 1, 0, TCP), 1)
    case 2 => Route(Key(Ipv4(111, 0, 0, 0), Ipv4(100, 30, 0, 1), 0, 2, TCP), 2)
    case 3 => Route(Key(Ipv4(211, 0, 0, 0), Ipv4(200, 40, 0, 1), 2, 0, TCP), 3)
  }

  function Prefix(i: nat): nat
    requires i < NUMBER_PORT_USED
  {
    match i
    case 0 => 101
    case 1 => 201
    case 2 => 111
    case 3 => 211
  }

  // The entry of flow i; the last division is cut to a byte.
  function Generated(i: nat): Route {
    var a := Byte(i / NUMBER_PORT_USED % BYTE_VALUE_MAX);
    var b := Byte(i / NUMBER_PORT_USED / BYTE_VALUE_MAX % BYTE_VALUE_MAX);
    var c := Byte(i / NUMBER_PORT_USED / (BYTE_VALUE_MAX * BYTE_VALUE_MAX));
    var route := RouteAt(i % NUMBER_PORT_USED);
    route.(key := route.key.(dstAddr := Ipv4(Prefix(i % NUMBER_PORT_USED), c, b, a)))
  }

  // The lowest digit and the rest are told by the number.
  lemma Split256(a: nat, q: nat, c: nat, p: nat)
    requires a < 256 && c < 256 && a + 256 * q == c + 256 * p
    ensures a == c && q == p
  {
  }

  lemma Split4(a: nat, q: nat, c: nat, p: nat)
    requires a < 4 && c < 4 && a + 4 * q == c + 4 * p
    ensures a == c && q == p
  {
  }

  // Three bytes above some rest.
  function Bytes(a: nat, b: nat, c: nat, rest: nat): nat {
    a + 256 * (b + 256 * (c + 256 * rest))
  }

  lemma BytesOnce(a: nat, b: nat, c: nat, x: nat, d: nat, e: nat, f: nat, y: nat)
    requires a < 256 && b < 256 && c < 256 && d < 256 && e < 256 && f < 256 && Bytes(a, b, c, x) == Bytes(d, e, f, y)
    ensures a == d && b == e && c == f && x == y
  {
    Split256(a, b + 256 * (c + 256 * x), d, e + 256 * (f + 256 * y));
    Split256(b, c + 256 * x, e, f + 256 * y);
    Split256(c, x, f, y);
  }

  // The number of a flow among those of one period: its route and its three bytes.
  function Number(i: nat): nat {
    i % 4 + 4 * Bytes(Byte(i / 4 % 256), Byte(i / 4 / 256 % 256), Byte(i / 4 / 65536), 0)
  }

  lemma NumberIsModulo(i: nat)
    ensures i % PERIOD == Number(i)
  {
    var m := i / 4;
    var m1, m2 := m / 256, m / 65536;
    TwoBytes(m);
    assert m == m % 256 + 256 * m1 && m1 == m1 % 256 + 256 * m2 && m2 == m2 % 256 + 256 * (m2 / 256);
    var x := m2 / 256;
    assert i == i % 4 + 4 * Bytes(m % 256, m1 % 256, m2 % 256, x);
    assert i == Number(i) + PERIOD * x;
    assert Number(i) < PERIOD;
    Modulo(i, Number(i), x);
  }

  lemma TwoBytes(m: nat)
    ensures m / 256 / 256 == m / 65536
  {
  }

  lemma Modulo(i: nat, r: nat, x: nat)
    requires i == r + PERIOD * x && r < PERIOD
    ensures i % PERIOD == r
  {
  }

  /** Two flows have the same key exactly when their numbers agree modulo 2^26. */
  lemma KeysRepeat(i: nat, j: nat)
    ensures Generated(i).key == Generated(j).key <==> i % PERIOD == j % PERIOD
    ensures i % PERIOD == j % PERIOD ==> i % NUMBER_PORT_USED == j % NUMBER_PORT_USED
  {
    NumberIsModulo(i);
    NumberIsModulo(j);
    KeyOfDigits(i);
    KeyOfDigits(j);
    hide Generated, Byte, Bytes, KeyOf;
    var a, b, c := Byte(i / 4 % 256), Byte(i / 4 / 256 % 256), Byte(i / 4 / 65536);
    var d, e, f := Byte(j / 4 % 256), Byte(j / 4 / 256 % 256), Byte(j / 4 / 65536);
    if Generated(i).key == Generated(j).key {
      KeyOnce(i % 4, c, b, a, j % 4, f, e, d);
    }
    if i % PERIOD == j % PERIOD {
      Split4(i % 4, Bytes(a, b, c, 0), j % 4, Bytes(d, e, f, 0));
      BytesOnce(a, b, c, 0, d, e, f, 0);
    }
  }

  function KeyOf(r: nat, c: nat, b: nat, a: nat): Key
    requires r < NUMBER_PORT_USED
  {
    RouteAt(r).key.(dstAddr := Ipv4(Prefix(r), c, b, a))
  }

  lemma KeyOfDigits(i: nat)
    ensures Generated(i).key == KeyOf(i % 4, Byte(i / 4 / 65536), Byte(i / 4 / 256 % 256), Byte(i / 4 % 256))
  {
  }

  lemma KeyOnce(r: nat, c: nat, b: nat, a: nat, s: nat, f: nat, e: nat, d: nat)
    requires r < 4 && s < 4 && a < 256 && b < 256 && c < 256 && d < 256 && e < 256 && f < 256
    requires KeyOf(r, c, b, a) == KeyOf(s, f, e, d)
    ensures r == s && c == f && b == e && a == d
  {
    hide RouteAt;
    BytesOnce(a, b, c, Prefix(r), d, e, f, Prefix(s));
  }

  // --- The flows, number by number --------------------------------------------------------------------------------------

  // The source address and the two ports of each route.
  function RouteSource(r: nat): nat {
    match r
    case 0 => 0x6500_0000
    case 1 => 0xC900_0000
    case 2 => 0x6F00_0000
    case _ => 0xD300_0000
  }

  predicate RoutePorts(r: nat, srcPort: nat, dstPort: nat) {
    match r
    case 0 => srcPort == 0 && dstPort == 1
    case 1 => srcPort == 1 && dstPort == 0
    case 2 => srcPort == 0 && dstPort == 2
    case _ => srcPort == 2 && dstPort == 0
  }

  /** Flow 4 * (a + 256 * b + 65536 * c) + r is that of the TCP packets of route r whose destination address has the first
      byte of the source and then c, b and a. */
  lemma PacketOfFlow(p: Packet, r: nat, a: nat, b: nat, c: nat)
    requires r < 4 && a < 256 && b < 256 && c < 256
    ensures FillKey(p) == Generated(4 * (a + 256 * b + 65536 * c) + r).key <==>
              && p.proto == 6 && p.srcAddr == RouteSource(r) && RoutePorts(r, p.srcPort, p.dstPort)
              && p.dstAddr == RouteSource(r) + 0x1_0000 * c + 0x100 * b + a
  {
    var i := 4 * (a + 256 * b + 65536 * c) + r;
    Digits(r, a, b, c);
    KeyOfDigits(i);
    hide Generated;
  }

  lemma Digits(r: nat, a: nat, b: nat, c: nat)
    requires r < 4 && a < 256 && b < 256 && c < 256
    ensures var i := 4 * (a + 256 * b + 65536 * c) + r;
            i % 4 == r && Byte(i / 4 % 256) == a && Byte(i / 4 / 256 % 256) == b && Byte(i / 4 / 65536) == c
  {
    var m := a + 256 * b + 65536 * c;
    assert (4 * m + r) / 4 == m && m / 256 == b + 256 * c;
  }

  /** And route r as it stands is that of the TCP packets to 100.10.0.1, 200.20.0.1, 100.30.0.1 or 200.40.0.1. */
  lemma PacketOfRoute(p: Packet, r: nat)
    requires r < 4
    ensures FillKey(p) == RouteAt(r).key <==>
              && p.proto == 6 && p.srcAddr == RouteSource(r) && RoutePorts(r, p.srcPort, p.dstPort)
              && p.dstAddr == if r == 0 then 0x640A_0001 else if r == 1 then 0xC814_0001 else
                              if r == 2 then 0x641E_0001 else 0xC828_0001
  {
  }

  // What a table of the four routes holds.
  ghost predicate HoldsRoutes(table: map<Key, nat>) {
    && |table| == NUMBER_PORT_USED
    && (forall i :: 0 <= i < NUMBER_PORT_USED ==> RouteAt(i).key in table && table[RouteAt(i).key] == i)
    && (forall k :: k in table ==> exists i :: 0 <= i < NUMBER_PORT_USED && RouteAt(i).key == k)
  }

  // What a table filled with the first n flows holds.
  ghost predicate HoldsFlows(table: map<Key, nat>, n: nat) {
    && (forall i :: 0 <= i < n ==> Generated(i).key in table && table[Generated(i).key] == i % NUMBER_PORT_USED)
    && (forall k :: k in table ==> exists i :: 0 <= i < n && Generated(i).key == k)
    && |table| == if n <= PERIOD then n else PERIOD
  }

  lemma FlowAdded(table: map<Key, nat>, n: nat)
    requires HoldsFlows(table, n)
    ensures HoldsFlows(table[Generated(n).key := Generated(n).ifOut], n + 1)
  {
    hide Generated;
    var t := table[Generated(n).key := Generated(n).ifOut];
    FlowPorts(table, n);
    FlowSources(table, n, t);
    FlowKeys(table, n);
    assert t.Keys == table.Keys + {Generated(n).key};
    assert |t| == |t.Keys| && |table| == |table.Keys|;
  }

  // Every flow so far has its port.
  lemma FlowPorts(table: map<Key, nat>, n: nat)
    requires HoldsFlows(table, n)
    ensures var t := table[Generated(n).key := Generated(n).ifOut];
            forall i :: 0 <= i < n + 1 ==> Generated(i).key in t && t[Generated(i).key] == i % NUMBER_PORT_USED
  {
    hide Generated;
    var t := table[Generated(n).key := Generated(n).ifOut];
    PortOfFlow(n);
    forall i | 0 <= i < n + 1
      ensures Generated(i).key in t && t[Generated(i).key] == i % NUMBER_PORT_USED
    {
      if Generated(i).key == Generated(n).key {
        KeysRepeat(i, n);
      }
    }
  }

  // Every key is that of some flow so far.
  lemma FlowSources(table: map<Key, nat>, n: nat, t: map<Key, nat>)
    requires HoldsFlows(table, n) && t == table[Generated(n).key := Generated(n).ifOut]
    ensures forall k :: k in t ==> exists i :: 0 <= i < n + 1 && Generated(i).key == k
  {
    hide Generated;
    forall k | k in t
      ensures exists i :: 0 <= i < n + 1 && Generated(i).key == k
    {
      if k == Generated(n).key {
        assert Generated(n).key == k;
      } else {
        var i :| 0 <= i < n && Generated(i).key == k;
      }
    }
  }

  // The key of the next flow is new until the keys begin to repeat.
  lemma FlowKeys(table: map<Key, nat>, n: nat)
    requires HoldsFlows(table, n)
    ensures Generated(n).key in table <==> n >= PERIOD
  {
    hide Generated;
    var k := Generated(n).key;
    if n >= PERIOD {
      Modulo(n, n % PERIOD, n / PERIOD);
      KeysRepeat(n % PERIOD, n);
    } else if k in table {
      var i :| 0 <= i < n && Generated(i).key == k;
      KeysRepeat(i, n);
    }
  }

  lemma PortOfFlow(i: nat)
    ensures Generated(i).ifOut == i % NUMBER_PORT_USED
  {
  }

  /** A table that is full refuses a new key, and its data pointer, still null, is written through before the result is
      looked at: None stands for that. It happens if and only if there are more flows than entries, and more keys than
      entries. Otherwise all flows are in the table, each with the port of its route, and nothing else is. */
  method PopulateManyFlows(nrFlow: nat, capacity: nat) returns (r: Option<map<Key, nat>>)
    ensures r.Some? <==> nrFlow <= capacity || PERIOD <= capacity
    ensures r.Some? ==> HoldsFlows(r.value, nrFlow) && |r.value| <= capacity
    ensures r.Some? && capacity < PERIOD ==> |r.value| == nrFlow
  {
    hide Generated;
    var table: map<Key, nat> := map[];
    var i := 0;
    while i < nrFlow
      invariant i <= nrFlow && HoldsFlows(table, i) && |table| <= capacity
    {
      FlowKeys(table, i);
      FlowAdded(table, i);
      var entry := Generated(i);
      if entry.key !in table && |table| >= capacity {
        return None;
      }
      table := table[entry.key := entry.ifOut];
      i := i + 1;
    }
    return Some(table);
  }

  /** The four routes as they stand have four keys, each with its own port. */
  method PopulateFewFlows(capacity: nat) returns (r: Option<map<Key, nat>>)
    ensures r.Some? <==> NUMBER_PORT_USED <= capacity
    ensures r.Some? ==> HoldsRoutes(r.value)
  {
    var table: map<Key, nat> := map[];
    var i := 0;
    while i < NUMBER_PORT_USED
      invariant i <= NUMBER_PORT_USED && |table| == i <= capacity
      invariant forall j :: 0 <= j < i ==> RouteAt(j).key in table && table[RouteAt(j).key] == j
      invariant forall j :: i <= j < NUMBER_PORT_USED ==> RouteAt(j).key !in table
      invariant forall k :: k in table ==> exists j :: 0 <= j < i && RouteAt(j).key == k
    {
      var entry := RouteAt(i);
      if entry.key !in table && |table| >= capacity {
        return None;
      }
      table := table[entry.key := entry.ifOut];
      i := i + 1;
    }
    return Some(table);
  }

  /** With the entries the code has, set-up succeeds exactly up to as many flows as entries. Then no two flows share a
      key, and there are as many keys as flows. */
  method SetupHash(hashEntryNumber: nat, entries: nat) returns (r: Option<map<Key, nat>>)
    requires entries == HASH_ENTRIES_64 || entries == HASH_ENTRIES_32
    ensures r.Some? <==> hashEntryNumber <= entries
    ensures r.Some? ==> |r.value| == hashEntryNumber
    ensures r.Some? && hashEntryNumber == HASH_ENTRY_NUMBER_DEFAULT ==> HoldsRoutes(r.value)
    ensures r.Some? && hashEntryNumber != HASH_ENTRY_NUMBER_DEFAULT ==>
              && HoldsFlows(r.value, hashEntryNumber)
              && forall i, j :: 0 <= i < j < hashEntryNumber ==> Generated(i).key != Generated(j).key
  {
    hide Generated, RouteAt;
    if hashEntryNumber != HASH_ENTRY_NUMBER_DEFAULT {
      r := PopulateManyFlows(hashEntryNumber, entries);
      if r.Some? {
        forall i, j | 0 <= i < j < hashEntryNumber
          ensures Generated(i).key != Generated(j).key
        {
          KeysRepeat(i, j);
        }
      }
    } else {
      r := PopulateFewFlows(entries);
    }
  }

  /** A packet with the key of flow i leaves by port i mod 4, one with the key of a route by the port of the route, any
      other IPv4 packet by port 1, and a packet that is not IPv4 by the port it came in. */
  method EmGetIpv4DstPort(table: map<Key, nat>, p: Packet, ghost n: nat) returns (port: nat)
    requires HoldsFlows(table, n) || HoldsRoutes(table)
    ensures !p.isIpv4 ==> port == p.port
    ensures p.isIpv4 && HoldsFlows(table, n) ==>
              && (forall i :: 0 <= i < n && Generated(i).key == FillKey(p) ==> port == i % NUMBER_PORT_USED)
              && ((forall i :: 0 <= i < n ==> Generated(i).key != FillKey(p)) ==> port == 1)
    ensures p.isIpv4 && HoldsRoutes(table) ==>
              && (forall i :: 0 <= i < NUMBER_PORT_USED && RouteAt(i).key == FillKey(p) ==> port == i)
              && ((forall i :: 0 <= i < NUMBER_PORT_USED ==> RouteAt(i).key != FillKey(p)) ==> port == 1)
  {
    hide Generated, RouteAt, FillKey;
    if !p.isIpv4 {
      return p.port;
    }
    var k := FillKey(p);
    if k !in table {
      return 1;
    }
    return table[k];
  }
}
