/** The flow table of examples/load_balancer/load_balancer.c: which backend a flow is given, how long it keeps it, and how
    packets are rewritten. The hash table is a finite map that may refuse a key, and must refuse one when it is full. */
module LoadBalancer {
  import opened Optional
  import opened FlowTable

  const TABLE_SIZE: nat := 65536

  datatype Flow = Flow(dest: nat, clientMac: nat, last: nat, active: bool)

  datatype Server = Server(mac: nat, ip: nat)

  // hz is the number of cycles in a second, and expireTime is in seconds.
  datatype Config = Config(servers: seq<Server>, clientPort: nat, serverPort: nat, lbClientIp: nat, portMac: nat -> nat,
                           hz: nat, expireTime: nat)

  ghost predicate ValidConfig(c: Config) {
    0 < |c.servers| < 256 && c.hz > 0
  }

  /** numStored is a uint16_t. Whether the table has been found full before is kept beside it. */
  datatype State = State(table: map<Key, Flow>, numStored: nat, elapsed: nat, lastCycles: nat, filled: bool)

  datatype Verdict = Drop(pkt: Packet) | Out(pkt: Packet, port: nat)

  // The value of a uint16_t.
  function Wrap16(x: int): (r: nat)
    ensures r < 65536 && (0 <= x < 65536 ==> r == x)
  {
    x % 65536
  }

  lemma Wrap16Step(x: int)
    ensures Wrap16(Wrap16(x) - 1) == Wrap16(x - 1) && Wrap16(Wrap16(x) + 1) == Wrap16(x + 1)
  {
  }

  // --- Keys -----------------------------------------------------------------------------------------------------------

  // The load balancer's own address is taken out before hashing.
  function Masked(c: Config, p: Packet): Packet {
    if p.port == c.clientPort then p.(dstAddr := 0) else p.(srcAddr := 0)
  }

  function FlowKey(c: Config, p: Packet): Key {
    SymmetricKey(Masked(c, p))
  }

  /** A packet from a client and any answer to it from any backend belong to one flow. */
  lemma DirectionsShareKey(c: Config, p: Packet, answer: Packet)
    requires p.port == c.clientPort && answer.port != c.clientPort
    requires answer.proto == p.proto && answer.dstAddr == p.srcAddr
    requires answer.srcPort == p.dstPort && answer.dstPort == p.srcPort
    ensures FlowKey(c, p) == FlowKey(c, answer)
  {
  }

  /** And only such packets do: the key tells the client and the protocol, for TCP and UDP the two ports, no more. */
  lemma KeyTellsFlow(c: Config, p: Packet, q: Packet)
    requires p.port == c.clientPort && q.port == c.clientPort
    ensures FlowKey(c, p) == FlowKey(c, q) <==>
              && p.srcAddr == q.srcAddr && p.proto == q.proto
              && (p.proto == 6 || p.proto == 17 ==>
                    || (p.srcPort == q.srcPort && p.dstPort == q.dstPort)
                    || (p.srcPort == q.dstPort && p.dstPort == q.srcPort))
  {
  }

  // --- The table ------------------------------------------------------------------------------------------------------

  predicate Expired(c: Config, elapsed: nat, f: Flow)
    requires c.hz > 0 && f.last <= elapsed
  {
    (elapsed - f.last) / c.hz >= c.expireTime
  }

  predicate TimesKept(s: State) {
    s.lastCycles <= s.elapsed && forall k :: k in s.table ==> s.table[k].last <= s.elapsed
  }

  // The clock moves on, and every now and then the time is noted.
  function Tick(c: Config, s: State, now: nat): State
    requires c.hz > 0 && s.lastCycles <= s.elapsed <= now
  {
    s.(elapsed := now, lastCycles := if (now - s.lastCycles) / c.hz > c.expireTime then now else s.lastCycles)
  }

  function Survivors(c: Config, s: State): set<Key>
    requires c.hz > 0 && TimesKept(s)
  {
    set k | k in s.table && !Expired(c, s.elapsed, s.table[k])
  }

  // Expired entries go, the others are marked as active.
  function Clear(c: Config, s: State): State
    requires c.hz > 0 && TimesKept(s)
  {
    var kept := map k | k in Survivors(c, s) :: s.table[k].(active := true);
    s.(table := kept, numStored := Wrap16(s.numStored + |kept| - |s.table|))
  }

  function MakeRoom(c: Config, s: State): State
    requires c.hz > 0 && TimesKept(s)
  {
    if s.numStored == TABLE_SIZE - 1 then Clear(c, s).(filled := true) else s
  }

  // None if the table takes no more keys; space is what the table says when it is not full.
  function Add(c: Config, s: State, k: Key, space: bool): (State, Option<Flow>)
    requires ValidConfig(c) && TimesKept(s)
  {
    var t := MakeRoom(c, s);
    if !space || |t.table| >= TABLE_SIZE then (t, None)
    else
      var n := Wrap16(t.numStored + 1);
      var f := Flow(n % |c.servers|, 0, t.elapsed, false);
      (t.(table := t.table[k := f], numStored := n), Some(f))
  }

  function Lookup(c: Config, s: State, k: Key, space: bool): (State, Option<Flow>)
    requires ValidConfig(c) && TimesKept(s)
  {
    if k in s.table then
      var f := s.table[k].(last := s.elapsed);
      (s.(table := s.table[k := f]), Some(f))
    else Add(c, s, k, space)
  }

  // --- Packets --------------------------------------------------------------------------------------------------------

  // The client is remembered by the first packet of its flow.
  function Remember(f: Flow, p: Packet): Flow {
    if f.active then f else f.(active := true, clientMac := p.srcMac)
  }

  function Rewrite(c: Config, f: Flow, p: Packet): Verdict
    requires f.dest < |c.servers|
  {
    if p.port == c.serverPort then
      Out(p.(srcMac := (c.portMac)(c.clientPort), dstMac := f.clientMac, srcAddr := c.lbClientIp), c.clientPort)
    else
      Out(p.(srcMac := (c.portMac)(c.serverPort), dstMac := c.servers[f.dest].mac, dstAddr := c.servers[f.dest].ip),
          c.serverPort)
  }

  predicate Ignored(p: Packet) {
    !p.isIpv4 || p.srcAddr == 0 || p.dstAddr == 0
  }

  predicate DestsKept(c: Config, s: State) {
    forall k :: k in s.table ==> s.table[k].dest < |c.servers|
  }

  function Handle(c: Config, s: State, p: Packet, space: bool): (State, Verdict)
    requires ValidConfig(c) && TimesKept(s) && DestsKept(c, s)
  {
    if Ignored(p) then (s, Drop(p))
    else
      var m, k := Masked(c, p), FlowKey(c, p);
      var (t, found) := Lookup(c, s, k, space);
      if found.None? then (t, Drop(m))
      else
        var f := Remember(found.value, m);
        (t.(table := t.table[k := f]), Rewrite(c, f, m))
  }

  // --- The handlers, on mutable state ---------------------------------------------------------------------------------

  class Balancer {
    const config: Config
    var table: map<Key, Flow>
    var numStored: nat
    var elapsed: nat
    var lastCycles: nat
    ghost var filled: bool

    ghost function View(): State
      reads this
    {
      State(table, numStored, elapsed, lastCycles, filled)
    }

    ghost predicate Valid()
      reads this
    {
      ValidConfig(config) && TimesKept(View()) && DestsKept(config, View()) && numStored < 65536
    }

    constructor (config: Config, now: nat)
      requires ValidConfig(config)
      ensures Valid() && this.config == config && View() == State(map[], 0, now, 0, false)
    {
      this.config := config;
      table, numStored, elapsed, lastCycles, filled := map[], 0, now, 0, false;
    }

    method CallbackHandler(now: nat)
      requires Valid() && now >= elapsed
      modifies this`elapsed, this`lastCycles
      ensures Valid() && View() == Tick(config, old(View()), now) && elapsed == now
      ensures lastCycles == if (now - old(lastCycles)) / config.hz > config.expireTime then now else old(lastCycles)
    {
      elapsed := now;
      if (elapsed - lastCycles) / config.hz > config.expireTime {
        lastCycles := elapsed;
      }
    }

    // The entries are met in some order, given by keys.
    method ClearEntries(keys: seq<Key>)
      requires Valid() && Lists(keys, table)
      modifies this`table, this`numStored
      ensures Valid() && View() == Clear(config, old(View()))
    {
      hide Survivors, Expired, Lists, ClearedUpTo, Elements, Wrap16, Clear;
      var i := 0;
      ghost var s := View();
      ClearedStart(config, s);
      assert keys[..0] == [];
      while i < |keys|
        invariant i <= |keys| && ClearedUpTo(config, s, Elements(keys[..i]), table)
        invariant numStored == Wrap16(s.numStored + |table| - |s.table|)
      {
        NextListed(keys, s.table, i);
        ClearEntry(keys[i], s, Elements(keys[..i]));
        i := i + 1;
      }
      AllListed(keys, s.table);
      ClearedAll(config, s, table);
    }

    // One turn of the loop: update_status, and removal if the flow has expired.
    method ClearEntry(k: Key, ghost s: State, ghost done: set<Key>)
      requires ValidConfig(config) && TimesKept(s) && ClearedUpTo(config, s, done, table)
      requires k in s.table && k !in done && elapsed == s.elapsed
      requires numStored == Wrap16(s.numStored + |table| - |s.table|)
      modifies this`table, this`numStored
      ensures ClearedUpTo(config, s, done + {k}, table)
      ensures numStored == Wrap16(s.numStored + |table| - |s.table|)
    {
      hide Survivors, Expired, ClearedUpTo, Wrap16;
      ClearedStep(config, s, done, table, k);
      Wrap16Step(s.numStored + |table| - |s.table|);
      if Expired(config, elapsed, table[k]) {
        table := table - {k};
        numStored := Wrap16(numStored - 1);
      } else {
        table := table[k := table[k].(active := true)];
      }
    }

    method TableAddEntry(k: Key, space: bool, keys: seq<Key>) returns (found: Option<Flow>)
      requires Valid() && Lists(keys, table)
      modifies this
      ensures Valid() && (View(), found) == Add(config, old(View()), k, space)
    {
      hide Clear, Lists;
      if TABLE_SIZE - 1 - numStored == 0 {
        ClearEntries(keys);
        filled := true;
      }
      if !space || |table| >= TABLE_SIZE {
        return None;
      }
      numStored := Wrap16(numStored + 1);
      var f := Flow(numStored % |config.servers|, 0, elapsed, false);
      table := table[k := f];
      return Some(f);
    }

    method TableLookupEntry(k: Key, space: bool, keys: seq<Key>) returns (found: Option<Flow>)
      requires Valid() && Lists(keys, table)
      modifies this
      ensures Valid() && (View(), found) == Lookup(config, old(View()), k, space)
      ensures found.Some? ==> found.value.dest < |config.servers|
    {
      hide Clear, Lists;
      if k in table {
        var f := table[k].(last := elapsed);
        table := table[k := f];
        return Some(f);
      }
      found := TableAddEntry(k, space, keys);
    }

    method PacketHandler(p: Packet, space: bool, keys: seq<Key>) returns (verdict: Verdict)
      requires Valid() && Lists(keys, table)
      modifies this
      ensures Valid() && (View(), verdict) == Handle(config, old(View()), p, space)
    {
      hide Lookup, FlowKey, Lists;
      if Ignored(p) {
        return Drop(p);
      }
      var m := Masked(config, p);
      var k := FlowKey(config, p);
      var found := TableLookupEntry(k, space, keys);
      if found.None? {
        return Drop(m);
      }
      var f := found.value;
      if !f.active {
        f := f.(active := true, clientMac := m.srcMac);
      }
      LookupNow(config, old(View()), k, space);
      table := table[k := f];
      return Rewrite(config, f, m);
    }
  }

  lemma LookupNow(c: Config, s: State, k: Key, space: bool)
    requires ValidConfig(c) && TimesKept(s)
    ensures var (t, found) := Lookup(c, s, k, space);
            found.Some? ==> found.value.last <= t.elapsed && k in t.table && t.table[k] == found.value
  {
    hide Clear;
  }

  // --- Going through the table ----------------------------------------------------------------------------------------

  function Elements(keys: seq<Key>): set<Key> {
    set k | k in keys
  }

  // Each key of the table once.
  ghost predicate Lists(keys: seq<Key>, table: map<Key, Flow>) {
    Elements(keys) == table.Keys && forall i, j :: 0 <= i < j < |keys| ==> keys[i] != keys[j]
  }

  lemma NextListed(keys: seq<Key>, table: map<Key, Flow>, i: nat)
    requires Lists(keys, table) && i < |keys|
    ensures keys[i] in table && keys[i] !in Elements(keys[..i])
    ensures Elements(keys[..i + 1]) == Elements(keys[..i]) + {keys[i]}
  {
    assert keys[..i + 1] == keys[..i] + [keys[i]];
    assert keys[i] in Elements(keys);
  }

  lemma AllListed(keys: seq<Key>, table: map<Key, Flow>)
    requires Lists(keys, table)
    ensures Elements(keys[..|keys|]) == table.Keys
  {
    assert keys[..|keys|] == keys;
  }

  // The keys done have been dealt with, the others are as they were.
  ghost predicate ClearedUpTo(c: Config, s: State, done: set<Key>, table: map<Key, Flow>)
    requires c.hz > 0 && TimesKept(s)
  {
    && table.Keys == s.table.Keys - (done - Survivors(c, s))
    && forall k :: k in table ==> table[k] == if k in done then s.table[k].(active := true) else s.table[k]
  }

  lemma ClearedStart(c: Config, s: State)
    requires c.hz > 0 && TimesKept(s)
    ensures ClearedUpTo(c, s, {}, s.table) && Elements([]) == {}
  {
  }

  lemma ClearedStep(c: Config, s: State, done: set<Key>, table: map<Key, Flow>, k: Key)
    requires c.hz > 0 && TimesKept(s) && ClearedUpTo(c, s, done, table) && k in s.table && k !in done
    ensures k in table && table[k] == s.table[k]
    ensures Expired(c, s.elapsed, s.table[k]) ==>
              ClearedUpTo(c, s, done + {k}, table - {k}) && |table - {k}| == |table| - 1
    ensures !Expired(c, s.elapsed, s.table[k]) ==>
              && ClearedUpTo(c, s, done + {k}, table[k := table[k].(active := true)])
              && |table[k := table[k].(active := true)]| == |table|
  {
    if Expired(c, s.elapsed, s.table[k]) {
      RemovedStep(c, s, done, table, k);
    } else {
      MarkedStep(c, s, done, table, k);
    }
  }

  lemma RemovedStep(c: Config, s: State, done: set<Key>, table: map<Key, Flow>, k: Key)
    requires c.hz > 0 && TimesKept(s) && ClearedUpTo(c, s, done, table) && k in s.table && k !in done
    requires Expired(c, s.elapsed, s.table[k])
    ensures ClearedUpTo(c, s, done + {k}, table - {k}) && |table - {k}| == |table| - 1
  {
    hide Expired;
    RemoveOne(table, k);
  }

  lemma MarkedStep(c: Config, s: State, done: set<Key>, table: map<Key, Flow>, k: Key)
    requires c.hz > 0 && TimesKept(s) && ClearedUpTo(c, s, done, table) && k in s.table && k !in done
    requires !Expired(c, s.elapsed, s.table[k])
    ensures k in table && table[k] == s.table[k]
    ensures ClearedUpTo(c, s, done + {k}, table[k := table[k].(active := true)])
    ensures |table[k := table[k].(active := true)]| == |table|
  {
    hide Expired;
    assert table[k := table[k].(active := true)].Keys == table.Keys;
  }

  lemma ClearedAll(c: Config, s: State, table: map<Key, Flow>)
    requires c.hz > 0 && TimesKept(s) && ClearedUpTo(c, s, s.table.Keys, table)
    ensures Clear(c, s) == s.(table := table, numStored := Wrap16(s.numStored + |table| - |s.table|))
    ensures TimesKept(Clear(c, s)) && (DestsKept(c, s) ==> DestsKept(c, Clear(c, s)))
  {
    hide Expired, Wrap16;
    ClearedTable(c, s, table);
  }

  lemma ClearedTable(c: Config, s: State, table: map<Key, Flow>)
    requires c.hz > 0 && TimesKept(s) && ClearedUpTo(c, s, s.table.Keys, table)
    ensures table == map k | k in Survivors(c, s) :: s.table[k].(active := true)
    ensures forall k :: k in table ==> k in s.table && table[k] == s.table[k].(active := true)
  {
    hide Expired;
    assert table.Keys == Survivors(c, s);
  }

  lemma RemoveOne(table: map<Key, Flow>, k: Key)
    requires k in table
    ensures |table - {k}| == |table| - 1
  {
    assert (table - {k}).Keys == table.Keys - {k};
  }
}
