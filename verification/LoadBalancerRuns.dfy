/** What every run of the load balancer keeps: the count of flows, the backend of each flow, and the balance. */
module LoadBalancerRuns {
  import opened Optional
  import opened FlowTable
  import opened LoadBalancer

  // --- Runs -----------------------------------------------------------------------------------------------------------

  // Time passes, or a packet is handled.
  ghost predicate Step(c: Config, s: State, t: State) {
    && ValidConfig(c) && TimesKept(s) && DestsKept(c, s)
    && ((exists now: nat :: Passes(c, s, now, t)) || exists p, space :: t == Handle(c, s, p, space).0)
  }

  predicate Passes(c: Config, s: State, now: nat, t: State)
    requires c.hz > 0 && s.lastCycles <= s.elapsed
  {
    s.elapsed <= now && t == Tick(c, s, now)
  }

  ghost predicate Run(c: Config, states: seq<State>) {
    forall i :: 0 <= i < |states| - 1 ==> Step(c, states[i], states[i + 1])
  }

  // --- The invariant --------------------------------------------------------------------------------------------------

  // The flows given to one backend.
  function Assigned(table: map<Key, Flow>, d: nat): set<Key> {
    set k | k in table && table[k].dest == d
  }

  // How many of the numbers 1 to m are d modulo n: the backends take turns.
  function Share(m: nat, n: nat, d: nat): nat
    requires n > 0
  {
    if m == 0 then 0 else Share(m - 1, n, d) + if m % n == d then 1 else 0
  }

  // Until the table first fills nothing has been evicted, and every backend has had its turns.
  ghost predicate Balanced(c: Config, s: State)
    requires ValidConfig(c)
  {
    !s.filled ==>
      && |s.table| < TABLE_SIZE
      && forall d :: 0 <= d < |c.servers| ==> |Assigned(s.table, d)| == Share(|s.table|, |c.servers|, d)
  }

  predicate Marked(s: State) {
    forall k :: k in s.table ==> s.table[k].active
  }

  ghost predicate Invariant(c: Config, s: State) {
    && ValidConfig(c) && TimesKept(s) && DestsKept(c, s) && Marked(s)
    && |s.table| <= TABLE_SIZE && s.numStored == Wrap16(|s.table|)
    && Balanced(c, s)
  }

  lemma StartInvariant(c: Config, now: nat)
    requires ValidConfig(c)
    ensures Invariant(c, State(map[], 0, now, 0, false))
  {
    assert forall d :: Assigned(map[], d) == {};
  }

  // --- Eviction -------------------------------------------------------------------------------------------------------

  lemma ClearFacts(c: Config, s: State)
    requires ValidConfig(c) && TimesKept(s)
    ensures var t := Clear(c, s);
            && (forall k :: k in t.table <==> k in s.table && !Expired(c, s.elapsed, s.table[k]))
            && (forall k :: k in t.table ==> t.table[k] == s.table[k].(active := true))
            && |t.table| <= |s.table| && t.elapsed == s.elapsed && t.lastCycles == s.lastCycles
  {
    hide Expired;
    var t := Clear(c, s);
    assert t.table.Keys <= s.table.Keys;
    SubsetSize(t.table.Keys, s.table.Keys);
  }

  lemma SubsetSize<T>(a: set<T>, b: set<T>)
    requires a <= b
    ensures |a| <= |b|
  {
    assert b == a + (b - a);
  }

  lemma MakeRoomKeeps(c: Config, s: State)
    requires Invariant(c, s)
    ensures var t := MakeRoom(c, s);
            && TimesKept(t) && DestsKept(c, t) && Marked(t)
            && |t.table| <= |s.table| && t.numStored == Wrap16(|t.table|)
            && t.elapsed == s.elapsed
            && (!t.filled ==> t == s && |s.table| < TABLE_SIZE - 1)
            && (s.filled ==> t.filled)
            && (forall k :: k in s.table && k !in t.table ==> Expired(c, s.elapsed, s.table[k]))
            && (forall k :: k in t.table ==> k in s.table && t.table[k] == s.table[k])
  {
    hide Clear, Expired, Assigned;
    if s.numStored == TABLE_SIZE - 1 {
      ClearFacts(c, s);
      ClearCount(c, s);
    }
  }

  lemma ClearCount(c: Config, s: State)
    requires ValidConfig(c) && TimesKept(s) && s.numStored == Wrap16(|s.table|)
    ensures Clear(c, s).numStored == Wrap16(|Clear(c, s).table|)
  {
    hide Wrap16, Survivors;
    Wrap16Move(|s.table|, |Clear(c, s).table|);
  }

  lemma Wrap16Move(a: int, b: int)
    ensures Wrap16(Wrap16(a) + b - a) == Wrap16(b)
  {
  }

  // --- One packet -----------------------------------------------------------------------------------------------------

  // A known flow: only the time of its last packet changes.
  lemma HandleKnown(c: Config, s: State, p: Packet, space: bool)
    requires Invariant(c, s) && !Ignored(p) && FlowKey(c, p) in s.table
    ensures var k := FlowKey(c, p);
            Handle(c, s, p, space) == (s.(table := s.table[k := s.table[k].(last := s.elapsed)]),
                                       Rewrite(c, s.table[k], Masked(c, p)))
  {
    hide FlowKey, Balanced;
    var k := FlowKey(c, p);
    var f := s.table[k].(last := s.elapsed);
    assert s.table[k := f][k := f] == s.table[k := f];
  }

  // A new flow: room is made, and it is refused or given the next backend.
  lemma HandleNew(c: Config, s: State, p: Packet, space: bool)
    requires Invariant(c, s) && !Ignored(p) && FlowKey(c, p) !in s.table
    ensures var k, t := FlowKey(c, p), MakeRoom(c, s);
            if !space || |t.table| >= TABLE_SIZE then Handle(c, s, p, space) == (t, Drop(Masked(c, p)))
            else
              var f := Flow(Wrap16(|t.table| + 1) % |c.servers|, Masked(c, p).srcMac, s.elapsed, true);
              Handle(c, s, p, space) == (t.(table := t.table[k := f], numStored := Wrap16(|t.table| + 1)),
                                         Rewrite(c, f, Masked(c, p)))
  {
    hide FlowKey, Balanced, MakeRoom, Wrap16, Rewrite;
    MakeRoomKeeps(c, s);
    var k, t := FlowKey(c, p), MakeRoom(c, s);
    Wrap16Step(|t.table|);
    var f := Flow(Wrap16(t.numStored + 1) % |c.servers|, 0, s.elapsed, false);
    var g := Remember(f, Masked(c, p));
    assert t.table[k := f][k := g] == t.table[k := g];
  }

  lemma KnownKeeps(c: Config, s: State, k: Key)
    requires Invariant(c, s) && k in s.table
    ensures Invariant(c, s.(table := s.table[k := s.table[k].(last := s.elapsed)]))
  {
    var t := s.table[k := s.table[k].(last := s.elapsed)];
    assert t.Keys == s.table.Keys;
    assert forall d :: Assigned(t, d) == Assigned(s.table, d);
  }

  lemma NewKeeps(c: Config, s: State, k: Key, mac: nat)
    requires Invariant(c, s) && k !in s.table && |MakeRoom(c, s).table| < TABLE_SIZE
    ensures var t := MakeRoom(c, s);
            var f := Flow(Wrap16(|t.table| + 1) % |c.servers|, mac, s.elapsed, true);
            Invariant(c, t.(table := t.table[k := f], numStored := Wrap16(|t.table| + 1)))
  {
    hide MakeRoom, Assigned;
    MakeRoomKeeps(c, s);
    var t := MakeRoom(c, s);
    var f := Flow(Wrap16(|t.table| + 1) % |c.servers|, mac, s.elapsed, true);
    var u := t.(table := t.table[k := f], numStored := Wrap16(|t.table| + 1));
    assert u.table.Keys == t.table.Keys + {k};
    if !u.filled {
      forall d | 0 <= d < |c.servers|
        ensures |Assigned(u.table, d)| == Share(|u.table|, |c.servers|, d)
      {
        AssignedAdd(t.table, k, f, d);
      }
    }
  }

  lemma AssignedAdd(table: map<Key, Flow>, k: Key, f: Flow, d: nat)
    requires k !in table
    ensures |Assigned(table[k := f], d)| == |Assigned(table, d)| + if f.dest == d then 1 else 0
  {
    var u := table[k := f];
    if f.dest == d {
      assert Assigned(u, d) == Assigned(table, d) + {k};
    } else {
      assert Assigned(u, d) == Assigned(table, d);
    }
  }

  lemma RoomKeeps(c: Config, s: State)
    requires Invariant(c, s)
    ensures Invariant(c, MakeRoom(c, s))
  {
    hide MakeRoom, Assigned;
    MakeRoomKeeps(c, s);
  }

  lemma HandleKeeps(c: Config, s: State, p: Packet, space: bool)
    requires Invariant(c, s)
    ensures Invariant(c, Handle(c, s, p, space).0)
  {
    hide MakeRoom, FlowKey, Masked, Rewrite, Balanced, TimesKept, DestsKept, Marked, Wrap16;
    var k := FlowKey(c, p);
    if !Ignored(p) {
      if k in s.table {
        HandleKnown(c, s, p, space);
        KnownKeeps(c, s, k);
      } else {
        HandleNew(c, s, p, space);
        RoomKeeps(c, s);
        if space && |MakeRoom(c, s).table| < TABLE_SIZE {
          NewKeeps(c, s, k, Masked(c, p).srcMac);
        }
      }
    }
  }

  lemma StepKeepsInvariant(c: Config, s: State, t: State)
    requires Invariant(c, s) && Step(c, s, t)
    ensures Invariant(c, t)
  {
    hide Handle;
    if now: nat :| Passes(c, s, now, t) {
    } else {
      var p, space :| t == Handle(c, s, p, space).0;
      HandleKeeps(c, s, p, space);
    }
  }

  /** Every state of every run, from an empty table, keeps the invariant: every backend index names a server, and the
      16-bit count is the size of the table modulo 65536. */
  lemma {:induction false} RunsKeepInvariant(c: Config, now: nat, states: seq<State>)
    requires ValidConfig(c) && states != [] && states[0] == State(map[], 0, now, 0, false) && Run(c, states)
    ensures Invariant(c, states[|states| - 1])
    decreases |states|
  {
    hide Invariant, Step;
    if |states| == 1 {
      StartInvariant(c, now);
    } else {
      RunsKeepInvariant(c, now, states[..|states| - 1]);
      assert Step(c, states[|states| - 2], states[|states| - 2 + 1]);
      StepKeepsInvariant(c, states[|states| - 2], states[|states| - 1]);
    }
  }

  // --- Affinity -------------------------------------------------------------------------------------------------------

  /** One step: a flow that is still there has the backend and the client it had, and a flow that is gone had expired. */
  lemma StepKeepsFlows(c: Config, s: State, t: State, k: Key)
    requires Invariant(c, s) && Step(c, s, t) && k in s.table
    ensures k in t.table ==>
              && t.table[k].dest == s.table[k].dest && t.table[k].clientMac == s.table[k].clientMac
              && s.table[k].last <= t.table[k].last
    ensures k !in t.table ==> Expired(c, s.elapsed, s.table[k])
  {
    hide Handle, MakeRoom, Expired, FlowKey, Balanced;
    if now: nat :| Passes(c, s, now, t) {
    } else {
      var p, space :| t == Handle(c, s, p, space).0;
      if Ignored(p) {
        HandleIgnored(c, s, p, space);
      } else if FlowKey(c, p) in s.table {
        HandleKnown(c, s, p, space);
      } else {
        HandleNew(c, s, p, space);
        MakeRoomKeeps(c, s);
      }
    }
  }

  lemma HandleIgnored(c: Config, s: State, p: Packet, space: bool)
    requires Invariant(c, s) && Ignored(p)
    ensures Handle(c, s, p, space) == (s, Drop(p))
  {
  }

  /** Over any stretch of a run in which a flow stays in the table it keeps its backend and its client. */
  lemma {:induction false} FlowKeepsBackend(c: Config, states: seq<State>, k: Key)
    requires states != [] && Invariant(c, states[0]) && Run(c, states)
    requires forall i :: 0 <= i < |states| ==> k in states[i].table
    ensures var f, g := states[0].table[k], states[|states| - 1].table[k];
            f.dest == g.dest && f.clientMac == g.clientMac
    ensures Invariant(c, states[|states| - 1])
    decreases |states|
  {
    hide Invariant, Step;
    if |states| == 1 {
    } else {
      var before := states[..|states| - 1];
      FlowKeepsBackend(c, before, k);
      var s, t := states[|states| - 2], states[|states| - 2 + 1];
      assert s == before[|before| - 1] && Step(c, s, t);
      StepKeepsInvariant(c, s, t);
      StepKeepsFlows(c, s, t, k);
    }
  }

  // --- Flows that are seen in time ------------------------------------------------------------------------------------

  // The i-th state was reached by handling a packet of flow k.
  ghost predicate Seen(c: Config, states: seq<State>, k: Key, i: nat)
    requires 0 < i < |states|
  {
    Handles(c, states[i - 1], k, states[i])
  }

  ghost predicate Handles(c: Config, s: State, k: Key, t: State) {
    && ValidConfig(c) && TimesKept(s) && DestsKept(c, s)
    && exists p, space :: !Ignored(p) && FlowKey(c, p) == k && t == Handle(c, s, p, space).0
  }

  // At i the flow was last seen less than the expiry time ago: at the start, or by a packet since.
  ghost predicate SeenInTime(c: Config, states: seq<State>, k: Key, i: nat)
    requires c.hz > 0 && i < |states|
  {
    || (k in states[0].table && (states[i].elapsed - states[0].table[k].last) / c.hz < c.expireTime)
    || exists j: nat :: SeenAt(c, states, k, i, j)
  }

  ghost predicate SeenAt(c: Config, states: seq<State>, k: Key, i: nat, j: nat)
    requires c.hz > 0 && i < |states|
  {
    0 < j <= i && Seen(c, states, k, j) && (states[i].elapsed - states[j].elapsed) / c.hz < c.expireTime
  }

  lemma DivideMonotone(x: nat, y: nat, n: nat)
    requires n > 0 && x <= y
    ensures x / n <= y / n
  {
    var a, b := x / n, y / n;
    assert x == a * n + x % n && y == b * n + y % n;
    Times(b + 1, if a > b then a else b + 1, n);
  }

  // The entry of the flow is no older than its latest packet.
  ghost predicate Fresh(c: Config, states: seq<State>, k: Key, i: nat)
    requires i < |states|
  {
    && k in states[0].table && k in states[i].table && states[0].table[k].last <= states[i].table[k].last
    && forall j :: 0 < j <= i && Seen(c, states, k, j) ==> states[j].elapsed <= states[i].table[k].last
  }

  lemma FreshNotExpired(c: Config, states: seq<State>, k: Key, i: nat)
    requires i < |states| && Invariant(c, states[i]) && Fresh(c, states, k, i) && SeenInTime(c, states, k, i)
    ensures !Expired(c, states[i].elapsed, states[i].table[k])
  {
    hide Seen, Balanced;
    var now, last := states[i].elapsed, states[i].table[k].last;
    if (now - states[0].table[k].last) / c.hz < c.expireTime {
      DivideMonotone(now - last, now - states[0].table[k].last, c.hz);
    } else {
      var j: nat :| SeenAt(c, states, k, i, j);
      DivideMonotone(now - last, now - states[j].elapsed, c.hz);
    }
  }

  lemma FreshNext(c: Config, states: seq<State>, k: Key, i: nat)
    requires i + 1 < |states| && Invariant(c, states[i]) && Step(c, states[i], states[i + 1])
    requires Fresh(c, states, k, i) && SeenInTime(c, states, k, i)
    ensures Fresh(c, states, k, i + 1)
  {
    hide Invariant, Step, Seen, SeenInTime, Expired;
    FreshNotExpired(c, states, k, i);
    StepKeepsFlows(c, states[i], states[i + 1], k);
    forall j | 0 < j <= i + 1 && Seen(c, states, k, j)
      ensures states[j].elapsed <= states[i + 1].table[k].last
    {
      if j == i + 1 {
        SeenTouches(c, states, k, i);
      }
    }
  }

  lemma SeenTouches(c: Config, states: seq<State>, k: Key, i: nat)
    requires i + 1 < |states| && Invariant(c, states[i]) && k in states[i].table && Seen(c, states, k, i + 1)
    ensures k in states[i + 1].table && states[i + 1].table[k].last == states[i + 1].elapsed
  {
    hide Invariant, Handle, FlowKey, TimesKept, DestsKept;
    var p, space :| !Ignored(p) && FlowKey(c, p) == k && states[i + 1] == Handle(c, states[i], p, space).0;
    HandleKnown(c, states[i], p, space);
  }

  // The invariant holds all along a run that begins with it.
  lemma {:induction false} InvariantAlong(c: Config, states: seq<State>, n: nat)
    requires n < |states| && Invariant(c, states[0]) && Run(c, states)
    ensures Invariant(c, states[n])
  {
    hide Invariant, Step;
    if n == 0 {
    } else {
      InvariantAlong(c, states, n - 1);
      assert Step(c, states[n - 1], states[n - 1 + 1]);
      StepKeepsInvariant(c, states[n - 1], states[n]);
    }
  }

  /** In every run a flow that is seen within the expiry time is never evicted, however full the table becomes, and keeps
      its backend and its client. */
  lemma {:induction false} BusyFlowStays(c: Config, states: seq<State>, k: Key, n: nat)
    requires n < |states| && Invariant(c, states[0]) && Run(c, states) && k in states[0].table
    requires forall i :: 0 <= i < n ==> SeenInTime(c, states, k, i)
    ensures Fresh(c, states, k, n)
    ensures var f, g := states[0].table[k], states[n].table[k];
            f.dest == g.dest && f.clientMac == g.clientMac
  {
    hide Invariant, Step, Seen, SeenInTime;
    if n == 0 {
    } else {
      BusyFlowStays(c, states, k, n - 1);
      InvariantAlong(c, states, n - 1);
      assert Step(c, states[n - 1], states[n - 1 + 1]);
      FreshNext(c, states, k, n - 1);
      StepKeepsFlows(c, states[n - 1], states[n], k);
    }
  }

  function ToServer(c: Config, p: Packet, d: nat): Verdict
    requires d < |c.servers|
  {
    Out(p.(srcMac := (c.portMac)(c.serverPort), dstMac := c.servers[d].mac, dstAddr := c.servers[d].ip), c.serverPort)
  }

  function ToClient(c: Config, p: Packet, mac: nat): Verdict {
    Out(p.(srcMac := (c.portMac)(c.clientPort), dstMac := mac, srcAddr := c.lbClientIp), c.clientPort)
  }

  /** Where a packet of a known flow goes: from a client to the backend of the flow, from a server back to the client
      whose packet began the flow, in the name of the load balancer. */
  lemma PacketsFollowFlow(c: Config, s: State, p: Packet, space: bool)
    requires Invariant(c, s) && !Ignored(p) && FlowKey(c, p) in s.table && c.clientPort != c.serverPort
    ensures var f, v := s.table[FlowKey(c, p)], Handle(c, s, p, space).1;
            && f.dest < |c.servers|
            && (p.port == c.clientPort ==> v == ToServer(c, p, f.dest))
            && (p.port == c.serverPort ==> v == ToClient(c, p, f.clientMac))
            && (p.port != c.clientPort && p.port != c.serverPort ==> v == ToServer(c, p.(srcAddr := 0), f.dest))
  {
    hide FlowKey, Handle;
    HandleKnown(c, s, p, space);
  }

  // A later packet of the same connection, from the client or from a backend.
  predicate Belongs(c: Config, p: Packet, q: Packet) {
    && q.proto == p.proto
    && if q.port == c.clientPort then q.srcAddr == p.srcAddr && q.srcPort == p.srcPort && q.dstPort == p.dstPort
       else q.port == c.serverPort && q.dstAddr == p.srcAddr && q.srcPort == p.dstPort && q.dstPort == p.srcPort
  }

  lemma BelongsShareKey(c: Config, p: Packet, q: Packet)
    requires p.port == c.clientPort && Belongs(c, p, q)
    ensures FlowKey(c, p) == FlowKey(c, q)
  {
    if q.port != c.clientPort {
      DirectionsShareKey(c, p, q);
    }
  }

  // The first packet of a flow goes to the backend that is entered for it.
  lemma FirstPacket(c: Config, s: State, p: Packet, space: bool)
    requires Invariant(c, s) && !Ignored(p) && FlowKey(c, p) !in s.table && p.port == c.clientPort != c.serverPort
    requires Handle(c, s, p, space).1.Out?
    ensures var k, t := FlowKey(c, p), Handle(c, s, p, space).0;
            && k in t.table && t.table[k].dest < |c.servers| && t.table[k].clientMac == p.srcMac
            && t.table[k].last == t.elapsed
            && Handle(c, s, p, space).1 == ToServer(c, p, t.table[k].dest)
  {
    hide FlowKey, Handle, Balanced, MakeRoom;
    HandleNew(c, s, p, space);
    MakeRoomKeeps(c, s);
  }

  /** Affinity over a whole run. A client's first packet is let in and goes to some backend. As long as the flow is seen
      within the expiry time, every further packet of it from the client goes to that backend, and every answer from any
      backend goes back to that client in the name of the load balancer. */
  lemma ConnectionKeepsBackend(c: Config, states: seq<State>, p: Packet, space: bool, q: Packet, spaceLater: bool)
    returns (d: nat)
    requires states != [] && Invariant(c, states[0]) && Run(c, states) && p.port == c.clientPort != c.serverPort
    requires !Ignored(p) && FlowKey(c, p) !in states[0].table && Handle(c, states[0], p, space).1.Out?
    requires |states| > 1 && states[1] == Handle(c, states[0], p, space).0
    requires forall i :: 0 <= i < |states| - 2 ==> SeenInTime(c, states[1..], FlowKey(c, p), i)
    requires !Ignored(q) && Belongs(c, p, q)
    ensures d < |c.servers| && Handle(c, states[0], p, space).1 == ToServer(c, p, d)
    ensures Invariant(c, states[|states| - 1])
    ensures var v := Handle(c, states[|states| - 1], q, spaceLater).1;
            v == if q.port == c.clientPort then ToServer(c, q, d) else ToClient(c, q, p.srcMac)
  {
    hide Invariant, Step, Handle, FlowKey, SeenInTime, Belongs, ToServer, ToClient;
    var k, later := FlowKey(c, p), states[1..];
    FirstPacket(c, states[0], p, space);
    InvariantAlong(c, states, 1);
    InvariantAlong(c, states, |states| - 1);
    assert Run(c, later) by {
      forall i | 0 <= i < |later| - 1
        ensures Step(c, later[i], later[i + 1])
      {
        assert Step(c, states[i + 1], states[i + 1 + 1]);
      }
    }
    d := states[1].table[k].dest;
    BusyFlowStays(c, later, k, |later| - 1);
    BelongsShareKey(c, p, q);
    BelongsPort(c, p, q);
    PacketsFollowFlow(c, states[|states| - 1], q, spaceLater);
  }

  lemma BelongsPort(c: Config, p: Packet, q: Packet)
    requires Belongs(c, p, q)
    ensures q.port == c.clientPort || q.port == c.serverPort
  {
  }

  // --- Balance --------------------------------------------------------------------------------------------------------

  // The first turns of an unfinished round have gone to the backends 1, 2, and so on.
  lemma {:induction false} ShareClosedForm(m: nat, n: nat, d: nat)
    requires 0 <= d < n
    ensures Share(m, n, d) == m / n + if 1 <= d <= m % n then 1 else 0
  {
    if m == 0 {
    } else {
      ShareClosedForm(m - 1, n, d);
      Divide(m, n);
    }
  }

  lemma Divide(m: nat, n: nat)
    requires m > 0 && n > 0
    ensures if m % n == 0 then m / n == (m - 1) / n + 1 && (m - 1) % n == n - 1
            else m / n == (m - 1) / n && (m - 1) % n == m % n - 1
  {
    var q, r := (m - 1) / n, (m - 1) % n;
    assert m - 1 == q * n + r;
    if r == n - 1 {
      assert m == (q + 1) * n;
      Quotient(m, n, q + 1, 0);
    } else {
      Quotient(m, n, q, r + 1);
    }
  }

  lemma Quotient(m: nat, n: nat, q: nat, r: nat)
    requires n > 0 && m == q * n + r && r < n
    ensures m / n == q && m % n == r
  {
    var a := m / n;
    assert m == a * n + m % n;
    if a > q {
      Times(q + 1, a, n);
    } else if a < q {
      Times(a + 1, q, n);
    }
  }

  lemma Times(x: nat, y: nat, n: nat)
    requires x <= y && x > 0
    ensures (x - 1) * n + n <= y * n
  {
    assert y * n == (x - 1) * n + n + (y - x) * n;
  }

  /** Until the table first fills, the numbers of flows of any two backends differ by at most one. */
  lemma BackendsBalanced(c: Config, now: nat, states: seq<State>, d: nat, e: nat)
    requires ValidConfig(c) && states != [] && states[0] == State(map[], 0, now, 0, false) && Run(c, states)
    requires !states[|states| - 1].filled && d < |c.servers| && e < |c.servers|
    ensures var table := states[|states| - 1].table;
            -1 <= |Assigned(table, d)| - |Assigned(table, e)| <= 1
  {
    hide Run, Step, Share, Assigned;
    RunsKeepInvariant(c, now, states);
    var s := states[|states| - 1];
    ShareClosedForm(|s.table|, |c.servers|, d);
    ShareClosedForm(|s.table|, |c.servers|, e);
  }

  // --- Which packets pass, and which flows go -------------------------------------------------------------------------

  /** In every state of a run: IPv4 packets with two addresses are let through, if their flow is known or the table takes
      another key; nothing else is. */
  lemma LetThrough(c: Config, s: State, p: Packet, space: bool)
    requires Invariant(c, s)
    ensures Handle(c, s, p, space).1.Out? <==>
              && p.isIpv4 && p.srcAddr != 0 && p.dstAddr != 0
              && (FlowKey(c, p) in s.table || (space && |s.table| < 65536))
    ensures !(p.isIpv4 && p.srcAddr != 0 && p.dstAddr != 0) ==>
              Handle(c, s, p, space) == (s, Drop(p))
  {
    hide Handle, FlowKey, Balanced, MakeRoom;
    var k := FlowKey(c, p);
    if Ignored(p) {
      HandleIgnored(c, s, p, space);
    } else if k in s.table {
      HandleKnown(c, s, p, space);
    } else {
      HandleNew(c, s, p, space);
      MakeRoomKeeps(c, s);
      FullKeepsSize(c, s);
    }
  }

  lemma FullKeepsSize(c: Config, s: State)
    requires Invariant(c, s)
    ensures |s.table| == TABLE_SIZE ==> MakeRoom(c, s) == s
  {
    hide Clear, Balanced;
  }

  /** What a packet of a new flow does to the flows in the table: nothing, unless there are 65535 of them; then exactly
      those go that have not been seen for the expiry time, whether or not the new flow is let in. */
  lemma IdleFlowsGo(c: Config, s: State, p: Packet, space: bool, k: Key)
    requires Invariant(c, s) && p.isIpv4 && p.srcAddr != 0 && p.dstAddr != 0 && FlowKey(c, p) !in s.table
    requires k in s.table
    ensures k in Handle(c, s, p, space).0.table <==>
              !(|s.table| == 65535 && s.elapsed - s.table[k].last >= c.expireTime * c.hz)
  {
    hide Handle, FlowKey, Balanced, MakeRoom, Expired;
    HandleNew(c, s, p, space);
    RoomExactly(c, s, k);
    ExpiredAfter(c, s.elapsed, s.table[k]);
  }

  lemma RoomExactly(c: Config, s: State, k: Key)
    requires Invariant(c, s) && k in s.table
    ensures k in MakeRoom(c, s).table <==> !(|s.table| == TABLE_SIZE - 1 && Expired(c, s.elapsed, s.table[k]))
  {
    hide Clear, Expired, Balanced;
    ClearFacts(c, s);
  }

  lemma ExpiredAfter(c: Config, elapsed: nat, f: Flow)
    requires c.hz > 0 && f.last <= elapsed
    ensures Expired(c, elapsed, f) <==> elapsed - f.last >= c.expireTime * c.hz
  {
    var x := elapsed - f.last;
    var a := x / c.hz;
    assert x == a * c.hz + x % c.hz;
    if a >= c.expireTime {
      Times(c.expireTime + 1, a + 1, c.hz);
    } else {
      Times(a + 1, c.expireTime, c.hz);
    }
  }

  // --- A full table ---------------------------------------------------------------------------------------------------

  /** When the table is full to the last entry the 16-bit count is 0, so no entry is ever cleared again: the flows in it
      stay for ever, expired or not, and every new flow is dropped. */
  lemma FullStep(c: Config, s: State, t: State)
    requires Invariant(c, s) && Step(c, s, t) && |s.table| == TABLE_SIZE
    ensures t.table.Keys == s.table.Keys && |t.table| == TABLE_SIZE
  {
    hide Handle, FlowKey, Balanced;
    if now: nat :| Passes(c, s, now, t) {
    } else {
      var p, space :| t == Handle(c, s, p, space).0;
      if Ignored(p) {
        HandleIgnored(c, s, p, space);
      } else if FlowKey(c, p) in s.table {
        HandleKnown(c, s, p, space);
      } else {
        assert s.numStored == 0;
        HandleNew(c, s, p, space);
      }
    }
    assert |t.table| == |t.table.Keys| && |s.table| == |s.table.Keys|;
  }

  lemma {:induction false} FullForEver(c: Config, states: seq<State>)
    requires states != [] && Invariant(c, states[0]) && Run(c, states) && |states[0].table| == TABLE_SIZE
    ensures var t := states[|states| - 1];
            t.table.Keys == states[0].table.Keys && |t.table| == TABLE_SIZE && Invariant(c, t)
    decreases |states|
  {
    hide Invariant, Step;
    if |states| == 1 {
    } else {
      var before := states[..|states| - 1];
      FullForEver(c, before);
      var s, t := states[|states| - 2], states[|states| - 2 + 1];
      assert s == before[|before| - 1] && Step(c, s, t);
      StepKeepsInvariant(c, s, t);
      FullStep(c, s, t);
    }
  }

  /** When it comes to that: exactly when a new flow is let in while none of 65535 has expired. */
  lemma FillsUp(c: Config, s: State, p: Packet, space: bool)
    requires Invariant(c, s) && |s.table| < TABLE_SIZE
    ensures |Handle(c, s, p, space).0.table| == TABLE_SIZE <==>
              && |s.table| == TABLE_SIZE - 1 && space && !Ignored(p) && FlowKey(c, p) !in s.table
              && forall k :: k in s.table ==> !Expired(c, s.elapsed, s.table[k])
  {
    hide Handle, Expired, FlowKey, Balanced, MakeRoom;
    var k := FlowKey(c, p);
    if Ignored(p) {
      HandleIgnored(c, s, p, space);
    } else if k in s.table {
      HandleKnown(c, s, p, space);
      assert s.table[k := s.table[k].(last := s.elapsed)].Keys == s.table.Keys;
      SameSize(s.table[k := s.table[k].(last := s.elapsed)], s.table);
    } else {
      HandleNew(c, s, p, space);
      MakeRoomKeeps(c, s);
      var t := MakeRoom(c, s);
      RoomNeeded(c, s);
      if space && |t.table| < TABLE_SIZE {
        var u := Handle(c, s, p, space).0.table;
        assert u.Keys == t.table.Keys + {k} && |u| == |u.Keys| && |t.table| == |t.table.Keys|;
      }
    }
  }

  lemma SameSize(a: map<Key, Flow>, b: map<Key, Flow>)
    requires a.Keys == b.Keys
    ensures |a| == |b|
  {
    assert |a| == |a.Keys| && |b| == |b.Keys|;
  }

  // A table one short of full keeps its size exactly when nothing in it has expired.
  lemma RoomNeeded(c: Config, s: State)
    requires Invariant(c, s) && |s.table| < TABLE_SIZE
    ensures |MakeRoom(c, s).table| == TABLE_SIZE - 1 <==>
              |s.table| == TABLE_SIZE - 1 && forall k :: k in s.table ==> !Expired(c, s.elapsed, s.table[k])
  {
    hide Clear, Expired, Balanced;
    var t := MakeRoom(c, s);
    if |s.table| == TABLE_SIZE - 1 {
      ClearFacts(c, s);
      assert t.table.Keys <= s.table.Keys;
      if k :| k in s.table && Expired(c, s.elapsed, s.table[k]) {
        SubsetSize(t.table.Keys, s.table.Keys - {k});
      } else {
        assert t.table.Keys == s.table.Keys;
      }
      assert |t.table| == |t.table.Keys| && |s.table| == |s.table.Keys|;
    }
  }

  // --- A run that fills the table -------------------------------------------------------------------------------------

  // The first packet of the i-th of many clients.
  function FromClient(c: Config, i: nat): Packet {
    Packet(c.clientPort, true, 0, 0, i + 1, 1, TCP, 0, 0)
  }

  lemma ClientKeys(c: Config, i: nat, j: nat)
    ensures !Ignored(FromClient(c, i))
    ensures FlowKey(c, FromClient(c, i)) == FlowKey(c, FromClient(c, j)) ==> i == j
  {
  }

  // The flows of the first m clients, all seen now.
  ghost predicate HoldsClients(c: Config, s: State, m: nat) {
    && |s.table| == m
    && forall k :: k in s.table ==> s.table[k].last == s.elapsed && exists i :: 0 <= i < m && k == FlowKey(c, FromClient(c, i))
  }

  lemma OneMoreClient(c: Config, s: State, m: nat)
    requires Invariant(c, s) && HoldsClients(c, s, m) && m < TABLE_SIZE && c.expireTime > 0
    ensures HoldsClients(c, Handle(c, s, FromClient(c, m), true).0, m + 1)
  {
    hide Handle, FlowKey, FromClient, MakeRoom, Balanced;
    var p := FromClient(c, m);
    var k, t := FlowKey(c, p), MakeRoom(c, s);
    ClientKeys(c, m, m);
    NewClient(c, s, m);
    HandleNew(c, s, p, true);
    MakeRoomKeeps(c, s);
    assert t.table.Keys == s.table.Keys;
    var u := Handle(c, s, p, true).0;
    assert u.table.Keys == s.table.Keys + {k};
    assert |t.table| == |t.table.Keys| && |s.table| == |s.table.Keys| && |u.table| == |u.table.Keys|;
    forall x | x in u.table
      ensures u.table[x].last == u.elapsed && exists i :: 0 <= i < m + 1 && x == FlowKey(c, FromClient(c, i))
    {
      if x == k {
        assert x == FlowKey(c, FromClient(c, m));
      }
    }
  }

  // The client is new, and none of the others has expired.
  lemma NewClient(c: Config, s: State, m: nat)
    requires Invariant(c, s) && HoldsClients(c, s, m) && c.expireTime > 0
    ensures FlowKey(c, FromClient(c, m)) !in s.table
    ensures forall k :: k in s.table ==> !Expired(c, s.elapsed, s.table[k])
  {
    hide FlowKey, FromClient, Balanced;
    if FlowKey(c, FromClient(c, m)) in s.table {
      var i :| 0 <= i < m && FlowKey(c, FromClient(c, m)) == FlowKey(c, FromClient(c, i));
      ClientKeys(c, m, i);
    }
  }

  /** From an empty table: as many clients at one time as the table has entries fill it to the last. */
  lemma {:induction false} TableFills(c: Config, now: nat, m: nat) returns (run: seq<State>)
    requires ValidConfig(c) && c.expireTime > 0 && m <= TABLE_SIZE
    ensures run != [] && run[0] == State(map[], 0, now, 0, false) && Run(c, run)
    ensures Invariant(c, run[|run| - 1]) && HoldsClients(c, run[|run| - 1], m)
    decreases m
  {
    hide Invariant, Step, Handle;
    if m == 0 {
      run := [State(map[], 0, now, 0, false)];
      StartInvariant(c, now);
    } else {
      run := TableFills(c, now, m - 1);
      var s := run[|run| - 1];
      HandleStep(c, s, FromClient(c, m - 1), true);
      var t := Handle(c, s, FromClient(c, m - 1), true).0;
      OneMoreClient(c, s, m - 1);
      StepKeepsInvariant(c, s, t);
      run := run + [t];
    }
  }

  lemma HandleStep(c: Config, s: State, p: Packet, space: bool)
    requires Invariant(c, s)
    ensures ValidConfig(c) && TimesKept(s) && DestsKept(c, s) && Step(c, s, Handle(c, s, p, space).0)
  {
    hide Handle;
  }
}
