/** The books of one flow shard: live flows, their lazy timers, flows per source prefix,
    and the shared budget of active flows. */
module FlowTable {
  import opened Basics

  type Key = nat
  type Prefix = nat

  datatype Flow = Flow(id: nat, prefix: Prefix, lastActivity: nat, tcp: bool)

  datatype Timer = Timer(deadline: nat, serial: nat, key: Key, flowId: nat)

  type Flows = map<Key, Flow>

  const COMPACT_ABOVE: nat := 4096
  const COMPACT_SLACK: nat := 1024

  // ---------- Source counts ----------

  ghost function Members(flows: Flows, p: Prefix): set<Key> {
    set k | k in flows && flows[k].prefix == p
  }

  /** Every prefix with live flows has their exact number, and no other is listed. */
  ghost predicate CountsExact(flows: Flows, counts: map<Prefix, nat>) {
    && (forall p :: p in counts <==> Members(flows, p) != {})
    && (forall p | p in counts :: counts[p] == |Members(flows, p)|)
  }

  function CountOf(counts: map<Prefix, nat>, p: Prefix): nat {
    if p in counts then counts[p] else 0
  }

  function Fewer(counts: map<Prefix, nat>, p: Prefix): map<Prefix, nat> {
    if p !in counts then counts
    else if counts[p] <= 1 then counts - {p}
    else counts[p := counts[p] - 1]
  }

  lemma MembersWithout(flows: Flows, key: Key, p: Prefix)
    requires key in flows
    ensures Members(flows - {key}, p) == if flows[key].prefix == p then Members(flows, p) - {key} else Members(flows, p)
  {
  }

  lemma CountsWithout(flows: Flows, counts: map<Prefix, nat>, key: Key)
    requires CountsExact(flows, counts) && key in flows
    ensures CountsExact(flows - {key}, Fewer(counts, flows[key].prefix))
  {
    var q := flows[key].prefix;
    forall p
      ensures Members(flows - {key}, p) == if q == p then Members(flows, p) - {key} else Members(flows, p)
    {
      MembersWithout(flows, key, p);
    }
    assert key in Members(flows, q);
    assert |Members(flows, q) - {key}| == |Members(flows, q)| - 1;
    hide Members;
  }

  lemma CountsWith(flows: Flows, counts: map<Prefix, nat>, key: Key, f: Flow)
    requires CountsExact(flows, counts) && key !in flows
    ensures CountsExact(flows[key := f], counts[f.prefix := CountOf(counts, f.prefix) + 1])
  {
    forall p
      ensures Members(flows[key := f], p) == if f.prefix == p then Members(flows, p) + {key} else Members(flows, p)
    {
    }
    assert key !in Members(flows, f.prefix);
    hide Members;
  }

  lemma CountsTouched(flows: Flows, counts: map<Prefix, nat>, key: Key, f: Flow)
    requires CountsExact(flows, counts) && key in flows && f.prefix == flows[key].prefix
    ensures CountsExact(flows[key := f], counts)
  {
    forall p
      ensures Members(flows[key := f], p) == Members(flows, p)
    {
    }
    hide Members;
  }

  // ---------- Timers ----------

  predicate Owns(t: Timer, key: Key, id: nat) {
    t.key == key && t.flowId == id
  }

  /** The `i`-th timer, and no other, belongs to the flow. */
  ghost predicate OnlyAt(timers: seq<Timer>, key: Key, id: nat, i: nat) {
    i < |timers| && Owns(timers[i], key, id) && forall j | 0 <= j < |timers| && j != i :: !Owns(timers[j], key, id)
  }

  ghost predicate OneTimer(timers: seq<Timer>, key: Key, id: nat) {
    exists i: nat :: OnlyAt(timers, key, id, i)
  }

  /** Every live flow owns exactly one timer with its id; `but` is a flow still being set up. */
  ghost predicate TimersOk(flows: Flows, timers: seq<Timer>, but: Option<Key>) {
    forall k | k in flows && but != Some(k) :: OneTimer(timers, k, flows[k].id)
  }

  lemma OneTimerMore(timers: seq<Timer>, t: Timer, key: Key, id: nat)
    requires OneTimer(timers, key, id) && !Owns(t, key, id)
    ensures OneTimer(timers + [t], key, id)
  {
    var i: nat :| OnlyAt(timers, key, id, i);
    assert OnlyAt(timers + [t], key, id, i);
  }

  lemma OneTimerNew(timers: seq<Timer>, t: Timer, key: Key, id: nat)
    requires Owns(t, key, id) && forall j | 0 <= j < |timers| :: !Owns(timers[j], key, id)
    ensures OneTimer(timers + [t], key, id)
  {
    assert OnlyAt(timers + [t], key, id, |timers|);
  }

  function Without(timers: seq<Timer>, n: nat): (r: seq<Timer>)
    requires n < |timers|
    ensures |r| == |timers| - 1 && forall i | 0 <= i < |r| :: r[i] == if i < n then timers[i] else timers[i + 1]
  {
    timers[..n] + timers[n + 1..]
  }

  lemma OneTimerLess(timers: seq<Timer>, n: nat, key: Key, id: nat)
    requires OneTimer(timers, key, id) && n < |timers|
    ensures !Owns(timers[n], key, id) ==> OneTimer(Without(timers, n), key, id)
    ensures Owns(timers[n], key, id) ==> forall j | 0 <= j < |timers| - 1 :: !Owns(Without(timers, n)[j], key, id)
  {
    var i: nat :| OnlyAt(timers, key, id, i);
    var rest := Without(timers, n);
    assert forall j | 0 <= j < |rest| :: rest[j] == timers[if j < n then j else j + 1];
    hide Without;
    if i < n {
      assert OnlyAt(rest, key, id, i);
    } else if i > n {
      assert OnlyAt(rest, key, id, i - 1);
    }
  }

  lemma TimersMore(flows: Flows, timers: seq<Timer>, but: Option<Key>, t: Timer)
    requires TimersOk(flows, timers, but) && (t.key in flows && but != Some(t.key) ==> flows[t.key].id != t.flowId)
    ensures TimersOk(flows, timers + [t], but)
  {
    hide OneTimer;
    forall k | k in flows && but != Some(k)
      ensures OneTimer(timers + [t], k, flows[k].id)
    {
      OneTimerMore(timers, t, k, flows[k].id);
    }
  }

  /** Popping a timer leaves only its own flow, if that is still alive, without one. */
  lemma TimersLess(flows: Flows, timers: seq<Timer>, n: nat)
    requires TimersOk(flows, timers, None) && n < |timers|
    ensures var t := timers[n];
      TimersOk(flows, Without(timers, n), if t.key in flows && flows[t.key].id == t.flowId then Some(t.key) else None)
    ensures var t := timers[n];
      t.key in flows && flows[t.key].id == t.flowId ==>
        forall j | 0 <= j < |timers| - 1 :: !Owns(Without(timers, n)[j], t.key, t.flowId)
  {
    hide OneTimer, Without;
    var t := timers[n];
    forall k | k in flows
      ensures !Owns(t, k, flows[k].id) ==> OneTimer(Without(timers, n), k, flows[k].id)
      ensures Owns(t, k, flows[k].id) ==> forall j | 0 <= j < |timers| - 1 :: !Owns(Without(timers, n)[j], k, flows[k].id)
    {
      OneTimerLess(timers, n, k, flows[k].id);
    }
  }

  function TimeoutOf(f: Flow, tcpTimeout: nat, udpTimeout: nat): nat {
    if f.tcp then tcpTimeout else udpTimeout
  }

  /** No flow's timer is set for later than the flow's last activity plus its timeout (the
      timeouts given here include the time one packet may take). */
  ghost predicate Timely(flows: Flows, timers: seq<Timer>, tcpTimeout: nat, udpTimeout: nat) {
    forall j | 0 <= j < |timers| && timers[j].key in flows && flows[timers[j].key].id == timers[j].flowId ::
      timers[j].deadline <= flows[timers[j].key].lastActivity + TimeoutOf(flows[timers[j].key], tcpTimeout, udpTimeout)
  }

  ghost predicate SeenBy(flows: Flows, clock: nat) {
    forall k | k in flows :: flows[k].lastActivity <= clock
  }

  lemma TimelyFewer(flows: Flows, timers: seq<Timer>, tcpTimeout: nat, udpTimeout: nat, key: Key)
    requires Timely(flows, timers, tcpTimeout, udpTimeout)
    ensures Timely(flows - {key}, timers, tcpTimeout, udpTimeout)
  {
  }

  lemma TimelyWith(flows: Flows, timers: seq<Timer>, tcpTimeout: nat, udpTimeout: nat, key: Key, f: Flow)
    requires Timely(flows, timers, tcpTimeout, udpTimeout)
    requires if key in flows then flows[key].id == f.id && flows[key].lastActivity <= f.lastActivity && flows[key].tcp == f.tcp
             else forall j | 0 <= j < |timers| :: timers[j].flowId != f.id
    ensures Timely(flows[key := f], timers, tcpTimeout, udpTimeout)
  {
  }

  lemma TimelyMore(flows: Flows, timers: seq<Timer>, tcpTimeout: nat, udpTimeout: nat, t: Timer)
    requires Timely(flows, timers, tcpTimeout, udpTimeout)
    requires t.key in flows && t.deadline <= flows[t.key].lastActivity + TimeoutOf(flows[t.key], tcpTimeout, udpTimeout)
    ensures Timely(flows, timers + [t], tcpTimeout, udpTimeout)
  {
  }

  lemma TimelyLess(flows: Flows, timers: seq<Timer>, tcpTimeout: nat, udpTimeout: nat, n: nat)
    requires Timely(flows, timers, tcpTimeout, udpTimeout) && n < |timers|
    ensures Timely(flows, Without(timers, n), tcpTimeout, udpTimeout)
  {
    var rest := Without(timers, n);
    assert forall i | 0 <= i < |rest| :: rest[i] == timers[if i < n then i else i + 1];
    hide Without;
  }

  /** With no timer due, no live flow has been idle for its timeout. */
  lemma NoneIdle(flows: Flows, timers: seq<Timer>, tcpTimeout: nat, udpTimeout: nat, now: nat, k: Key)
    requires Timely(flows, timers, tcpTimeout, udpTimeout) && TimersOk(flows, timers, None) && k in flows
    requires forall i | 0 <= i < |timers| :: timers[i].deadline > now
    ensures flows[k].lastActivity + TimeoutOf(flows[k], tcpTimeout, udpTimeout) > now
  {
    hide TimeoutOf;
    assert OneTimer(timers, k, flows[k].id);
    var i: nat :| OnlyAt(timers, k, flows[k].id, i);
    assert timers[i].deadline > now;
  }

  /** How many timers are due. */
  function Due(timers: seq<Timer>, now: nat): nat {
    if timers == [] then 0
    else Due(timers[..|timers| - 1], now) + if timers[|timers| - 1].deadline <= now then 1 else 0
  }

  lemma DueMore(timers: seq<Timer>, t: Timer, now: nat)
    ensures Due(timers + [t], now) == Due(timers, now) + if t.deadline <= now then 1 else 0
  {
    assert (timers + [t])[..|timers|] == timers;
  }

  lemma {:induction false} DueConcat(a: seq<Timer>, b: seq<Timer>, now: nat)
    ensures Due(a + b, now) == Due(a, now) + Due(b, now)
  {
    if b == [] {
      assert a + b == a;
    } else {
      assert (a + b)[..|a + b| - 1] == a + b[..|b| - 1];
      DueConcat(a, b[..|b| - 1], now);
    }
  }

  lemma DueLess(timers: seq<Timer>, n: nat, now: nat)
    requires n < |timers| && timers[n].deadline <= now
    ensures Due(Without(timers, n), now) == Due(timers, now) - 1
  {
    DueConcat(timers[..n], timers[n + 1..], now);
    DueConcat(timers[..n] + [timers[n]], timers[n + 1..], now);
    DueMore(timers[..n], timers[n], now);
    assert timers == timers[..n] + [timers[n]] + timers[n + 1..];
  }

  // ---------- The shard ----------

  /** The budget shared by all shards. */
  class Metrics {
    var activeFlows: nat

    constructor ()
      ensures activeFlows == 0
    {
      activeFlows := 0;
    }

    method TryAdmitFlow(maxActiveFlows: nat) returns (ok: bool)
      modifies this
      ensures ok <==> old(activeFlows) < maxActiveFlows
      ensures activeFlows == old(activeFlows) + if ok then 1 else 0
    {
      ok := activeFlows < maxActiveFlows;
      if ok {
        activeFlows := activeFlows + 1;
      }
    }
  }

  /** What one packet means for the books; the rest of its handling does not touch them. */
  datatype Packet = Packet(key: Key, prefix: Prefix, tcp: bool, suppressed: bool, freshSyn: bool, accepted: bool,
                           closes: bool, newId: nat)

  /** The flows left once a new generation of the packet's connection was noticed. */
  function Base(flows: Flows, p: Packet): Flows {
    if p.freshSyn then flows - {p.key} else flows
  }

  /** The table with the packet's flow found or, if both budgets allow it, admitted. */
  ghost function Entered(flows: Flows, active: nat, p: Packet, now: nat, maxActive: nat, maxPerPrefix: nat): Flows {
    if p.key in flows then flows[p.key := flows[p.key].(lastActivity := now)]
    else if p.accepted && active < maxActive && |Members(flows, p.prefix)| < maxPerPrefix then
      flows[p.key := Flow(p.newId, p.prefix, now, p.tcp)]
    else flows
  }

  /** What one packet makes of the table, given the shared count of active flows. */
  ghost function Handled(flows: Flows, active: nat, p: Packet, now: nat, maxActive: nat, maxPerPrefix: nat): Flows
    requires |flows| <= active
  {
    if p.suppressed then flows
    else
      var base := Base(flows, p);
      var entered := Entered(base, active - |flows| + |base|, p, now, maxActive, maxPerPrefix);
      if p.closes && p.key in entered then entered - {p.key} else entered
  }

  class Shard {
    const metrics: Metrics
    const maxActiveFlows: nat
    const maxFlowsPerPrefix: nat
    const tcpTimeout: nat
    const udpTimeout: nat
    var flows: Flows
    var timers: seq<Timer>
    var counts: map<Prefix, nat>
    var serial: nat
    /** The time of the last packet, and the longest time handling one packet takes: a new
        flow's timer is set from a second look at the clock. */
    ghost var clock: nat
    ghost const lag: nat

    ghost predicate Valid()
      reads this, metrics
    {
      && CountsExact(flows, counts) && TimersOk(flows, timers, None)
      && Timely(flows, timers, tcpTimeout + lag, udpTimeout + lag) && SeenBy(flows, clock)
      && |flows| <= metrics.activeFlows && maxFlowsPerPrefix > 0
    }

    constructor (metrics: Metrics, maxActiveFlows: nat, maxFlowsPerPrefix: nat, tcpTimeout: nat, udpTimeout: nat, ghost lag: nat)
      requires maxFlowsPerPrefix > 0
      ensures Valid() && flows == map[] && timers == []
      ensures this.metrics == metrics && this.maxActiveFlows == maxActiveFlows && this.maxFlowsPerPrefix == maxFlowsPerPrefix
    {
      this.metrics := metrics;
      this.maxActiveFlows := maxActiveFlows;
      this.maxFlowsPerPrefix := maxFlowsPerPrefix;
      this.lag := lag;
      this.tcpTimeout := tcpTimeout;
      this.udpTimeout := udpTimeout;
      flows := map[];
      timers := [];
      counts := map[];
      serial := 0;
      clock := 0;
    }

    function Timeout(f: Flow): nat {
      TimeoutOf(f, tcpTimeout, udpTimeout)
    }

    /** Forgets a flow, if there is one, in all books but the timers. */
    method CloseFlow(key: Key)
      requires CountsExact(flows, counts) && |flows| <= metrics.activeFlows
      modifies this`flows, this`counts, metrics
      ensures CountsExact(flows, counts) && flows == old(flows) - {key}
      ensures metrics.activeFlows - |flows| == old(metrics.activeFlows) - |old(flows)|
    {
      if key in flows {
        var prefix := flows[key].prefix;
        CountsWithout(flows, counts, key);
        assert (flows - {key}).Keys == flows.Keys - {key};
        hide CountsExact;
        SizeWithout(flows, key);
        flows := flows - {key};
        metrics.activeFlows := metrics.activeFlows - 1;
        counts := Fewer(counts, prefix);
      } else {
        assert flows - {key} == flows;
      }
    }

    /** Puts a flow that is not there yet into the table, if both budgets allow it. */
    method Admit(p: Packet, now: nat) returns (admitted: bool)
      requires p.key !in flows && CountsExact(flows, counts) && |flows| <= metrics.activeFlows && maxFlowsPerPrefix > 0
      modifies this`flows, this`counts, metrics
      ensures CountsExact(flows, counts)
      ensures metrics.activeFlows - |flows| == old(metrics.activeFlows) - |old(flows)|
      ensures admitted <==> (p.accepted && old(metrics.activeFlows) < maxActiveFlows
                             && |Members(old(flows), p.prefix)| < maxFlowsPerPrefix)
      ensures flows == if admitted then old(flows)[p.key := Flow(p.newId, p.prefix, now, p.tcp)] else old(flows)
    {
      if !p.accepted {
        return false;
      }
      var reserved := metrics.TryAdmitFlow(maxActiveFlows);
      if !reserved {
        return false;
      }
      CountIs(flows, counts, p.prefix);
      var count := CountOf(counts, p.prefix);
      if count >= maxFlowsPerPrefix {
        metrics.activeFlows := metrics.activeFlows - 1;
        return false;
      }
      var f := Flow(p.newId, p.prefix, now, p.tcp);
      CountsWith(flows, counts, p.key, f);
      hide CountsExact, Members;
      counts := counts[p.prefix := count + 1];
      SizeWith(flows, p.key, f);
      flows := flows[p.key := f];
      admitted := true;
    }

    /** A new SYN with another initial sequence number ends the old generation. */
    method NewGeneration(p: Packet)
      requires Valid()
      modifies this`flows, this`counts, metrics
      ensures Valid() && flows == Base(old(flows), p)
      ensures metrics.activeFlows - |flows| == old(metrics.activeFlows) - |old(flows)|
    {
      hide CountsExact, TimersOk, Timely;
      if p.freshSyn && p.key in flows {
        TimersForget(flows, timers, p.key);
        TimelyFewer(flows, timers, tcpTimeout + lag, udpTimeout + lag, p.key);
        CloseFlow(p.key);
      } else {
        assert Base(flows, p) == flows;
      }
    }

    /** Finds the packet's flow or admits a new one. */
    method Enter(p: Packet, now: nat) returns (entered: bool, isNew: bool)
      requires Valid() && clock <= now && forall j | 0 <= j < |timers| :: timers[j].flowId != p.newId
      modifies this`flows, this`counts, metrics
      ensures CountsExact(flows, counts) && |flows| <= metrics.activeFlows
      ensures TimersOk(flows, timers, if isNew then Some(p.key) else None)
      ensures Timely(flows, timers, tcpTimeout + lag, udpTimeout + lag) && SeenBy(flows, now)
      ensures entered ==> p.key in flows && flows[p.key].lastActivity == now
      ensures metrics.activeFlows - |flows| == old(metrics.activeFlows) - |old(flows)|
      ensures isNew ==> entered
      ensures flows == Entered(old(flows), old(metrics.activeFlows), p, now, maxActiveFlows, maxFlowsPerPrefix)
      ensures entered <==> p.key in flows
      ensures isNew ==> flows[p.key].id == p.newId
      ensures isNew <==> p.key in flows && p.key !in old(flows)
    {
      hide CountsExact, TimersOk, Members, Timely;
      if p.key in flows {
        var touched := flows[p.key].(lastActivity := now);
        CountsTouched(flows, counts, p.key, touched);
        TimersTouched(flows, timers, p.key, touched);
        TimelyWith(flows, timers, tcpTimeout + lag, udpTimeout + lag, p.key, touched);
        SizeTouched(flows, p.key, touched);
        flows := flows[p.key := touched];
        return true, false;
      }
      TimersAdmitted(flows, timers, p.key, Flow(p.newId, p.prefix, now, p.tcp));
      TimelyWith(flows, timers, tcpTimeout + lag, udpTimeout + lag, p.key, Flow(p.newId, p.prefix, now, p.tcp));
      isNew := Admit(p, now);
      entered := isNew;
    }

    /** A flow that survives its first packet gets its one timer; a closing one goes. */
    method Settle(p: Packet, now: nat, later: nat, isNew: bool)
      requires p.key in flows && CountsExact(flows, counts) && |flows| <= metrics.activeFlows && maxFlowsPerPrefix > 0
      requires TimersOk(flows, timers, if isNew then Some(p.key) else None)
      requires isNew ==> forall j | 0 <= j < |timers| :: timers[j].flowId != flows[p.key].id
      requires Timely(flows, timers, tcpTimeout + lag, udpTimeout + lag) && SeenBy(flows, now) && flows[p.key].lastActivity == now <= later <= now + lag
      modifies this`flows, this`counts, this`timers, this`serial, this`clock, metrics
      ensures Valid() && clock == now && flows == if p.closes then old(flows) - {p.key} else old(flows)
      ensures metrics.activeFlows - |flows| == old(metrics.activeFlows) - |old(flows)|
    {
      hide CountsExact, TimersOk, Timely;
      clock := now;
      if isNew && !p.closes {
        serial := serial + 1;
        var t := Timer(later + Timeout(flows[p.key]), serial, p.key, flows[p.key].id);
        TimersStart(flows, timers, p.key, t);
        TimelyMore(flows, timers, tcpTimeout + lag, udpTimeout + lag, t);
        timers := timers + [t];
      }
      if p.closes {
        TimersDropped(flows, timers, p.key, isNew);
        TimelyFewer(flows, timers, tcpTimeout + lag, udpTimeout + lag, p.key);
        CloseFlow(p.key);
      }
    }

    /** One packet, seen at `now`; its timer, if it gets one, is set at `later`. The clock
        does not go back. */
    method Handle(p: Packet, now: nat, later: nat)
      requires Valid() && clock <= now <= later <= now + lag && forall j | 0 <= j < |timers| :: timers[j].flowId != p.newId
      modifies this`flows, this`counts, this`timers, this`serial, this`clock, metrics
      ensures Valid() && clock <= now
      ensures metrics.activeFlows - |flows| == old(metrics.activeFlows) - |old(flows)|
      ensures flows == Handled(old(flows), old(metrics.activeFlows), p, now, maxActiveFlows, maxFlowsPerPrefix)
    {
      hide CountsExact, TimersOk, Timely, Entered, Base;
      if p.suppressed {
        return;
      }
      NewGeneration(p);
      var entered, isNew := Enter(p, now);
      if entered {
        Settle(p, now, later, isNew);
      } else {
        clock := now;
      }
    }

    /** The earliest timer, as the top of the heap. */
    method Earliest() returns (n: nat)
      requires timers != []
      ensures n < |timers| && forall i | 0 <= i < |timers| :: timers[n].deadline <= timers[i].deadline
    {
      n := 0;
      for i := 1 to |timers|
        invariant n < |timers| && forall j | 0 <= j < i :: timers[n].deadline <= timers[j].deadline
      {
        if timers[i].deadline < timers[n].deadline
           || (timers[i].deadline == timers[n].deadline && timers[i].serial < timers[n].serial) {
          n := i;
        }
      }
    }

    /** Fires every due timer: an idle flow is closed, an active one gets its timer again
        for its true deadline, and stale timers vanish. */
    method Expire(now: nat)
      requires Valid()
      modifies this`flows, this`counts, this`timers, this`serial, metrics
      ensures Valid() && Due(timers, now) == 0
      ensures forall k | k in flows :: flows[k].lastActivity + Timeout(flows[k]) + lag > now
      ensures metrics.activeFlows - |flows| == old(metrics.activeFlows) - |old(flows)|
      ensures forall k | k in flows :: k in old(flows) && flows[k] == old(flows)[k]
      ensures forall k | k in old(flows) && k !in flows :: old(flows)[k].lastActivity + Timeout(old(flows)[k]) <= now
    {
      hide CountsExact, TimersOk, Timely, Due, Without, TimeoutOf;
      while true
        invariant Valid()
        invariant metrics.activeFlows - |flows| == old(metrics.activeFlows) - |old(flows)|
        invariant forall k | k in flows :: k in old(flows) && flows[k] == old(flows)[k]
        invariant forall k | k in old(flows) && k !in flows :: old(flows)[k].lastActivity + Timeout(old(flows)[k]) <= now
        decreases Due(timers, now)
      {
        if timers == [] {
          AllAwake(now);
          return;
        }
        var n := Earliest();
        if timers[n].deadline > now {
          AllAwake(now);
          return;
        }
        FireOne(n, now);
      }
    }

    lemma AllAwake(now: nat)
      requires Valid() && forall i | 0 <= i < |timers| :: timers[i].deadline > now
      ensures Due(timers, now) == 0
      ensures forall k | k in flows :: flows[k].lastActivity + Timeout(flows[k]) + lag > now
    {
      hide CountsExact, TimersOk, Timely, Due;
      NothingDue(timers, now);
      forall k | k in flows
        ensures flows[k].lastActivity + Timeout(flows[k]) + lag > now
      {
        NoneIdle(flows, timers, tcpTimeout + lag, udpTimeout + lag, now, k);
      }
    }

    method FireOne(n: nat, now: nat)
      requires Valid() && n < |timers| && timers[n].deadline <= now
      modifies this`flows, this`counts, this`timers, this`serial, metrics
      ensures Valid() && Due(timers, now) < Due(old(timers), now)
      ensures metrics.activeFlows - |flows| == old(metrics.activeFlows) - |old(flows)|
      ensures forall k | k in flows :: k in old(flows) && flows[k] == old(flows)[k]
      ensures forall k | k in old(flows) && k !in flows :: old(flows)[k].lastActivity + Timeout(old(flows)[k]) <= now
    {
      hide CountsExact, TimersOk, Timely, Due, Without;
      var item := timers[n];
      TimersLess(flows, timers, n);
      DueLess(timers, n, now);
      TimelyLess(flows, timers, tcpTimeout + lag, udpTimeout + lag, n);
      timers := Without(timers, n);
      if item.key !in flows || flows[item.key].id != item.flowId {
        return;
      }
      var f := flows[item.key];
      var next := f.lastActivity + Timeout(f);
      if next <= now {
        TimersClosed(flows, timers, item.key);
        TimelyFewer(flows, timers, tcpTimeout + lag, udpTimeout + lag, item.key);
        CloseFlow(item.key);
      } else {
        serial := serial + 1;
        var t := Timer(next, serial, item.key, item.flowId);
        DueMore(timers, t, now);
        TimersAgain(flows, timers, item.key, t);
        TimelyMore(flows, timers, tcpTimeout + lag, udpTimeout + lag, t);
        timers := timers + [t];
      }
    }

    /** Rebuilds the heap from the live flows when stale timers have piled up. */
    method Compact()
      requires Valid()
      modifies this`timers, this`serial
      ensures Valid()
      ensures |timers| <= COMPACT_ABOVE || |timers| <= 2 * |flows| + COMPACT_SLACK
    {
      hide CountsExact;
      if |timers| > COMPACT_ABOVE && |timers| > 2 * |flows| + COMPACT_SLACK {
        var rebuilt: seq<Timer> := [];
        var rest := flows.Keys;
        CardKeys(flows);
        while rest != {}
          invariant rest <= flows.Keys && |rebuilt| + |rest| == |flows|
          invariant forall i | 0 <= i < |rebuilt| :: rebuilt[i].key in flows && rebuilt[i].key !in rest
          invariant forall k | k in flows && k !in rest :: OneTimer(rebuilt, k, flows[k].id)
          invariant Timely(flows, rebuilt, tcpTimeout + lag, udpTimeout + lag)
          decreases |rest|
        {
          var k :| k in rest;
          serial := serial + 1;
          var t := Timer(flows[k].lastActivity + Timeout(flows[k]), serial, k, flows[k].id);
          OneTimerNew(rebuilt, t, k, flows[k].id);
          forall j | j in flows && j !in rest
            ensures OneTimer(rebuilt + [t], j, flows[j].id)
          {
            OneTimerMore(rebuilt, t, j, flows[j].id);
          }
          hide OneTimer, Timely;
          TimelyMore(flows, rebuilt, tcpTimeout + lag, udpTimeout + lag, t);
          rebuilt := rebuilt + [t];
          rest := rest - {k};
        }
        timers := rebuilt;
      }
    }
  }

  lemma CardKeys(flows: Flows)
    ensures |flows| == |flows.Keys|
  {
  }

  lemma SizeWithout(flows: Flows, key: Key)
    requires key in flows
    ensures |flows - {key}| == |flows| - 1
  {
    assert (flows - {key}).Keys == flows.Keys - {key};
    CardKeys(flows);
    CardKeys(flows - {key});
  }

  lemma SizeWith(flows: Flows, key: Key, f: Flow)
    requires key !in flows
    ensures |flows[key := f]| == |flows| + 1
  {
    assert flows[key := f].Keys == flows.Keys + {key};
    CardKeys(flows);
    CardKeys(flows[key := f]);
  }

  lemma SizeTouched(flows: Flows, key: Key, f: Flow)
    requires key in flows
    ensures |flows[key := f]| == |flows|
  {
    assert flows[key := f].Keys == flows.Keys;
    CardKeys(flows);
    CardKeys(flows[key := f]);
  }

  lemma CountIs(flows: Flows, counts: map<Prefix, nat>, p: Prefix)
    requires CountsExact(flows, counts)
    ensures CountOf(counts, p) == |Members(flows, p)|
  {
  }

  lemma TimersForget(flows: Flows, timers: seq<Timer>, key: Key)
    requires TimersOk(flows, timers, None)
    ensures TimersOk(flows - {key}, timers, None)
  {
  }

  lemma TimersAdmitted(flows: Flows, timers: seq<Timer>, key: Key, f: Flow)
    requires TimersOk(flows, timers, None) && key !in flows
    ensures TimersOk(flows[key := f], timers, Some(key))
  {
  }

  lemma TimersTouched(flows: Flows, timers: seq<Timer>, key: Key, f: Flow)
    requires TimersOk(flows, timers, None) && key in flows && f.id == flows[key].id
    ensures TimersOk(flows[key := f], timers, None)
  {
  }

  lemma TimersStart(flows: Flows, timers: seq<Timer>, key: Key, t: Timer)
    requires TimersOk(flows, timers, Some(key)) && key in flows && Owns(t, key, flows[key].id)
    requires forall j | 0 <= j < |timers| :: !Owns(timers[j], key, flows[key].id)
    ensures TimersOk(flows, timers + [t], None)
  {
    hide OneTimer;
    TimersMore(flows, timers, Some(key), t);
    OneTimerNew(timers, t, key, flows[key].id);
  }

  lemma TimersDropped(flows: Flows, timers: seq<Timer>, key: Key, isNew: bool)
    requires TimersOk(flows, timers, if isNew then Some(key) else None)
    ensures TimersOk(flows - {key}, timers, None)
  {
  }

  lemma TimersClosed(flows: Flows, timers: seq<Timer>, key: Key)
    requires TimersOk(flows, timers, Some(key))
    ensures TimersOk(flows - {key}, timers, None)
  {
  }

  lemma TimersAgain(flows: Flows, timers: seq<Timer>, key: Key, t: Timer)
    requires TimersOk(flows, timers, Some(key)) && key in flows && Owns(t, key, flows[key].id)
    requires forall j | 0 <= j < |timers| :: !Owns(timers[j], key, flows[key].id)
    ensures TimersOk(flows, timers + [t], None)
  {
    TimersStart(flows, timers, key, t);
  }

  lemma {:induction false} NothingDue(timers: seq<Timer>, now: nat)
    requires forall i | 0 <= i < |timers| :: timers[i].deadline > now
    ensures Due(timers, now) == 0
  {
    if timers != [] {
      NothingDue(timers[..|timers| - 1], now);
    }
  }
}
