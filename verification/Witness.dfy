/**
 Two things a MESI run can do that one might not expect, shown on one run of two
 cores: a set outgrows its associativity, and a read cleans a dirty block of another
 core without a counted writeback.  The run is built from reachable states.
 */
module Witness {
  import opened Defs
  import opened CacheSets
  import opened Protocols
  import opened Simulation
  import opened Ownership
  import opened Runs

  /** `s` is the last state of some run; said of every equal state, so that it is unfolded on demand only. */
  ghost predicate Reachable(cfg: Config, traces: seq<seq<TraceEntry>>, s: Sim) {
    forall z {:trigger Same(s, z)} :: Same(s, z) ==> EndsRun(cfg, traces, z)
  }

  predicate Same(s: Sim, z: Sim) {
    s == z
  }

  ghost predicate EndsRun(cfg: Config, traces: seq<seq<TraceEntry>>, s: Sim) {
    exists states: seq<Sim>, fired: seq<Event> :: IsRun(cfg, traces, states, fired) && states[|fired|] == s
  }

  lemma ReachStart(cfg: Config, traces: seq<seq<TraceEntry>>)
    requires cfg.Valid() && |traces| == cfg.cores
    ensures Reachable(cfg, traces, Start(cfg, traces))
  {
    var states: seq<Sim>, fired: seq<Event> := [Start(cfg, traces)], [];
    assert IsRun(cfg, traces, states, fired) && states[|fired|] == Start(cfg, traces);
  }

  lemma Extend(cfg: Config, traces: seq<seq<TraceEntry>>, states: seq<Sim>, fired: seq<Event>, e: Event, s': Sim)
    requires IsRun(cfg, traces, states, fired) && IsStep(cfg, states[|fired|], e, s')
    ensures IsRun(cfg, traces, states + [s'], fired + [e])
  {
    forall j: nat | j < |fired| + 1
      ensures StepAt(cfg, states + [s'], fired + [e], j)
    {
      assert j < |fired| ==> StepAt(cfg, states, fired, j);
    }
  }

  lemma ReachStep(cfg: Config, traces: seq<seq<TraceEntry>>, s: Sim, e: Event, s': Sim)
    requires Reachable(cfg, traces, s) && IsStep(cfg, s, e, s')
    ensures Reachable(cfg, traces, s')
  {
    assert Same(s, s);
    EndsNext(cfg, traces, s, e, s');
  }

  lemma EndsNext(cfg: Config, traces: seq<seq<TraceEntry>>, s: Sim, e: Event, s': Sim)
    requires EndsRun(cfg, traces, s) && IsStep(cfg, s, e, s')
    ensures EndsRun(cfg, traces, s')
  {
    var states: seq<Sim>, fired: seq<Event> :| IsRun(cfg, traces, states, fired) && states[|fired|] == s;
    Extend(cfg, traces, states, fired, e, s');
    Ends(cfg, traces, states + [s'], fired + [e]);
  }

  lemma Ends(cfg: Config, traces: seq<seq<TraceEntry>>, states: seq<Sim>, fired: seq<Event>)
    requires IsRun(cfg, traces, states, fired)
    ensures EndsRun(cfg, traces, states[|fired|])
  {
  }

  /** A run to a reachable state. */
  lemma PathTo(cfg: Config, traces: seq<seq<TraceEntry>>, s: Sim) returns (states: seq<Sim>, fired: seq<Event>)
    requires Reachable(cfg, traces, s)
    ensures IsRun(cfg, traces, states, fired) && states[|fired|] == s
  {
    assert Same(s, s);
    states, fired :| IsRun(cfg, traces, states, fired) && states[|fired|] == s;
  }

  // ----- episodes of one core while nothing else is due -----

  /** Core `c` fetches at time `t`, on an idle bus, and nothing else is due until after `later`. */
  ghost predicate Alone(cfg: Config, s: Sim, c: nat, t: nat, later: nat) {
    && WellFormed(cfg, s) && c < cfg.cores && !s.busy && s.queue == [] && !s.blocked[c]
    && Fetch(t, c) in s.events && t <= later
    && forall f :: f in s.events - multiset{Fetch(t, c)} ==> f.time > later
  }

  /** `s'` is idle again; of the events only the fetch of core `c` has moved, to time `u`. */
  ghost predicate Moved(s: Sim, c: nat, t: nat, s': Sim, u: nat) {
    && s'.events == s.events - multiset{Fetch(t, c)} + multiset{Fetch(u, c)}
    && !s'.busy && s'.queue == [] && s'.blocked == s.blocked && s'.exhausted == s.exhausted
    && c < |s.traces| && s.traces[c] != [] && s'.traces == s.traces[c := s.traces[c][1..]]
  }

  lemma ComputeEpisode(cfg: Config, traces: seq<seq<TraceEntry>>, s: Sim, c: nat, t: nat) returns (s': Sim)
    requires Reachable(cfg, traces, s) && WellFormed(cfg, s) && c < cfg.cores && Enabled(s, Fetch(t, c))
    requires !s.busy && s.queue == [] && !s.blocked[c] && s.traces[c] != [] && s.traces[c][0].kind == 2
    ensures Reachable(cfg, traces, s') && WellFormed(cfg, s') && Moved(s, c, t, s', t + s.traces[c][0].val)
    ensures s'.sys.caches == s.sys.caches
  {
    var e := Fetch(t, c);
    s' := FireFetch(cfg, s, e);
    ComputeFetch(cfg, s, e);
    ReachFetch(cfg, traces, s, e);
  }

  lemma ExhaustEpisode(cfg: Config, traces: seq<seq<TraceEntry>>, s: Sim, c: nat, t: nat, later: nat) returns (s': Sim)
    requires Reachable(cfg, traces, s) && Alone(cfg, s, c, t, later) && s.traces[c] == []
    ensures Reachable(cfg, traces, s') && WellFormed(cfg, s')
    ensures s' == s.(now := t, events := s.events - multiset{Fetch(t, c)}, exhausted := s.exhausted[c := true])
  {
    var e := Fetch(t, c);
    s' := FireFetch(cfg, s, e);
    ReachFetch(cfg, traces, s, e);
  }

  /** What the memory access at the head of the trace asks for. */
  ghost function NextOp(cfg: Config, s: Sim, c: nat): BusOp
    requires WellFormed(cfg, s) && c < cfg.cores && s.traces[c] != []
  {
    var entry := s.traces[c][0];
    RequestOp(cfg, s.sys.caches, c, cfg.SetIndex(entry.val), cfg.Tag(entry.val), entry.kind == 1)
  }

  /** A miss, up to the moment the bus is to be granted. */
  lemma MissRequest(cfg: Config, traces: seq<seq<TraceEntry>>, s: Sim, c: nat, t: nat, later: nat) returns (s1: Sim)
    requires Reachable(cfg, traces, s) && Alone(cfg, s, c, t, later) && s.traces[c] != [] && s.traces[c][0].kind != 2
    requires NextOp(cfg, s, c) in {BusRd, BusRdX}
    ensures Reachable(cfg, traces, s1) && WellFormed(cfg, s1) && Enabled(s1, Arbitrate(t)) && !s1.busy
    ensures var entry := s.traces[c][0];
            && s1.queue == [BusRequest(c, NextOp(cfg, s, c), entry.val, t)]
            && s1.sys.caches == RequestCaches(cfg, s.sys.caches, c, cfg.SetIndex(entry.val), cfg.Tag(entry.val),
                                              entry.kind == 1)
    ensures s1.events == s.events - multiset{Fetch(t, c)} + multiset{Arbitrate(t)}
    ensures s1.blocked == s.blocked[c := true] && s1.exhausted == s.exhausted
    ensures s1.traces == s.traces[c := s.traces[c][1..]]
  {
    s1 := FireFetch(cfg, s, Fetch(t, c));
    MissFired(cfg, s, c, t);
    ReachFetch(cfg, traces, s, Fetch(t, c));
  }

  /** What the fetch of a miss does, whether or not the bus is held. */
  lemma MissFired(cfg: Config, s: Sim, c: nat, t: nat)
    requires WellFormed(cfg, s) && c < cfg.cores && !s.blocked[c] && Fetch(t, c) in s.events
    requires s.traces[c] != [] && s.traces[c][0].kind != 2 && NextOp(cfg, s, c) != NoOp
    ensures var entry, s1 := s.traces[c][0], FireFetch(cfg, s, Fetch(t, c));
            && s1.queue == s.queue + [BusRequest(c, NextOp(cfg, s, c), entry.val, t)] && s1.now == t
            && s1.sys.caches == RequestCaches(cfg, s.sys.caches, c, cfg.SetIndex(entry.val), cfg.Tag(entry.val),
                                              entry.kind == 1)
            && s1.events == s.events - multiset{Fetch(t, c)} + (if s.busy then multiset{} else multiset{Arbitrate(t)})
            && s1.busy == s.busy && s1.blocked == s.blocked[c := true] && s1.exhausted == s.exhausted
            && s1.traces == s.traces[c := s.traces[c][1..]]
  {
    var e, entry := Fetch(t, c), s.traces[c][0];
    FetchIs(cfg, s, e);
    PoppedWellFormed(cfg, s, e, s.traces[c := s.traces[c][1..]]);
    var s0 := Pop(s, e).(traces := s.traces[c := s.traces[c][1..]]);
    MemoryShape(cfg, s0, e, entry.val, entry.kind == 1);
    FetchCaches(cfg, s0, e, entry.val, entry.kind == 1);
  }

  lemma FetchCaches(cfg: Config, s: Sim, e: Event, addr: Uint32, isWrite: bool)
    requires WellFormed(cfg, s) && e.Fetch? && e.core < cfg.cores
    ensures FetchMemory(cfg, s, e, addr, isWrite).sys.caches
            == RequestCaches(cfg, s.sys.caches, e.core, cfg.SetIndex(addr), cfg.Tag(addr), isWrite)
  {
  }

  lemma FetchIs(cfg: Config, s: Sim, e: Event)
    requires WellFormed(cfg, s) && e.Fetch? && e in s.events && !s.blocked[e.core]
    requires s.traces[e.core] != [] && s.traces[e.core][0].kind != 2
    ensures var c, entry := e.core, s.traces[e.core][0];
            FireFetch(cfg, s, e)
            == FetchMemory(cfg, Pop(s, e).(traces := s.traces[c := s.traces[c][1..]]), e, entry.val, entry.kind == 1)
  {
  }

  lemma PoppedWellFormed(cfg: Config, s: Sim, e: Event, traces: seq<seq<TraceEntry>>)
    requires WellFormed(cfg, s) && |traces| == |s.traces|
    ensures WellFormed(cfg, Pop(s, e).(traces := traces))
  {
  }

  lemma ReachFetch(cfg: Config, traces: seq<seq<TraceEntry>>, s: Sim, e: Event)
    requires Reachable(cfg, traces, s) && WellFormed(cfg, s) && Enabled(s, e) && e.Fetch?
    ensures Reachable(cfg, traces, FireFetch(cfg, s, e)) && WellFormed(cfg, FireFetch(cfg, s, e))
  {
    StepWellFormed(cfg, s, e);
    ReachStep(cfg, traces, s, e, FireFetch(cfg, s, e));
  }

  /** A grant to the only request of the queue, up to the next fetch of its core. */
  lemma GrantEpisode(cfg: Config, traces: seq<seq<TraceEntry>>, s: Sim, t: nat, later: nat) returns (s': Sim, u: nat)
    requires Reachable(cfg, traces, s) && WellFormed(cfg, s) && Enabled(s, Arbitrate(t)) && !s.busy
    requires |s.queue| == 1 && s.queue[0].op in {BusRd, BusRdX} && !GrantFaults(cfg, s, 0)
    requires t + 201 + TransferCycles(cfg) <= later
    requires forall f :: f in s.events - multiset{Arbitrate(t)} ==> f.time > later
    ensures Reachable(cfg, traces, s') && WellFormed(cfg, s') && t <= u <= later && u <= t + 201 + TransferCycles(cfg)
    ensures var r := s.queue[0];
            && s'.sys.caches == BusCaches(cfg, s.sys.caches, r.core, r.op, cfg.SetIndex(r.addr), cfg.Tag(r.addr))
            && s'.events == s.events - multiset{Arbitrate(t)} + multiset{Fetch(u, r.core)}
            && s'.blocked == s.blocked[r.core := false]
    ensures !s'.busy && s'.queue == [] && s'.exhausted == s.exhausted && s'.traces == s.traces
  {
    var r, rest := s.queue[0], s.events - multiset{Arbitrate(t)};
    var s1, latency := GrantStep(cfg, traces, s, t);
    u := t + latency;
    assert rest + multiset{Release(u)} + multiset{Unblock(u, r.core)}
        == rest + multiset{Release(u), Unblock(u, r.core)};
    var s2 := ReleaseStep(cfg, traces, s1, rest, u, r.core);
    s' := UnblockStep(cfg, traces, s2, rest, u, r.core);
  }

  lemma GrantStep(cfg: Config, traces: seq<seq<TraceEntry>>, s: Sim, t: nat) returns (s': Sim, latency: nat)
    requires Reachable(cfg, traces, s) && WellFormed(cfg, s) && Enabled(s, Arbitrate(t)) && !s.busy
    requires |s.queue| == 1 && s.queue[0].op in {BusRd, BusRdX} && !GrantFaults(cfg, s, 0)
    ensures Reachable(cfg, traces, s') && WellFormed(cfg, s') && latency <= 201 + TransferCycles(cfg)
    ensures s' == Granted(s, Arbitrate(t), 0, latency, s'.sys)
    ensures var r := s.queue[0];
            s'.sys.caches == BusCaches(cfg, s.sys.caches, r.core, r.op, cfg.SetIndex(r.addr), cfg.Tag(r.addr))
  {
    latency := GrantLatency(cfg, s, 0);
    s' := Grant(cfg, s, Arbitrate(t), 0);
    LatencyBound(cfg, s);
    GrantCaches(cfg, s, Arbitrate(t), 0);
    ReachGrant(cfg, traces, s, Arbitrate(t));
  }

  lemma ReachGrant(cfg: Config, traces: seq<seq<TraceEntry>>, s: Sim, e: Event)
    requires Reachable(cfg, traces, s) && WellFormed(cfg, s) && Enabled(s, e) && e.Arbitrate? && !s.busy
    requires |s.queue| == 1 && !GrantFaults(cfg, s, 0)
    ensures Reachable(cfg, traces, Grant(cfg, s, e, 0)) && WellFormed(cfg, Grant(cfg, s, e, 0))
  {
    GrantIsStep(cfg, s, e, 0);
    ReachStep(cfg, traces, s, e, Grant(cfg, s, e, 0));
  }

  lemma GrantCaches(cfg: Config, s: Sim, e: Event, w: nat)
    requires WellFormed(cfg, s) && w < |s.queue| && !GrantFaults(cfg, s, w)
    ensures var r := s.queue[w];
            Grant(cfg, s, e, w).sys.caches
            == BusCaches(cfg, s.sys.caches, r.core, r.op, cfg.SetIndex(r.addr), cfg.Tag(r.addr))
  {
  }

  lemma LatencyBound(cfg: Config, s: Sim)
    requires WellFormed(cfg, s) && |s.queue| == 1 && s.queue[0].op in {BusRd, BusRdX} && !GrantFaults(cfg, s, 0)
    ensures GrantLatency(cfg, s, 0) <= 201 + TransferCycles(cfg)
  {
  }

  lemma GrantIsStep(cfg: Config, s: Sim, e: Event, w: nat)
    requires WellFormed(cfg, s) && Enabled(s, e) && e.Arbitrate? && !s.busy && w < |s.queue|
    requires w == Winner(cfg.readPriority, s.queue) && !GrantFaults(cfg, s, w)
    ensures IsStep(cfg, s, e, Grant(cfg, s, e, w)) && WellFormed(cfg, Grant(cfg, s, e, w))
  {
    GrantWellFormed(cfg, s, e, w);
  }

  lemma ReleaseStep(cfg: Config, traces: seq<seq<TraceEntry>>, s: Sim, rest: multiset<Event>, u: nat, c: nat)
    returns (s': Sim)
    requires Reachable(cfg, traces, s) && WellFormed(cfg, s) && s.queue == []
    requires s.events == rest + multiset{Release(u), Unblock(u, c)} && forall f :: f in rest ==> f.time > u
    ensures Reachable(cfg, traces, s') && WellFormed(cfg, s')
    ensures s' == s.(now := u, busy := false, events := rest + multiset{Unblock(u, c)})
  {
    var e := Release(u);
    s' := FireRelease(s, e);
    StepWellFormed(cfg, s, e);
    ReachStep(cfg, traces, s, e, s');
    assert s'.events == rest + multiset{Unblock(u, c)};
  }

  lemma UnblockStep(cfg: Config, traces: seq<seq<TraceEntry>>, s: Sim, rest: multiset<Event>, u: nat, c: nat)
    returns (s': Sim)
    requires Reachable(cfg, traces, s) && WellFormed(cfg, s)
    requires s.events == rest + multiset{Unblock(u, c)} && forall f :: f in rest ==> f.time > u
    ensures Reachable(cfg, traces, s') && WellFormed(cfg, s') && c < |s.blocked|
    ensures s' == s.(now := u, blocked := s.blocked[c := false], events := rest + multiset{Fetch(u, c)})
  {
    s' := UnblockFirst(cfg, s, rest, u, c);
    ReachStep(cfg, traces, s, Unblock(u, c), s');
  }

  /** An unblock that is due before all else. */
  lemma UnblockFirst(cfg: Config, s: Sim, rest: multiset<Event>, u: nat, c: nat) returns (s': Sim)
    requires WellFormed(cfg, s)
    requires s.events == rest + multiset{Unblock(u, c)} && forall f :: f in rest ==> f.time > u
    ensures IsStep(cfg, s, Unblock(u, c), s') && WellFormed(cfg, s') && c < |s.blocked|
    ensures s' == s.(now := u, blocked := s.blocked[c := false], events := rest + multiset{Fetch(u, c)})
  {
    var e := Unblock(u, c);
    assert e in s.events;
    s' := FireUnblock(cfg, s, e);
    StepWellFormed(cfg, s, e);
    assert s.events - multiset{e} == rest;
  }

  /** The next memory access of core `c` misses, and its transaction would not fault. */
  ghost predicate NextMisses(cfg: Config, s: Sim, c: nat)
    requires WellFormed(cfg, s) && c < cfg.cores
  {
    && s.traces[c] != [] && s.traces[c][0].kind != 2
    && NextOp(cfg, s, c) in {BusRd, BusRdX}
    && !BusFaults(cfg, NextRequested(cfg, s, c), c, NextOp(cfg, s, c), NextSet(cfg, s, c), NextTag(cfg, s, c))
  }

  ghost function NextSet(cfg: Config, s: Sim, c: nat): (k: nat)
    requires WellFormed(cfg, s) && c < cfg.cores && s.traces[c] != []
    ensures k < cfg.NumSets()
  {
    cfg.SetIndex(s.traces[c][0].val)
  }

  ghost function NextTag(cfg: Config, s: Sim, c: nat): nat
    requires WellFormed(cfg, s) && c < cfg.cores && s.traces[c] != []
  {
    cfg.Tag(s.traces[c][0].val)
  }

  ghost function NextRequested(cfg: Config, s: Sim, c: nat): (d: Caches)
    requires WellFormed(cfg, s) && c < cfg.cores && s.traces[c] != []
    ensures Shaped(cfg, d)
  {
    RequestCaches(cfg, s.sys.caches, c, NextSet(cfg, s, c), NextTag(cfg, s, c), s.traces[c][0].kind == 1)
  }

  /** A whole miss, from one fetch of core `c` to the next. */
  lemma MissEpisode(cfg: Config, traces: seq<seq<TraceEntry>>, s: Sim, c: nat, t: nat, later: nat)
    returns (s': Sim, u: nat)
    requires Reachable(cfg, traces, s) && Alone(cfg, s, c, t, later) && NextMisses(cfg, s, c)
    requires t + 201 + TransferCycles(cfg) <= later
    ensures Reachable(cfg, traces, s') && WellFormed(cfg, s') && Moved(s, c, t, s', u)
    ensures t <= u <= t + 201 + TransferCycles(cfg)
    ensures s'.sys.caches
        == BusCaches(cfg, NextRequested(cfg, s, c), c, NextOp(cfg, s, c), NextSet(cfg, s, c), NextTag(cfg, s, c))
  {
    var s1 := MissRequest(cfg, traces, s, c, t, later);
    assert s1.events - multiset{Arbitrate(t)} == s.events - multiset{Fetch(t, c)};
    s', u := GrantEpisode(cfg, traces, s1, t, later);
    assert s'.blocked == s.blocked;
  }

  // ----- the machine of the witness: two cores, one two-way set each, MESI -----

  ghost function TwoCores(): Config {
    Config(Mesi, 2, 2, 0, 0, false)
  }

  lemma TwoCoresIs(a: Uint32)
    ensures var cfg := TwoCores();
            cfg.Valid() && cfg.NumSets() == 1 && TransferCycles(cfg) == 1 && cfg.SetIndex(a) == 0 && cfg.Tag(a) == a
  {
    assert Pow2(0) == 1;
  }

  /** A transaction on line `t` between two caches of one set: the other cache snoops, the requester fills. */
  lemma BusPair(d: Caches, req: nat, op: BusOp, t: nat)
    requires |d| == 2 && |d[0]| == 1 && |d[1]| == 1 && req < 2 && op in {BusRd, BusRdX}
    requires Full(2, d[req][0]) ==> |d[req][0].lru| > 0
    ensures var cfg, other := TwoCores(), 1 - req;
            var shared := d[other][0].StateOf(t) != Invalid;
            var mine := Allocate(Mesi, 2, d[req][0], t, Fill(Mesi, op, shared));
            var its := SnoopSet(Mesi, op, d[other][0], t);
            && Shaped(cfg, d) && !BusFaults(cfg, d, req, op, 0, t)
            && BusCaches(cfg, d, req, op, 0, t) == if req == 0 then [[mine], [its]] else [[its], [mine]]
  {
    assert Pow2(0) == 1;
    var cfg, other := TwoCores(), 1 - req;
    var r := BusCaches(cfg, d, req, op, 0, t);
    assert StateAt(d, other, 0, t) == d[other][0].StateOf(t);
    assert SharedSignal(d, req, 0, t) <==> d[other][0].StateOf(t) != Invalid;
    assert r[other] == d[other][0 := SnoopSet(Mesi, op, d[other][0], t)];
    assert r[req] == d[req][0 := RequesterSet(cfg, op, d[req][0], t, SharedSignal(d, req, 0, t))];
    assert r[req] == [RequesterSet(cfg, op, d[req][0], t, SharedSignal(d, req, 0, t))];
    assert r[other] == [SnoopSet(Mesi, op, d[other][0], t)];
    assert r == [r[0], r[1]];
  }

  /** What a read miss of core 0 does to its set `x` and to the set `y` of core 1. */
  lemma ReadByZero(x: CacheSet, y: CacheSet, t: nat)
    requires x.StateOf(t) == Invalid && (Full(2, x) ==> |x.lru| > 0)
    ensures var cfg, c: Caches := TwoCores(), [[x], [y]];
            var d := RequestCaches(cfg, c, 0, 0, t, false);
            && Shaped(cfg, c) && RequestOp(cfg, c, 0, 0, t, false) == BusRd
            && Shaped(cfg, d) && !BusFaults(cfg, d, 0, BusRd, 0, t)
            && (Full(2, Find(x, t)) ==> |Find(x, t).lru| > 0)
            && BusCaches(cfg, d, 0, BusRd, 0, t)
               == [[Allocate(Mesi, 2, Find(x, t), t, Fill(Mesi, BusRd, y.StateOf(t) != Invalid))],
                   [SnoopSet(Mesi, BusRd, y, t)]]
  {
    assert Pow2(0) == 1;
    var cfg, c: Caches := TwoCores(), [[x], [y]];
    var d := RequestCaches(cfg, c, 0, 0, t, false);
    assert c[0][0 := Find(x, t)] == [Find(x, t)] && c[0 := [Find(x, t)]] == [[Find(x, t)], [y]];
    assert d == [[Find(x, t)], [y]];
    BusPair(d, 0, BusRd, t);
  }

  /** The same for a write miss of core 1. */
  lemma WriteByOne(x: CacheSet, y: CacheSet, t: nat)
    requires y.StateOf(t) == Invalid && (Full(2, y) ==> |y.lru| > 0)
    ensures var cfg, c: Caches := TwoCores(), [[x], [y]];
            var d := RequestCaches(cfg, c, 1, 0, t, true);
            && Shaped(cfg, c) && RequestOp(cfg, c, 1, 0, t, true) == BusRdX
            && Shaped(cfg, d) && !BusFaults(cfg, d, 1, BusRdX, 0, t)
            && (Full(2, Find(y, t)) ==> |Find(y, t).lru| > 0)
            && BusCaches(cfg, d, 1, BusRdX, 0, t)
               == [[SnoopSet(Mesi, BusRdX, x, t)], [Allocate(Mesi, 2, Find(y, t), t, Modified)]]
  {
    assert Pow2(0) == 1;
    var cfg, c: Caches := TwoCores(), [[x], [y]];
    var d := RequestCaches(cfg, c, 1, 0, t, true);
    assert c[1][0 := Find(y, t)] == [Find(y, t)] && c[1 := [Find(y, t)]] == [[x], [Find(y, t)]];
    assert d == [[x], [Find(y, t)]];
    BusPair(d, 1, BusRdX, t);
  }

  // ----- the run -----

  function Load(a: Uint32): TraceEntry { TraceEntry(0, a) }

  function Store(a: Uint32): TraceEntry { TraceEntry(1, a) }

  function Compute(n: Uint32): TraceEntry { TraceEntry(2, n) }

  /** Core 0 reads block 1, waits, reads it again and then reads three more; core 1 writes block 1 in between. */
  function Loads(): seq<TraceEntry> {
    [Load(1), Compute(2000), Load(1), Load(2), Load(3), Load(4)]
  }

  function Stores(): seq<TraceEntry> {
    [Compute(1000), Store(1)]
  }

  /** An idle reachable state with sets `x` and `y`, pending events `ev` and remaining traces `p` and `q`. */
  ghost predicate Stage(s: Sim, x: CacheSet, y: CacheSet, ev: multiset<Event>, p: seq<TraceEntry>, q: seq<TraceEntry>) {
    && Reachable(TwoCores(), [Loads(), Stores()], s) && WellFormed(TwoCores(), s)
    && s.sys.caches == [[x], [y]] && s.events == ev && s.traces == [p, q]
    && !s.busy && s.queue == [] && s.blocked == [false, false]
  }

  lemma ReadStage(s: Sim, x: CacheSet, y: CacheSet, rest: multiset<Event>, t: nat, later: nat,
                  a: Uint32, p: seq<TraceEntry>, q: seq<TraceEntry>) returns (s': Sim, u: nat)
    requires Stage(s, x, y, rest + multiset{Fetch(t, 0)}, [Load(a)] + p, q)
    requires t + 202 <= later && forall f :: f in rest ==> f.time > later
    requires x.StateOf(a) == Invalid && (Full(2, x) ==> |x.lru| > 0)
    ensures Full(2, Find(x, a)) ==> |Find(x, a).lru| > 0
    ensures Stage(s', Allocate(Mesi, 2, Find(x, a), a, Fill(Mesi, BusRd, y.StateOf(a) != Invalid)),
                  SnoopSet(Mesi, BusRd, y, a), rest + multiset{Fetch(u, 0)}, p, q)
    ensures t <= u <= t + 202
  {
    ReadReady(s, x, y, rest, t, later, a, p, q);
    s', u := MissEpisode(TwoCores(), [Loads(), Stores()], s, 0, t, later);
    assert s'.traces == [p, q];
  }

  lemma ReadReady(s: Sim, x: CacheSet, y: CacheSet, rest: multiset<Event>, t: nat, later: nat,
                  a: Uint32, p: seq<TraceEntry>, q: seq<TraceEntry>)
    requires Stage(s, x, y, rest + multiset{Fetch(t, 0)}, [Load(a)] + p, q)
    requires t + 202 <= later && forall f :: f in rest ==> f.time > later
    requires x.StateOf(a) == Invalid && (Full(2, x) ==> |x.lru| > 0)
    ensures TransferCycles(TwoCores()) == 1 && s.events - multiset{Fetch(t, 0)} == rest
    ensures Alone(TwoCores(), s, 0, t, later) && NextMisses(TwoCores(), s, 0)
    ensures Full(2, Find(x, a)) ==> |Find(x, a).lru| > 0
    ensures NextCaches(s, 0) == [[Allocate(Mesi, 2, Find(x, a), a, Fill(Mesi, BusRd, y.StateOf(a) != Invalid))],
                                 [SnoopSet(Mesi, BusRd, y, a)]]
  {
    TwoCoresIs(a);
    ReadByZero(x, y, a);
    assert s.events - multiset{Fetch(t, 0)} == rest;
  }

  /** The caches after the next miss of core `c`. */
  ghost function NextCaches(s: Sim, c: nat): Caches
    requires WellFormed(TwoCores(), s) && c < 2 && NextMisses(TwoCores(), s, c)
  {
    var cfg := TwoCores();
    BusCaches(cfg, NextRequested(cfg, s, c), c, NextOp(cfg, s, c), NextSet(cfg, s, c), NextTag(cfg, s, c))
  }

  lemma WriteStage(s: Sim, x: CacheSet, y: CacheSet, rest: multiset<Event>, t: nat, later: nat,
                   a: Uint32, p: seq<TraceEntry>, q: seq<TraceEntry>) returns (s': Sim, u: nat)
    requires Stage(s, x, y, rest + multiset{Fetch(t, 1)}, p, [Store(a)] + q)
    requires t + 202 <= later && forall f :: f in rest ==> f.time > later
    requires y.StateOf(a) == Invalid && (Full(2, y) ==> |y.lru| > 0)
    ensures Full(2, Find(y, a)) ==> |Find(y, a).lru| > 0
    ensures Stage(s', SnoopSet(Mesi, BusRdX, x, a), Allocate(Mesi, 2, Find(y, a), a, Modified),
                  rest + multiset{Fetch(u, 1)}, p, q)
    ensures t <= u <= t + 202
  {
    WriteReady(s, x, y, rest, t, later, a, p, q);
    s', u := MissEpisode(TwoCores(), [Loads(), Stores()], s, 1, t, later);
    assert s'.traces == [p, q];
  }

  lemma WriteReady(s: Sim, x: CacheSet, y: CacheSet, rest: multiset<Event>, t: nat, later: nat,
                   a: Uint32, p: seq<TraceEntry>, q: seq<TraceEntry>)
    requires Stage(s, x, y, rest + multiset{Fetch(t, 1)}, p, [Store(a)] + q)
    requires t + 202 <= later && forall f :: f in rest ==> f.time > later
    requires y.StateOf(a) == Invalid && (Full(2, y) ==> |y.lru| > 0)
    ensures TransferCycles(TwoCores()) == 1 && s.events - multiset{Fetch(t, 1)} == rest
    ensures Alone(TwoCores(), s, 1, t, later) && NextMisses(TwoCores(), s, 1)
    ensures Full(2, Find(y, a)) ==> |Find(y, a).lru| > 0
    ensures NextCaches(s, 1) == [[SnoopSet(Mesi, BusRdX, x, a)], [Allocate(Mesi, 2, Find(y, a), a, Modified)]]
  {
    TwoCoresIs(a);
    WriteByOne(x, y, a);
    assert s.events - multiset{Fetch(t, 1)} == rest;
  }

  // ----- the sets, stage by stage -----

  lemma FirstFill(st: LineState)
    ensures Allocate(Mesi, 2, Find(EMPTY, 1), 1, st) == CacheSet([1], map[1 := st])
    ensures SnoopSet(Mesi, BusRd, EMPTY, 1) == EMPTY && !Full(2, EMPTY)
  {
    assert EMPTY.lines - {} == EMPTY.lines;
  }

  lemma Invalidated(st: LineState)
    requires st != Invalid
    ensures SnoopSet(Mesi, BusRdX, CacheSet([1], map[1 := st]), 1) == CacheSet([1], map[1 := Invalid])
  {
    assert Remove([1], 1) == [];
    assert map[1 := st][1 := Invalid] == map[1 := Invalid];
  }

  /** Filling over the line that is still resident in state Invalid duplicates its tag. */
  lemma SecondFill()
    ensures var x := CacheSet([1], map[1 := Invalid]);
            !Full(2, x) && Allocate(Mesi, 2, Find(x, 1), 1, Shared) == CacheSet([1, 1], map[1 := Shared])
  {
    var x := CacheSet([1], map[1 := Invalid]);
    assert Remove([1], 1) == [];
    KeyCount(x, {1});
    assert x.lines - {} == x.lines && map[1 := Invalid][1 := Shared] == map[1 := Shared];
  }

  /** Core 1 holds block 1 Modified, core 0 has lost it, and nothing but core 0's next fetch is pending. */
  lemma Prelude() returns (s: Sim, t: nat)
    ensures Stage(s, CacheSet([1], map[1 := Invalid]), CacheSet([1], map[1 := Modified]),
                  multiset{Fetch(t, 0)}, [Load(1), Load(2), Load(3), Load(4)], [])
  {
    var s1, t1 := FirstRead();
    var x1 := CacheSet([1], map[1 := Exclusive]);
    FirstFill(Modified);
    Invalidated(Exclusive);
    var rest := multiset{Fetch(t1, 0)};
    assert s1.events == rest + multiset{Fetch(1000, 1)};
    assert [Store(1)] + [] == [Store(1)];
    var s2, u := WriteStage(s1, x1, EMPTY, rest, 1000, 1999, 1, [Load(1), Load(2), Load(3), Load(4)], []);
    assert s2.events - multiset{Fetch(u, 1)} == rest;
    s := ExhaustEpisode(TwoCores(), [Loads(), Stores()], s2, 1, u, 1999);
    t := t1;
  }

  /** Core 0 has read block 1 and waits; core 1 is about to write it. */
  lemma FirstRead() returns (s: Sim, t: nat)
    ensures t >= 2000
    ensures Stage(s, CacheSet([1], map[1 := Exclusive]), EMPTY, multiset{Fetch(t, 0), Fetch(1000, 1)},
                  [Load(1), Load(2), Load(3), Load(4)], [Store(1)])
  {
    var s1 := Beginning();
    FirstFill(Exclusive);
    var rest := multiset{Fetch(1000, 1)};
    var later := [Load(1), Load(2), Load(3), Load(4)];
    assert Loads() == [Load(1)] + ([Compute(2000)] + later);
    var s2, u := ReadStage(s1, EMPTY, EMPTY, rest, 0, 999, 1, [Compute(2000)] + later, [Store(1)]);
    s := Wait(s2, CacheSet([1], map[1 := Exclusive]), EMPTY, rest, u, 2000, later, [Store(1)]);
    t := u + 2000;
    assert rest + multiset{Fetch(t, 0)} == multiset{Fetch(t, 0), Fetch(1000, 1)};
  }

  /** Core 0 computes for `n` cycles. */
  lemma Wait(s: Sim, x: CacheSet, y: CacheSet, rest: multiset<Event>, t: nat, n: Uint32,
             p: seq<TraceEntry>, q: seq<TraceEntry>) returns (s': Sim)
    requires Stage(s, x, y, rest + multiset{Fetch(t, 0)}, [Compute(n)] + p, q)
    requires forall f :: f in rest ==> f.time > t
    ensures Stage(s', x, y, rest + multiset{Fetch(t + n, 0)}, p, q)
  {
    s' := ComputeEpisode(TwoCores(), [Loads(), Stores()], s, 0, t);
    assert s.events - multiset{Fetch(t, 0)} == rest;
    assert s'.traces == [p, q];
  }

  lemma Beginning() returns (s: Sim)
    ensures Stage(s, EMPTY, EMPTY, multiset{Fetch(1000, 1)} + multiset{Fetch(0, 0)}, Loads(), [Store(1)])
  {
    var s0 := AtStart();
    s := ComputeEpisode(TwoCores(), [Loads(), Stores()], s0, 1, 0);
    assert s0.events - multiset{Fetch(0, 1)} == multiset{Fetch(0, 0)};
    assert s.traces == [Loads(), [Store(1)]];
  }

  lemma AtStart() returns (s: Sim)
    ensures Stage(s, EMPTY, EMPTY, multiset{Fetch(0, 0), Fetch(0, 1)}, Loads(), Stores())
    ensures Enabled(s, Fetch(0, 1))
  {
    var cfg, traces := TwoCores(), [Loads(), Stores()];
    s := Start(cfg, traces);
    TwoCoresIs(0);
    ReachStart(cfg, traces);
    StartWellFormed(cfg, traces);
    StartPair();
    StartFlags();
  }

  lemma StartFlags()
    ensures var s := Start(TwoCores(), [Loads(), Stores()]);
            s.sys.caches == [[EMPTY], [EMPTY]] && s.blocked == [false, false]
  {
    var s := Start(TwoCores(), [Loads(), Stores()]);
    TwoCoresIs(0);
    assert s.sys.caches[0] == [EMPTY] && s.sys.caches[1] == [EMPTY];
  }

  lemma StartPair()
    ensures StartEvents(2) == multiset{Fetch(0, 0), Fetch(0, 1)}
  {
    assert StartEvents(0) == multiset{};
    assert StartEvents(1) == StartEvents(0) + multiset{Fetch(0, 0)};
    assert StartEvents(2) == StartEvents(1) + multiset{Fetch(0, 1)};
  }

  /** Core 0 reads block 1 again, over the line it still holds Invalid: its tag is now listed twice. */
  lemma Duplicate() returns (s: Sim, t: nat)
    ensures Stage(s, CacheSet([1, 1], map[1 := Shared]), CacheSet([1], map[1 := Shared]),
                  multiset{Fetch(t, 0)}, [Load(2), Load(3), Load(4)], [])
  {
    var s0, t0 := Prelude();
    var x, y := CacheSet([1], map[1 := Invalid]), CacheSet([1], map[1 := Modified]);
    SecondFill();
    assert SnoopSet(Mesi, BusRd, y, 1) == CacheSet([1], map[1 := Shared]) by {
      assert Remove([1], 1) == [];
      assert map[1 := Modified][1 := Shared] == map[1 := Shared];
    }
    assert multiset{} + multiset{Fetch(t0, 0)} == multiset{Fetch(t0, 0)};
    assert [Load(1)] + [Load(2), Load(3), Load(4)] == [Load(1), Load(2), Load(3), Load(4)];
    s, t := ReadStage(s0, x, y, multiset{}, t0, t0 + 202, 1, [Load(2), Load(3), Load(4)], []);
    assert multiset{} + multiset{Fetch(t, 0)} == multiset{Fetch(t, 0)};
  }

  /** A read by core 0 of a block that neither core holds, when nothing else is pending. */
  lemma FreshRead(s: Sim, x: CacheSet, y: CacheSet, t: nat, a: Uint32, p: seq<TraceEntry>) returns (s': Sim, u: nat)
    requires Stage(s, x, y, multiset{Fetch(t, 0)}, [Load(a)] + p, [])
    requires a !in x.lines && a !in y.lines && (Full(2, x) ==> |x.lru| > 0)
    ensures Stage(s', Allocate(Mesi, 2, Find(x, a), a, Exclusive), y, multiset{Fetch(u, 0)}, p, [])
  {
    assert multiset{} + multiset{Fetch(t, 0)} == multiset{Fetch(t, 0)};
    s', u := ReadStage(s, x, y, multiset{}, t, t + 202, a, p, []);
    assert multiset{} + multiset{Fetch(u, 0)} == multiset{Fetch(u, 0)};
  }

  lemma SecondBlock() returns (s: Sim, t: nat)
    ensures Stage(s, CacheSet([2, 1, 1], map[1 := Shared, 2 := Exclusive]), CacheSet([1], map[1 := Shared]),
                  multiset{Fetch(t, 0)}, [Load(3), Load(4)], [])
  {
    var s0, t0 := Duplicate();
    var x, y := CacheSet([1, 1], map[1 := Shared]), CacheSet([1], map[1 := Shared]);
    Grows(x, {1}, 2, Exclusive);
    assert [2] + x.lru == [2, 1, 1] && x.lines[2 := Exclusive] == map[1 := Shared, 2 := Exclusive];
    assert [Load(2)] + [Load(3), Load(4)] == [Load(2), Load(3), Load(4)];
    s, t := FreshRead(s0, x, y, t0, 2, [Load(3), Load(4)]);
  }

  lemma ThirdBlock() returns (s: Sim, t: nat)
    ensures Stage(s, CacheSet([3, 2, 1], map[2 := Exclusive, 3 := Exclusive]), CacheSet([1], map[1 := Shared]),
                  multiset{Fetch(t, 0)}, [Load(4)], [])
  {
    var s0, t0 := SecondBlock();
    var x, y := CacheSet([2, 1, 1], map[1 := Shared, 2 := Exclusive]), CacheSet([1], map[1 := Shared]);
    EvictsBack(x, {1, 2}, 3, Exclusive);
    assert (x.lines - {1})[3 := Exclusive] == map[2 := Exclusive, 3 := Exclusive];
    assert [Load(3)] + [Load(4)] == [Load(3), Load(4)];
    s, t := FreshRead(s0, x, y, t0, 3, [Load(4)]);
  }

  /** Three more reads fill the set beyond its two ways: the stale copy of tag 1 is evicted in place of a line. */
  lemma Overfull() returns (s: Sim)
    ensures Reachable(TwoCores(), [Loads(), Stores()], s) && WellFormed(TwoCores(), s)
    ensures |s.sys.caches[0][0].lines| == 3
  {
    var s0, t0 := ThirdBlock();
    var x, y := CacheSet([3, 2, 1], map[2 := Exclusive, 3 := Exclusive]), CacheSet([1], map[1 := Shared]);
    EvictsBack(x, {2, 3}, 4, Exclusive);
    assert [Load(4)] + [] == [Load(4)];
    var t;
    s, t := FreshRead(s0, x, y, t0, 4, []);
    StaleEvicted();
  }

  lemma StaleEvicted()
    ensures var x := CacheSet([3, 2, 1], map[2 := Exclusive, 3 := Exclusive]);
            (Full(2, Find(x, 4)) ==> |Find(x, 4).lru| > 0) && |Allocate(Mesi, 2, Find(x, 4), 4, Exclusive).lines| == 3
  {
    var x := CacheSet([3, 2, 1], map[2 := Exclusive, 3 := Exclusive]);
    EvictsBack(x, {2, 3}, 4, Exclusive);
    var d := Allocate(Mesi, 2, Find(x, 4), 4, Exclusive);
    assert d.lines.Keys == {2, 3, 4};
    KeyCount(d, {2, 3, 4});
  }

  /** A MESI run in which a two-way set ends up with three lines. */
  lemma CapacityExceeded() returns (states: seq<Sim>, fired: seq<Event>)
    ensures IsRun(TwoCores(), [Loads(), Stores()], states, fired) && WellFormed(TwoCores(), states[|fired|])
    ensures |states[|fired|].sys.caches[0][0].lines| > TwoCores().assoc
  {
    var s := Overfull();
    states, fired := PathTo(TwoCores(), [Loads(), Stores()], s);
  }

  /** Core 0 is about to be granted its second read of block 1, which core 1 holds Modified. */
  lemma BeforeClean() returns (s: Sim, e: Event, s': Sim)
    ensures Reachable(TwoCores(), [Loads(), Stores()], s) && Cleans(TwoCores(), s, e) && IsStep(TwoCores(), s, e, s')
  {
    var cfg := TwoCores();
    var s0, t := Prelude();
    var x, y := CacheSet([1], map[1 := Invalid]), CacheSet([1], map[1 := Modified]);
    TwoCoresIs(1);
    SecondFill();
    ReadByZero(x, y, 1);
    s := MissRequest(cfg, [Loads(), Stores()], s0, 0, t, t);
    e := Arbitrate(t);
    DirtyAtGrant(s, y, t);
    GrantIsStep(cfg, s, e, 0);
    s' := Grant(cfg, s, e, 0);
  }

  lemma DirtyAtGrant(s: Sim, y: CacheSet, t: nat)
    requires WellFormed(TwoCores(), s) && !s.busy && s.queue == [BusRequest(0, BusRd, 1, t)]
    requires s.sys.caches[1] == [y] && y.StateOf(1) == Modified
    ensures Cleans(TwoCores(), s, Arbitrate(t))
  {
    TwoCoresIs(1);
    assert Winner(false, s.queue) == 0;
    assert At(s.sys.caches, 1, 0) && Dirty(Mesi, StateAt(s.sys.caches, 1, 0, 1));
  }

  lemma CleaningRun() returns (states: seq<Sim>, fired: seq<Event>)
    ensures IsRun(TwoCores(), [Loads(), Stores()], states, fired)
    ensures Cleaned(TwoCores(), states, fired, |fired|) > 0
  {
    var s, e, s' := BeforeClean();
    var before, path := PathTo(TwoCores(), [Loads(), Stores()], s);
    Extend(TwoCores(), [Loads(), Stores()], before, path, e, s');
    states, fired := before + [s'], path + [e];
    assert Cleans(TwoCores(), states[|fired| - 1], fired[|fired| - 1]);
  }

  /** A MESI run in which a read cleans a dirty owner, so that the blocks that became dirty are more than those
      written back and those still dirty. */
  lemma OwnerCleaned() returns (states: seq<Sim>, fired: seq<Event>)
    ensures IsRun(TwoCores(), [Loads(), Stores()], states, fired)
    ensures forall d :: IsDirtyHistory(TwoCores(), states, d)
              ==> Entered(d, |fired|) > states[|fired|].sys.global.busWritebacks + |d[|fired|]|
  {
    states, fired := CleaningRun();
    forall d | IsDirtyHistory(TwoCores(), states, d)
      ensures Entered(d, |fired|) > states[|fired|].sys.global.busWritebacks + |d[|fired|]|
    {
      OwnershipConserved(TwoCores(), [Loads(), Stores()], states, fired, d, |fired|);
    }
  }
}
