/**
 Conservation laws of the statistics, across the simulator and the protocols.
 */
module Counters {
  import opened Defs
  import opened Protocols
  import opened Simulation
  import opened Safety

  ghost function MissesOf(cs: CoreStats): int { cs.misses }

  ghost function ReceivedBy(cs: CoreStats): int { cs.invReceived }

  ghost function SentBy(cs: CoreStats): int { cs.invSent }

  /** Accesses are hits or misses; hits are private or shared. */
  ghost predicate CoreBalanced(cs: CoreStats) {
    cs.hits + cs.misses == cs.loads + cs.stores && cs.privateAccesses + cs.sharedAccesses == cs.hits
  }

  /** Misses are served or queued; invalidations are received where they are counted, and sent
      by the requester (Dragon counts no sender); traffic is whole blocks plus Dragon's words. */
  ghost predicate Balanced(cfg: Config, s: Sim) {
    var g := s.sys.global;
    && (forall c :: 0 <= c < |s.sys.cores| ==> CoreBalanced(s.sys.cores[c]))
    && SumBy(s.sys.cores, MissesOf) == g.busReads + g.busReadx + g.busUpgrades + |s.queue|
    && SumBy(s.sys.cores, ReceivedBy) == g.invalidations
    && SumBy(s.sys.cores, SentBy) == (if cfg.protocol == Dragon then 0 else g.invalidations)
    && TrafficBalanced(cfg.BlockSize(), cfg.protocol == Dragon, g)
    && g.cacheToCache <= g.busReads + g.busReadx
  }

  ghost predicate TrafficBalanced(blockSize: nat, dragon: bool, g: GlobalStats) {
    g.traffic == blockSize * (g.busReads + g.busReadx + g.busWritebacks) + (if dragon then 4 * g.busUpgrades else 0)
  }

  lemma StartBalanced(cfg: Config, traces: seq<seq<TraceEntry>>)
    requires cfg.Valid() && |traces| == cfg.cores
    ensures Balanced(cfg, Start(cfg, traces))
  {
    FreshBalanced(cfg, Start(cfg, traces));
  }

  lemma FreshBalanced(cfg: Config, s: Sim)
    requires s.queue == [] && s.sys.global == ZERO_GLOBAL
    requires forall i :: 0 <= i < |s.sys.cores| ==> s.sys.cores[i] == ZERO_CORE
    ensures Balanced(cfg, s)
  {
    NoSums(s.sys.cores);
    ZeroBalanced(cfg, s);
  }

  lemma ZeroBalanced(cfg: Config, s: Sim)
    requires s.queue == [] && s.sys.global == ZERO_GLOBAL
    requires SumBy(s.sys.cores, MissesOf) == 0 && SumBy(s.sys.cores, ReceivedBy) == 0
    requires SumBy(s.sys.cores, SentBy) == 0
    requires forall c :: 0 <= c < |s.sys.cores| ==> CoreBalanced(s.sys.cores[c])
    ensures Balanced(cfg, s)
  {
    NoTraffic(cfg.BlockSize(), cfg.protocol == Dragon);
  }

  lemma NoSums(cores: seq<CoreStats>)
    requires forall i :: 0 <= i < |cores| ==> cores[i] == ZERO_CORE
    ensures SumBy(cores, MissesOf) == 0 && SumBy(cores, ReceivedBy) == 0 && SumBy(cores, SentBy) == 0
  {
    SumZero(cores, MissesOf);
    SumZero(cores, ReceivedBy);
    SumZero(cores, SentBy);
  }

  lemma NoTraffic(blockSize: nat, dragon: bool)
    ensures TrafficBalanced(blockSize, dragon, ZERO_GLOBAL)
  {
  }

  /** One more core visited by the snoop loop. */
  lemma SnoopOneMore(cfg: Config, s: System, req: nat, op: BusOp, k: nat, t: nat, m: nat, n: nat)
    requires Shaped(cfg, s.caches) && |s.cores| == cfg.cores && req < cfg.cores && k < cfg.NumSets()
    requires n == m + 1 <= cfg.cores
    ensures var a, b := SnoopedCores(cfg, s, req, op, k, t, m), SnoopedCores(cfg, s, req, op, k, t, n);
            var counted := if CountsSnoop(cfg.protocol, op)
                           then Holders(s.caches, req, k, t, n) - Holders(s.caches, req, k, t, m) else 0;
            && SumBy(b, MissesOf) == SumBy(a, MissesOf)
            && SumBy(b, ReceivedBy) == SumBy(a, ReceivedBy) + counted
            && SumBy(b, SentBy) == SumBy(a, SentBy) + (if cfg.protocol == Dragon then 0 else counted)
  {
    var a, b := SnoopedCores(cfg, s, req, op, k, t, m), SnoopedCores(cfg, s, req, op, k, t, m + 1);
    var x := a[m].(invReceived := b[m].invReceived);
    var y := a[m := x][req].(invSent := b[req].invSent);
    SnoopedPair(cfg, s, req, op, k, t, m);
    SumsUpdate(a, m, x);
    SumsUpdate(a[m := x], req, y);
  }

  /** One more turn of the loop changes the statistics of the core visited and of the requester. */
  lemma SnoopedPair(cfg: Config, s: System, req: nat, op: BusOp, k: nat, t: nat, m: nat)
    requires Shaped(cfg, s.caches) && |s.cores| == cfg.cores && req < cfg.cores && k < cfg.NumSets() && m < cfg.cores
    ensures var a, b := SnoopedCores(cfg, s, req, op, k, t, m), SnoopedCores(cfg, s, req, op, k, t, m + 1);
            var x := a[m].(invReceived := b[m].invReceived);
            b == a[m := x][req := a[m := x][req].(invSent := b[req].invSent)]
  {
    var a, b := SnoopedCores(cfg, s, req, op, k, t, m), SnoopedCores(cfg, s, req, op, k, t, m + 1);
    var a1 := a[m := a[m].(invReceived := b[m].invReceived)];
    assert a1[req].invReceived == b[req].invReceived;
  }

  lemma SumsUpdate(a: seq<CoreStats>, i: nat, x: CoreStats)
    requires i < |a|
    ensures SumBy(a[i := x], MissesOf) == SumBy(a, MissesOf) - a[i].misses + x.misses
    ensures SumBy(a[i := x], ReceivedBy) == SumBy(a, ReceivedBy) - a[i].invReceived + x.invReceived
    ensures SumBy(a[i := x], SentBy) == SumBy(a, SentBy) - a[i].invSent + x.invSent
  {
    SumUpdate(a, MissesOf, i, x);
    SumUpdate(a, ReceivedBy, i, x);
    SumUpdate(a, SentBy, i, x);
  }

  lemma SnoopedNone(cfg: Config, s: System, req: nat, op: BusOp, k: nat, t: nat)
    requires Shaped(cfg, s.caches) && |s.cores| == cfg.cores && k < cfg.NumSets()
    ensures SnoopedCores(cfg, s, req, op, k, t, 0) == s.cores
  {
  }

  lemma {:induction false} SnoopedSums(cfg: Config, s: System, req: nat, op: BusOp, k: nat, t: nat, m: nat)
    requires Shaped(cfg, s.caches) && |s.cores| == cfg.cores && req < cfg.cores && k < cfg.NumSets() && m <= cfg.cores
    ensures SnoopCounted(cfg, s, req, op, k, t, m)
  {
    if m == 0 {
      SnoopedSumsNone(cfg, s, req, op, k, t);
    } else {
      SnoopedSums(cfg, s, req, op, k, t, m - 1);
      SnoopedSumsNext(cfg, s, req, op, k, t, m - 1, m);
    }
  }

  lemma SnoopedSumsNone(cfg: Config, s: System, req: nat, op: BusOp, k: nat, t: nat)
    requires Shaped(cfg, s.caches) && |s.cores| == cfg.cores && req < cfg.cores && k < cfg.NumSets()
    ensures SnoopCounted(cfg, s, req, op, k, t, 0)
  {
    SnoopedNone(cfg, s, req, op, k, t);
  }

  /** What the first `m` turns of the snoop loop add to the core statistics. */
  ghost predicate SnoopCounted(cfg: Config, s: System, req: nat, op: BusOp, k: nat, t: nat, m: nat)
    requires Shaped(cfg, s.caches) && |s.cores| == cfg.cores && k < cfg.NumSets() && m <= cfg.cores
  {
    var b := SnoopedCores(cfg, s, req, op, k, t, m);
    var counted := if CountsSnoop(cfg.protocol, op) then Holders(s.caches, req, k, t, m) else 0;
    && SumBy(b, MissesOf) == SumBy(s.cores, MissesOf)
    && SumBy(b, ReceivedBy) == SumBy(s.cores, ReceivedBy) + counted
    && SumBy(b, SentBy) == SumBy(s.cores, SentBy) + (if cfg.protocol == Dragon then 0 else counted)
  }

  lemma SnoopedSumsNext(cfg: Config, s: System, req: nat, op: BusOp, k: nat, t: nat, m: nat, n: nat)
    requires Shaped(cfg, s.caches) && |s.cores| == cfg.cores && req < cfg.cores && k < cfg.NumSets()
    requires n == m + 1 <= cfg.cores && SnoopCounted(cfg, s, req, op, k, t, m)
    ensures SnoopCounted(cfg, s, req, op, k, t, n)
  {
    SnoopOneMore(cfg, s, req, op, k, t, m, n);
  }

  lemma GlobalTraffic(cfg: Config, s: System, req: nat, op: BusOp, k: nat, t: nat)
    requires Shaped(cfg, s.caches) && req < cfg.cores && k < cfg.NumSets()
    requires !BusFaults(cfg, s.caches, req, op, k, t) && op in {BusRd, BusRdX, BusUpgr}
    requires TrafficBalanced(cfg.BlockSize(), cfg.protocol == Dragon, s.global)
    ensures TrafficBalanced(cfg.BlockSize(), cfg.protocol == Dragon, BusGlobal(cfg, s, req, op, k, t))
  {
    var g, g' := s.global, BusGlobal(cfg, s, req, op, k, t);
    var n, n' := g.busReads + g.busReadx + g.busWritebacks, g'.busReads + g'.busReadx + g'.busWritebacks;
    var b := cfg.BlockSize();
    assert b * (n + 1) == b * n + b && b * (n + 2) == b * n + 2 * b;
  }

  lemma GlobalCounts(cfg: Config, s: System, req: nat, op: BusOp, k: nat, t: nat)
    requires Shaped(cfg, s.caches) && req < cfg.cores && k < cfg.NumSets()
    requires !BusFaults(cfg, s.caches, req, op, k, t) && op in {BusRd, BusRdX, BusUpgr}
    ensures var g, g' := s.global, BusGlobal(cfg, s, req, op, k, t);
            && g'.busReads + g'.busReadx + g'.busUpgrades == g.busReads + g.busReadx + g.busUpgrades + 1
            && g'.invalidations - g.invalidations
               == (if CountsSnoop(cfg.protocol, op) then Holders(s.caches, req, k, t, cfg.cores) else 0)
            && (g.cacheToCache <= g.busReads + g.busReadx ==> g'.cacheToCache <= g'.busReads + g'.busReadx)
  {
  }

  lemma SnoopedBalanced(cfg: Config, s: System, req: nat, op: BusOp, k: nat, t: nat)
    requires Shaped(cfg, s.caches) && |s.cores| == cfg.cores && k < cfg.NumSets()
    requires forall c :: 0 <= c < |s.cores| ==> CoreBalanced(s.cores[c])
    ensures forall c :: 0 <= c < |s.cores| ==> CoreBalanced(SnoopedCores(cfg, s, req, op, k, t, cfg.cores)[c])
  {
  }

  lemma GrantBalanced(cfg: Config, s: Sim, e: Event, w: nat)
    requires WellFormed(cfg, s) && MemoryInv(cfg, s) && w < |s.queue| && !GrantFaults(cfg, s, w)
    requires Balanced(cfg, s)
    ensures Balanced(cfg, Grant(cfg, s, e, w))
  {
    var r := s.queue[w];
    var k, t := cfg.SetIndex(r.addr), cfg.Tag(r.addr);
    assert Matches(cfg, s.sys.caches, r);
    GrantedBalanced(cfg, s, Grant(cfg, s, e, w), r, k, t) by {
      GrantShape(cfg, s, e, w);
    }
  }

  lemma GrantedBalanced(cfg: Config, s: Sim, s': Sim, r: BusRequest, k: nat, t: nat)
    requires WellFormed(cfg, s) && Balanced(cfg, s) && r.core < cfg.cores && k < cfg.NumSets()
    requires !BusFaults(cfg, s.sys.caches, r.core, r.op, k, t) && r.op in {BusRd, BusRdX, BusUpgr}
    requires |s'.queue| == |s.queue| - 1
    requires s'.sys.cores == SnoopedCores(cfg, s.sys, r.core, r.op, k, t, cfg.cores)
    requires s'.sys.global == BusGlobal(cfg, s.sys, r.core, r.op, k, t)
    ensures Balanced(cfg, s')
  {
    SnoopedSums(cfg, s.sys, r.core, r.op, k, t, cfg.cores);
    SnoopedBalanced(cfg, s.sys, r.core, r.op, k, t);
    GlobalTraffic(cfg, s.sys, r.core, r.op, k, t);
    GlobalCounts(cfg, s.sys, r.core, r.op, k, t);
  }

  /** Replacing the statistics of one core. */
  lemma OneCore(cfg: Config, s: Sim, s': Sim, c: nat, missed: nat)
    requires Balanced(cfg, s) && c < |s.sys.cores| && |s'.sys.cores| == |s.sys.cores|
    requires s'.sys.cores == s.sys.cores[c := s'.sys.cores[c]]
    requires s'.sys.global == s.sys.global && |s'.queue| == |s.queue| + missed
    requires var x, y := s.sys.cores[c], s'.sys.cores[c];
             CoreBalanced(y) && y.misses == x.misses + missed && y.invReceived == x.invReceived
                 && y.invSent == x.invSent
    ensures Balanced(cfg, s')
  {
    var y := s'.sys.cores[c];
    SumUpdate(s.sys.cores, MissesOf, c, y);
    SumUpdate(s.sys.cores, ReceivedBy, c, y);
    SumUpdate(s.sys.cores, SentBy, c, y);
  }

  /** What a memory access does to the statistics. */
  lemma MemoryStats(cfg: Config, s: Sim, e: Event, addr: Uint32, isWrite: bool)
    requires WellFormed(cfg, s) && e.Fetch? && e.core < cfg.cores
    ensures var s', c := FetchMemory(cfg, s, e, addr, isWrite), e.core;
            && s'.sys.global == s.sys.global
            && |s'.sys.cores| == |s.sys.cores| && s'.sys.cores == s.sys.cores[c := s'.sys.cores[c]]
            && |s'.queue| - |s.queue| == s'.sys.cores[c].misses - s.sys.cores[c].misses
            && s'.sys.cores[c].hits - s.sys.cores[c].hits == 1 - (|s'.queue| - |s.queue|)
            && |s.queue| <= |s'.queue| <= |s.queue| + 1
            && s'.sys.cores[c].computeCycles == s.sys.cores[c].computeCycles
            && s'.sys.cores[c].invReceived == s.sys.cores[c].invReceived
            && s'.sys.cores[c].invSent == s.sys.cores[c].invSent
            && (CoreBalanced(s.sys.cores[c]) ==> CoreBalanced(s'.sys.cores[c]))
  {
  }

  lemma FetchBalanced(cfg: Config, s: Sim, e: Event)
    requires WellFormed(cfg, s) && e in s.events && e.Fetch? && Balanced(cfg, s)
    ensures Balanced(cfg, FireFetch(cfg, s, e))
  {
    var c, s' := e.core, FireFetch(cfg, s, e);
    if !s.blocked[c] && s.traces[c] != [] {
      var entry := s.traces[c][0];
      var s2 := Pop(s, e).(traces := s.traces[c := s.traces[c][1..]]);
      assert CoreBalanced(s.sys.cores[c]);
      if entry.kind == 2 {
        OneCore(cfg, s2, s', c, 0);
      } else {
        MemoryStats(cfg, s2, e, entry.val, entry.kind == 1);
        OneCore(cfg, s2, s', c, |s'.queue| - |s2.queue|);
      }
    }
  }

  /** Every step keeps the books balanced. */
  lemma StepBalanced(cfg: Config, s: Sim, e: Event)
    requires cfg.Valid() && WellFormed(cfg, s) && e in s.events && Step(cfg, s, e).Some?
    requires MemoryInv(cfg, s) && Balanced(cfg, s)
    ensures Balanced(cfg, Step(cfg, s, e).value)
  {
    match e
    case Release(_) =>
    case Unblock(_, _) =>
    case Arbitrate(_) =>
      if !s.busy && s.queue != [] {
        GrantBalanced(cfg, s, e, Winner(cfg.readPriority, s.queue));
      }
    case Fetch(_, _) => FetchBalanced(cfg, s, e);
  }
}
