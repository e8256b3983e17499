/**
 Simulated time accounts for bus traffic and for the work of every core: granted bus
 intervals never overlap, so the clock at the end is at least their total length.
 */
module Timing {
  import opened Defs
  import opened Protocols
  import opened Simulation
  import opened Tokens
  import opened Counters

  /** n * c, by repeated addition: keeps products out of the invariant. */
  ghost function Times(n: nat, c: nat): nat {
    if n == 0 then 0 else Times(n - 1, c) + c
  }

  lemma {:induction false} TimesIsProduct(n: nat, c: nat)
    ensures Times(n, c) == n * c
  {
    if n > 0 {
      TimesIsProduct(n - 1, c);
      assert (n - 1) * c + c == n * c;
    }
  }

  /** The bus cycles that the counted transactions take. */
  ghost function BusCycles(cfg: Config, g: GlobalStats): int {
    Times(g.cacheToCache, TransferCycles(cfg))
    + 101 * (g.busReads + g.busReadx - g.cacheToCache)
    + 100 * g.busWritebacks
    + (if cfg.protocol == Dragon then 2 * g.busUpgrades else 0)
  }

  ghost function Work(s: Sim, c: nat): nat
    requires c < |s.sys.cores|
  {
    s.sys.cores[c].computeCycles + s.sys.cores[c].hits
  }

  ghost predicate EventTimed(cfg: Config, s: Sim, e: Event)
    requires WellFormed(cfg, s) && e in s.events
  {
    match e
    case Release(t) => BusCycles(cfg, s.sys.global) <= t
    case Arbitrate(_) => true
    case Unblock(t, c) => Work(s, c) <= t
    case Fetch(t, c) => Work(s, c) <= t
  }

  /** The counted bus cycles fit before the pending release (before now, if the bus is free);
      the work of a core fits before its next event. */
  ghost predicate TimeInv(cfg: Config, s: Sim)
    requires WellFormed(cfg, s)
  {
    && (forall e :: e in s.events ==> EventTimed(cfg, s, e))
    && (forall i :: 0 <= i < |s.queue| ==> Work(s, s.queue[i].core) <= s.queue[i].arrival)
    && (forall c: nat :: c < cfg.cores && s.exhausted[c] ==> Work(s, c) <= s.now)
    && (!s.busy ==> BusCycles(cfg, s.sys.global) <= s.now)
  }

  /** The counters grow by exactly the latency of the transaction. */
  lemma LatencyIsCycles(cfg: Config, s: System, req: nat, op: BusOp, k: nat, t: nat)
    requires Shaped(cfg, s.caches) && req < cfg.cores && k < cfg.NumSets()
    requires !BusFaults(cfg, s.caches, req, op, k, t) && op in {BusRd, BusRdX, BusUpgr}
    ensures BusCycles(cfg, BusGlobal(cfg, s, req, op, k, t))
        == BusCycles(cfg, s.global) + Latency(cfg, s.caches, req, op, k, t)
  {
  }

  lemma GrantTime(cfg: Config, s: Sim, e: Event, w: nat)
    requires WellFormed(cfg, s) && TimeInv(cfg, s) && s.now <= e.time
    requires forall f :: f in s.events ==> !f.Release?
    requires !s.busy && w < |s.queue| && !GrantFaults(cfg, s, w) && s.queue[w].op in {BusRd, BusRdX, BusUpgr}
    requires s.queue[w].arrival <= e.time
    ensures WellFormed(cfg, Grant(cfg, s, e, w)) && TimeInv(cfg, Grant(cfg, s, e, w))
  {
    var s', end := GrantHoldsBus(cfg, s, e, w);
    GrantedTime(cfg, s, s', e, w, end);
  }

  lemma IdleHasNoRelease(cfg: Config, s: Sim, tok: seq<CoreToken>, bus: BusToken)
    requires TokenInv(cfg, s, tok, bus) && !s.busy
    ensures forall f :: f in s.events ==> !f.Release?
  {
    forall f | f in s.events
      ensures !f.Release?
    {
      assert EventOk(s, tok, bus, f);
    }
  }

  /** What the time accounts see of a grant that holds the bus until `end`. */
  ghost predicate HoldsBus(cfg: Config, s: Sim, e: Event, w: nat, s': Sim, end: nat)
    requires WellFormed(cfg, s) && w < |s.queue|
  {
    && WellFormed(cfg, s') && s'.now == e.time <= end && s'.busy && s'.exhausted == s.exhausted
    && s'.queue == s.queue[..w] + s.queue[w + 1..]
    && s'.events == s.events - multiset{e} + multiset{Release(end)} + multiset{Unblock(end, s.queue[w].core)}
    && (forall c: nat :: c < cfg.cores ==> Work(s', c) == Work(s, c))
    && BusCycles(cfg, s'.sys.global) == BusCycles(cfg, s.sys.global) + (end - e.time)
  }

  lemma GrantHoldsBus(cfg: Config, s: Sim, e: Event, w: nat) returns (s': Sim, end: nat)
    requires WellFormed(cfg, s) && w < |s.queue| && !GrantFaults(cfg, s, w) && s.queue[w].op in {BusRd, BusRdX, BusUpgr}
    ensures s' == Grant(cfg, s, e, w) && HoldsBus(cfg, s, e, w, s', end)
  {
    s', end := Grant(cfg, s, e, w), e.time + GrantLatency(cfg, s, w);
    GrantWellFormed(cfg, s, e, w);
    GrantShape(cfg, s, e, w);
    GrantCycles(cfg, s, e, w);
    SameWork(cfg, s, e, w);
  }

  lemma GrantCycles(cfg: Config, s: Sim, e: Event, w: nat)
    requires WellFormed(cfg, s) && w < |s.queue| && !GrantFaults(cfg, s, w) && s.queue[w].op in {BusRd, BusRdX, BusUpgr}
    ensures BusCycles(cfg, Grant(cfg, s, e, w).sys.global) == BusCycles(cfg, s.sys.global) + GrantLatency(cfg, s, w)
  {
    var r := s.queue[w];
    LatencyIsCycles(cfg, s.sys, r.core, r.op, cfg.SetIndex(r.addr), cfg.Tag(r.addr));
  }

  lemma SameWork(cfg: Config, s: Sim, e: Event, w: nat)
    requires WellFormed(cfg, s) && w < |s.queue| && !GrantFaults(cfg, s, w)
    ensures WellFormed(cfg, Grant(cfg, s, e, w))
    ensures forall c: nat :: c < cfg.cores ==> Work(Grant(cfg, s, e, w), c) == Work(s, c)
  {
    GrantWellFormed(cfg, s, e, w);
  }

  lemma GrantedTime(cfg: Config, s: Sim, s': Sim, e: Event, w: nat, end: nat)
    requires WellFormed(cfg, s) && TimeInv(cfg, s) && s.now <= e.time
    requires forall f :: f in s.events ==> !f.Release?
    requires !s.busy && w < |s.queue| && s.queue[w].arrival <= e.time && HoldsBus(cfg, s, e, w, s', end)
    ensures TimeInv(cfg, s')
  {
    forall f | f in s'.events
      ensures EventTimed(cfg, s', f)
    {
      if f in s.events {
        assert EventTimed(cfg, s, f);
      }
    }
    forall i | 0 <= i < |s'.queue|
      ensures Work(s', s'.queue[i].core) <= s'.queue[i].arrival
    {
      assert s'.queue[i] == s.queue[if i < w then i else i + 1];
    }
  }

  lemma FetchTime(cfg: Config, s: Sim, e: Event, tok: seq<CoreToken>, bus: BusToken)
    requires TokenInv(cfg, s, tok, bus) && Enabled(s, e) && e.Fetch? && TimeInv(cfg, s)
    ensures WellFormed(cfg, FireFetch(cfg, s, e)) && TimeInv(cfg, FireFetch(cfg, s, e))
  {
    StepWellFormed(cfg, s, e);
    var c := e.core;
    assert EventOk(s, tok, bus, e) && CoreOk(s, c, tok[c]);
    if s.traces[c] == [] {
      FetchedTime(cfg, s, FireFetch(cfg, s, e), e, tok, bus);
    } else if s.traces[c][0].kind == 2 {
      ComputeTime(cfg, s, e, tok, bus);
    } else {
      AccessTime(cfg, s, e, tok, bus);
    }
  }

  lemma ComputeTime(cfg: Config, s: Sim, e: Event, tok: seq<CoreToken>, bus: BusToken)
    requires TokenInv(cfg, s, tok, bus) && Enabled(s, e) && e.Fetch? && TimeInv(cfg, s)
    requires WellFormed(cfg, FireFetch(cfg, s, e))
    requires !s.blocked[e.core] && s.traces[e.core] != [] && s.traces[e.core][0].kind == 2
    ensures TimeInv(cfg, FireFetch(cfg, s, e))
  {
    FetchedTime(cfg, s, FireFetch(cfg, s, e), e, tok, bus);
  }

  lemma AccessTime(cfg: Config, s: Sim, e: Event, tok: seq<CoreToken>, bus: BusToken)
    requires TokenInv(cfg, s, tok, bus) && Enabled(s, e) && e.Fetch? && TimeInv(cfg, s)
    requires WellFormed(cfg, FireFetch(cfg, s, e))
    requires !s.blocked[e.core] && s.traces[e.core] != [] && s.traces[e.core][0].kind != 2
    ensures TimeInv(cfg, FireFetch(cfg, s, e))
  {
    var s' := FireFetch(cfg, s, e);
    FetchShape(cfg, s, e);
    AccessWork(cfg, s, e);
    AccessedTime(cfg, s, s', e, tok, bus);
  }

  lemma AccessedTime(cfg: Config, s: Sim, s': Sim, e: Event, tok: seq<CoreToken>, bus: BusToken)
    requires TokenInv(cfg, s, tok, bus) && Enabled(s, e) && e.Fetch? && TimeInv(cfg, s)
    requires s.traces[e.core] != [] && s.traces[e.core][0].kind != 2
    requires WellFormed(cfg, s') && s'.now == e.time && s'.exhausted == s.exhausted && s'.sys.global == s.sys.global
    requires Misses(cfg, s, e, s') || Refetches(s, e, s', e.time + 1)
    requires forall d: nat :: d < cfg.cores && d != e.core ==> Work(s', d) == Work(s, d)
    requires Work(s', e.core) == Work(s, e.core) + 1 - (|s'.queue| - |s.queue|)
    ensures TimeInv(cfg, s')
  {
    assert EventOk(s, tok, bus, e) && CoreOk(s, e.core, tok[e.core]);
    FetchedTime(cfg, s, s', e, tok, bus);
  }

  lemma AccessWork(cfg: Config, s: Sim, e: Event)
    requires WellFormed(cfg, s) && e in s.events && e.Fetch? && WellFormed(cfg, FireFetch(cfg, s, e))
    requires !s.blocked[e.core] && s.traces[e.core] != [] && s.traces[e.core][0].kind != 2
    ensures var s', c := FireFetch(cfg, s, e), e.core;
            && s'.sys.global == s.sys.global
            && (forall d: nat :: d < cfg.cores && d != c ==> Work(s', d) == Work(s, d))
            && Work(s', c) == Work(s, c) + 1 - (|s'.queue| - |s.queue|)
  {
    var entry := s.traces[e.core][0];
    var s2 := Pop(s, e).(traces := s.traces[e.core := s.traces[e.core][1..]]);
    MemoryStats(cfg, s2, e, entry.val, entry.kind == 1);
  }

  /** A fetch adds no more to the work of its core than the time to the event it schedules. */
  lemma FetchedTime(cfg: Config, s: Sim, s': Sim, e: Event, tok: seq<CoreToken>, bus: BusToken)
    requires TokenInv(cfg, s, tok, bus) && Enabled(s, e) && e.Fetch? && TimeInv(cfg, s)
    requires WellFormed(cfg, s') && s'.now == e.time && s'.busy == s.busy && s'.sys.global == s.sys.global
    requires forall d: nat ::
               d < cfg.cores && d != e.core ==> Work(s', d) == Work(s, d) && s'.exhausted[d] == s.exhausted[d]
    requires forall i :: 0 <= i < |s'.queue| ==>
      (s'.queue[i] in s.queue
       || (s'.queue[i].core == e.core && s'.queue[i].arrival == e.time && Work(s', e.core) == Work(s, e.core)))
    requires forall f :: f in s'.events ==>
      (f in s.events - multiset{e} || f.Arbitrate?
       || (f.Fetch? && f.core == e.core && Work(s', e.core) <= Work(s, e.core) + (f.time - e.time)))
    requires s'.exhausted[e.core] ==> Work(s', e.core) == Work(s, e.core)
    ensures TimeInv(cfg, s')
  {
    assert EventOk(s, tok, bus, e) && CoreOk(s, e.core, tok[e.core]) && EventTimed(cfg, s, e);
    forall f | f in s'.events
      ensures EventTimed(cfg, s', f)
    {
      if f in s.events - multiset{e} {
        assert EventTimed(cfg, s, f) && EventOk(s, tok, bus, f);
      }
    }
    forall i | 0 <= i < |s'.queue|
      ensures Work(s', s'.queue[i].core) <= s'.queue[i].arrival
    {
      if s'.queue[i] in s.queue {
        var j: nat :| j < |s.queue| && s.queue[j] == s'.queue[i];
        assert tok[s.queue[j].core] == AtBus(s.queue[j]);
      }
    }
  }

  /** Every step keeps the time accounts. */
  lemma StepTime(cfg: Config, s: Sim, e: Event, tok: seq<CoreToken>, bus: BusToken)
    requires TokenInv(cfg, s, tok, bus) && TimeInv(cfg, s)
    requires Enabled(s, e) && Step(cfg, s, e).Some?
    ensures WellFormed(cfg, Step(cfg, s, e).value) && TimeInv(cfg, Step(cfg, s, e).value)
  {
    StepWellFormed(cfg, s, e);
    assert EventOk(s, tok, bus, e) && EventTimed(cfg, s, e);
    match e
    case Release(_) => ReleaseTime(cfg, s, e, tok, bus);
    case Unblock(_, _) => UnblockTime(cfg, s, e, tok, bus);
    case Arbitrate(_) =>
      if s.busy || s.queue == [] {
        IdleTime(cfg, s, e, tok, bus);
      } else {
        IdleHasNoRelease(cfg, s, tok, bus);
        GrantTime(cfg, s, e, Winner(cfg.readPriority, s.queue));
      }
    case Fetch(_, _) => FetchTime(cfg, s, e, tok, bus);
  }

  lemma ReleaseTime(cfg: Config, s: Sim, e: Event, tok: seq<CoreToken>, bus: BusToken)
    requires TokenInv(cfg, s, tok, bus) && TimeInv(cfg, s) && Enabled(s, e) && e.Release?
    ensures WellFormed(cfg, FireRelease(s, e)) && TimeInv(cfg, FireRelease(s, e))
  {
    assert EventOk(s, tok, bus, e) && EventTimed(cfg, s, e);
    var s' := FireRelease(s, e);
    forall f | f in s'.events
      ensures EventTimed(cfg, s', f)
    {
      if f in s.events {
        assert EventTimed(cfg, s, f) && EventOk(s, tok, bus, f);
      }
    }
  }

  lemma IdleTime(cfg: Config, s: Sim, e: Event, tok: seq<CoreToken>, bus: BusToken)
    requires TokenInv(cfg, s, tok, bus) && TimeInv(cfg, s) && Enabled(s, e) && e.Arbitrate?
    ensures WellFormed(cfg, Pop(s, e)) && TimeInv(cfg, Pop(s, e))
  {
    assert EventOk(s, tok, bus, e);
    forall f | f in Pop(s, e).events
      ensures EventTimed(cfg, Pop(s, e), f)
    {
      assert EventTimed(cfg, s, f);
    }
  }

  lemma UnblockTime(cfg: Config, s: Sim, e: Event, tok: seq<CoreToken>, bus: BusToken)
    requires TokenInv(cfg, s, tok, bus) && TimeInv(cfg, s) && Enabled(s, e) && e.Unblock?
    ensures WellFormed(cfg, FireUnblock(cfg, s, e)) && TimeInv(cfg, FireUnblock(cfg, s, e))
  {
    StepWellFormed(cfg, s, e);
    assert EventOk(s, tok, bus, e) && EventTimed(cfg, s, e);
    var s' := FireUnblock(cfg, s, e);
    forall f | f in s'.events
      ensures EventTimed(cfg, s', f)
    {
      if f in s.events {
        assert EventTimed(cfg, s, f);
      }
    }
  }

  lemma StartTime(cfg: Config, traces: seq<seq<TraceEntry>>)
    requires cfg.Valid() && |traces| == cfg.cores
    ensures WellFormed(cfg, Start(cfg, traces)) && TimeInv(cfg, Start(cfg, traces))
  {
    StartWellFormed(cfg, traces);
    FreshTime(cfg, Start(cfg, traces));
  }

  lemma FreshTime(cfg: Config, s: Sim)
    requires WellFormed(cfg, s) && s.queue == [] && s.sys.global == ZERO_GLOBAL
    requires forall i :: 0 <= i < |s.sys.cores| ==> s.sys.cores[i] == ZERO_CORE
    requires forall e :: e in s.events ==> e.Fetch?
    ensures TimeInv(cfg, s)
  {
  }
}
