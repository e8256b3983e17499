/**
 The main results on the coherence simulator: what holds in every state of every run,
 for every protocol, number of cores, cache geometry, set of traces and tie-break.
 */
module Runs {
  import opened Defs
  import opened CacheSets
  import opened Protocols
  import opened Simulation
  import opened Tokens
  import opened Progress
  import opened Safety
  import opened Ownership
  import opened Counters
  import opened Timing
  import opened Fairness
  import opened DragonLru

  ghost predicate HasTokens(cfg: Config, s: Sim) {
    exists tok: seq<CoreToken>, bus: BusToken :: TokenInv(cfg, s, tok, bus)
  }

  ghost predicate Inv(cfg: Config, s: Sim) {
    && cfg.Valid() && WellFormed(cfg, s) && HasTokens(cfg, s)
    && MemoryInv(cfg, s) && Balanced(cfg, s) && TimeInv(cfg, s)
  }

  lemma StartInv(cfg: Config, traces: seq<seq<TraceEntry>>)
    requires cfg.Valid() && |traces| == cfg.cores
    ensures Inv(cfg, Start(cfg, traces))
  {
    var tok, bus := StartTokens(cfg, traces);
    StartMemory(cfg, traces);
    StartBalanced(cfg, traces);
    StartTime(cfg, traces);
  }

  /** Every enabled event of a good state can be fired, and leads to a good state. */
  lemma StepInv(cfg: Config, s: Sim, e: Event)
    requires Inv(cfg, s) && Enabled(s, e)
    ensures Step(cfg, s, e).Some? && Inv(cfg, Step(cfg, s, e).value)
    ensures Weight(Step(cfg, s, e).value) < Weight(s)
  {
    var tok: seq<CoreToken>, bus: BusToken :| TokenInv(cfg, s, tok, bus);
    StepMemory(cfg, s, e, tok, bus);
    var tok', bus' := StepTokens(cfg, s, e, tok, bus);
    StepBalanced(cfg, s, e);
    StepTime(cfg, s, e, tok, bus);
    StepWeight(cfg, s, e, tok, bus);
  }

  lemma RunNext(cfg: Config, traces: seq<seq<TraceEntry>>, states: seq<Sim>, fired: seq<Event>, m: nat, n: nat)
    requires IsRun(cfg, traces, states, fired) && n == m + 1 <= |fired| && Inv(cfg, states[m])
    ensures Inv(cfg, states[n])
  {
    assert StepAt(cfg, states, fired, m);
    StepInv(cfg, states[m], fired[m]);
  }

  lemma {:induction false} RunInv(cfg: Config, traces: seq<seq<TraceEntry>>, states: seq<Sim>, fired: seq<Event>,
                                  n: nat)
    requires IsRun(cfg, traces, states, fired) && n <= |fired|
    ensures Inv(cfg, states[n])
  {
    if n == 0 {
      StartInv(cfg, traces);
    } else {
      RunInv(cfg, traces, states, fired, n - 1);
      RunNext(cfg, traces, states, fired, n - 1, n);
    }
  }

  /** One step in the middle of a run. */
  lemma RunStep(cfg: Config, traces: seq<seq<TraceEntry>>, states: seq<Sim>, fired: seq<Event>, n: nat)
    requires IsRun(cfg, traces, states, fired) && n < |fired|
    ensures Inv(cfg, states[n]) && IsStep(cfg, states[n], fired[n], states[n + 1])
    ensures Weight(states[n + 1]) < Weight(states[n])
  {
    RunInv(cfg, traces, states, fired, n);
    assert StepAt(cfg, states, fired, n);
    StepInv(cfg, states[n], fired[n]);
  }

  // ----- faults, deadlock, termination -----

  /** No transaction faults: an upgrade decided at fetch time still finds its line when it is
      granted the bus, however stale it is by then. */
  lemma RunNeverFaults(cfg: Config, traces: seq<seq<TraceEntry>>, states: seq<Sim>, fired: seq<Event>, n: nat, e: Event)
    requires IsRun(cfg, traces, states, fired) && n <= |fired| && Enabled(states[n], e)
    ensures WellFormed(cfg, states[n]) && Step(cfg, states[n], e).Some?
  {
    RunInv(cfg, traces, states, fired, n);
    StepInv(cfg, states[n], e);
  }

  /** As long as the run is not finished, some event is enabled. */
  lemma RunNeverStuck(cfg: Config, traces: seq<seq<TraceEntry>>, states: seq<Sim>, fired: seq<Event>, n: nat)
    requires IsRun(cfg, traces, states, fired) && n <= |fired|
    ensures Finished(states[n]) || exists e :: Enabled(states[n], e)
  {
    RunInv(cfg, traces, states, fired, n);
    var s := states[n];
    if |s.events| == 0 {
      var tok: seq<CoreToken>, bus: BusToken :| TokenInv(cfg, s, tok, bus);
      EmptyHeapFinished(cfg, s, tok, bus);
    } else {
      var e := SomeEnabled(s.events);
      assert Enabled(s, e);
    }
  }

  lemma RunWeightStep(cfg: Config, traces: seq<seq<TraceEntry>>, states: seq<Sim>, fired: seq<Event>, n: nat)
    requires IsRun(cfg, traces, states, fired) && n < |fired|
    ensures Weight(states[n + 1]) < Weight(states[n])
  {
    RunStep(cfg, traces, states, fired, n);
  }

  lemma {:induction false} RunWeight(cfg: Config, traces: seq<seq<TraceEntry>>, states: seq<Sim>,
                                     fired: seq<Event>, n: nat)
    requires IsRun(cfg, traces, states, fired) && n <= |fired|
    ensures Weight(states[n]) + n <= 5 * Entries(traces) + cfg.cores
  {
    if n == 0 {
      StartWeight(cfg, traces);
    } else {
      RunWeight(cfg, traces, states, fired, n - 1);
      RunWeightStep(cfg, traces, states, fired, n - 1);
    }
  }

  /** Every run fires at most five events per trace entry, plus one per core. */
  lemma RunTerminates(cfg: Config, traces: seq<seq<TraceEntry>>, states: seq<Sim>, fired: seq<Event>)
    requires IsRun(cfg, traces, states, fired)
    ensures |fired| <= 5 * Entries(traces) + cfg.cores
  {
    RunWeight(cfg, traces, states, fired, |fired|);
  }

  // ----- scheduling -----

  ghost predicate FetchPending(s: Sim, c: nat) {
    exists t: nat :: Fetch(t, c) in s.events
  }

  ghost predicate UnblockPending(s: Sim, c: nat) {
    exists t: nat :: Unblock(t, c) in s.events
  }

  ghost predicate RequestQueued(s: Sim, c: nat) {
    exists i: nat :: i < |s.queue| && s.queue[i].core == c
  }

  predicate OfCore(e: Event, c: nat) {
    (e.Fetch? || e.Unblock?) && e.core == c
  }

  ghost function Ones(a: bool, b: bool, c: bool, d: bool): nat {
    (if a then 1 else 0) + (if b then 1 else 0) + (if c then 1 else 0) + (if d then 1 else 0)
  }

  /** Each core is in exactly one of four phases -- a fetch pending, a request queued, an unblock
      pending, its trace exhausted -- has just one event or request, and is blocked exactly in
      the middle two. */
  lemma OneTokenPerCore(cfg: Config, traces: seq<seq<TraceEntry>>, states: seq<Sim>, fired: seq<Event>, n: nat, c: nat)
    requires IsRun(cfg, traces, states, fired) && n <= |fired| && c < cfg.cores
    ensures WellFormed(cfg, states[n])
    ensures var s := states[n];
            && Ones(FetchPending(s, c), RequestQueued(s, c), UnblockPending(s, c), s.exhausted[c]) == 1
            && s.blocked[c] == (RequestQueued(s, c) || UnblockPending(s, c))
            && (forall e, f ::
                  e in s.events && f in s.events && OfCore(e, c) && OfCore(f, c) ==> e == f && s.events[e] == 1)
            && (forall i: nat, j: nat :: i < j < |s.queue| ==> s.queue[i].core != s.queue[j].core)
  {
    RunInv(cfg, traces, states, fired, n);
    var tok: seq<CoreToken>, bus: BusToken :| TokenInv(cfg, states[n], tok, bus);
    TokenPhase(cfg, states[n], tok, bus, c);
    TokenUnique(cfg, states[n], tok, bus, c);
  }

  lemma TokenPhase(cfg: Config, s: Sim, tok: seq<CoreToken>, bus: BusToken, c: nat)
    requires TokenInv(cfg, s, tok, bus) && c < cfg.cores
    ensures FetchPending(s, c) == tok[c].AtFetch? && UnblockPending(s, c) == tok[c].AtUnblock?
    ensures RequestQueued(s, c) == tok[c].AtBus? && s.exhausted[c] == tok[c].Done?
    ensures s.blocked[c] == (tok[c].AtBus? || tok[c].AtUnblock?)
  {
    assert CoreOk(s, c, tok[c]);
    if FetchPending(s, c) {
      var t: nat :| Fetch(t, c) in s.events;
      assert EventOk(s, tok, bus, Fetch(t, c));
    }
    if UnblockPending(s, c) {
      var t: nat :| Unblock(t, c) in s.events;
      assert EventOk(s, tok, bus, Unblock(t, c));
    }
    if RequestQueued(s, c) {
      var i: nat :| i < |s.queue| && s.queue[i].core == c;
      assert tok[s.queue[i].core] == AtBus(s.queue[i]);
    }
    match tok[c]
    case AtFetch(t) => assert Fetch(t, c) in s.events;
    case AtBus(r) =>
      var i: nat :| i < |s.queue| && s.queue[i] == r;
      assert s.queue[i].core == c;
    case AtUnblock(t) => assert Unblock(t, c) in s.events;
    case Done =>
  }

  lemma TokenUnique(cfg: Config, s: Sim, tok: seq<CoreToken>, bus: BusToken, c: nat)
    requires TokenInv(cfg, s, tok, bus) && c < cfg.cores
    ensures forall e, f :: e in s.events && f in s.events && OfCore(e, c) && OfCore(f, c) ==> e == f && s.events[e] == 1
  {
    assert CoreOk(s, c, tok[c]);
    forall e, f | e in s.events && f in s.events && OfCore(e, c) && OfCore(f, c)
      ensures e == f && s.events[e] == 1
    {
      assert EventOk(s, tok, bus, e) && EventOk(s, tok, bus, f);
    }
  }

  /** The bus is held exactly while one release is pending, and an unblock is due with it.  An idle
      bus with waiting requests has an arbitration due now, so the next event does not move the
      clock and is no later in priority; the clock never goes back. */
  lemma BusWorkConserving(cfg: Config, traces: seq<seq<TraceEntry>>, states: seq<Sim>, fired: seq<Event>, n: nat)
    requires IsRun(cfg, traces, states, fired) && n <= |fired|
    ensures var s := states[n];
            && (s.busy <==> exists t: nat :: Release(t) in s.events)
            && (forall t: nat, u: nat ::
                  Release(t) in s.events && Release(u) in s.events ==> t == u && s.events[Release(t)] == 1)
            && (forall t: nat :: Release(t) in s.events ==> exists c: nat :: c < cfg.cores && Unblock(t, c) in s.events)
            && (!s.busy && s.queue != [] ==> Arbitrate(s.now) in s.events)
            && (n < |fired| ==> s.now <= states[n + 1].now)
            && (n < |fired| && !s.busy && s.queue != []
                ==> states[n + 1].now == s.now && !fired[n].Fetch? && !fired[n].Unblock?)
  {
    RunInv(cfg, traces, states, fired, n);
    var s := states[n];
    var tok: seq<CoreToken>, bus: BusToken :| TokenInv(cfg, s, tok, bus);
    forall e | e in s.events
      ensures EventOk(s, tok, bus, e)
    {
    }
    if bus.Held? {
      assert Release(bus.time) in s.events;
      assert CoreOk(s, bus.core, tok[bus.core]);
      assert Unblock(bus.time, bus.core) in s.events;
    }
    if n < |fired| {
      assert StepAt(cfg, states, fired, n);
      ClockWaitsForBus(cfg, s, fired[n], tok, bus);
      StepClock(cfg, s, fired[n]);
    }
  }

  lemma StepClock(cfg: Config, s: Sim, e: Event)
    requires WellFormed(cfg, s) && e in s.events && Step(cfg, s, e).Some?
    ensures Step(cfg, s, e).value.now == e.time
  {
  }

  // ----- coherence -----

  /** Permission safety in every reachable state: an exclusive or modified copy is the only valid
      copy of its block, and at most one core holds it as forwarder, as owner, or dirty at all. */
  lemma SingleWriter(cfg: Config, traces: seq<seq<TraceEntry>>, states: seq<Sim>, fired: seq<Event>, n: nat,
                     i: nat, j: nat, k: nat, t: nat)
    requires IsRun(cfg, traces, states, fired) && n <= |fired|
    requires i < cfg.cores && j < cfg.cores && i != j && k < cfg.NumSets()
    ensures WellFormed(cfg, states[n])
    ensures var a, b := StateAt(states[n].sys.caches, i, k, t), StateAt(states[n].sys.caches, j, k, t);
            && (a == Exclusive || a == Modified ==> b == Invalid)
            && !(a == Forward && b == Forward)
            && !(a == Owned && b == Owned)
            && !(Dirty(cfg.protocol, a) && Dirty(cfg.protocol, b))
            && Legal(cfg.protocol, a)
  {
    RunInv(cfg, traces, states, fired, n);
    var c := states[n].sys.caches;
    assert At(c, i, k) && At(c, j, k);
    assert Compatible(cfg.protocol, StateAt(c, i, k, t), StateAt(c, j, k, t));
    assert Legal(cfg.protocol, StateAt(c, i, k, t));
  }

  /** Every queued upgrade finds its entry in the requester's cache; the line of every queued read
      or write miss is absent from it or Invalid. */
  lemma QueuedRequestsMatch(cfg: Config, traces: seq<seq<TraceEntry>>, states: seq<Sim>, fired: seq<Event>, n: nat,
                            q: nat)
    requires IsRun(cfg, traces, states, fired) && n <= |fired| && q < |states[n].queue|
    ensures WellFormed(cfg, states[n])
    ensures var r := states[n].queue[q];
            var lines := states[n].sys.caches[r.core][cfg.SetIndex(r.addr)].lines;
            && r.op in {BusRd, BusRdX, BusUpgr}
            && (r.op == BusUpgr ==> cfg.Tag(r.addr) in lines)
            && (r.op != BusUpgr ==> cfg.Tag(r.addr) !in lines || lines[cfg.Tag(r.addr)] == Invalid)
            && (cfg.protocol == Dragon ==> r.op != BusRdX && (r.op == BusRd ==> cfg.Tag(r.addr) !in lines))
  {
    RunInv(cfg, traces, states, fired, n);
    var r, c := states[n].queue[q], states[n].sys.caches;
    assert Matches(cfg, c, r);
    assert At(c, r.core, cfg.SetIndex(r.addr));
  }

  /** In a SMART run a grant writes a dirty line back only if every line of the set is Modified. */
  lemma SmartWritesBackLast(cfg: Config, traces: seq<seq<TraceEntry>>, states: seq<Sim>, fired: seq<Event>, n: nat)
    requires IsRun(cfg, traces, states, fired) && n < |fired| && cfg.protocol == Smart
    requires states[n + 1].sys.global.busWritebacks > states[n].sys.global.busWritebacks
    ensures WellFormed(cfg, states[n]) && |states[n].queue| > 0
    ensures var r := states[n].queue[Winner(cfg.readPriority, states[n].queue)];
            var cs := states[n].sys.caches[r.core][cfg.SetIndex(r.addr)];
            |cs.lines| >= cfg.assoc && forall t :: t in cs.lines ==> cs.lines[t] == Modified
  {
    RunStep(cfg, traces, states, fired, n);
    SmartStep(cfg, states[n], fired[n], states[n + 1]);
  }

  lemma SmartStep(cfg: Config, s: Sim, e: Event, s': Sim)
    requires cfg.Valid() && IsStep(cfg, s, e, s') && MemoryInv(cfg, s) && cfg.protocol == Smart
    requires s'.sys.global.busWritebacks > s.sys.global.busWritebacks
    ensures |s.queue| > 0
    ensures var r := s.queue[Winner(cfg.readPriority, s.queue)];
            var cs := s.sys.caches[r.core][cfg.SetIndex(r.addr)];
            |cs.lines| >= cfg.assoc && forall t :: t in cs.lines ==> cs.lines[t] == Modified
  {
    OnlyGrantsCount(cfg, s, e, s');
    var w := Winner(cfg.readPriority, s.queue);
    assert s' == Grant(cfg, s, e, w);
    SmartGrant(cfg, s, e, w);
  }

  lemma OnlyGrantsCount(cfg: Config, s: Sim, e: Event, s': Sim)
    requires IsStep(cfg, s, e, s') && MemoryInv(cfg, s) && s'.sys.global != s.sys.global
    ensures e.Arbitrate? && !s.busy && s.queue != []
  {
    if e.Fetch? {
      FetchKeepsOwned(cfg, s, e);
    }
  }

  lemma SmartGrant(cfg: Config, s: Sim, e: Event, w: nat)
    requires cfg.Valid() && WellFormed(cfg, s) && MemoryInv(cfg, s) && cfg.protocol == Smart
    requires w < |s.queue| && !GrantFaults(cfg, s, w)
    requires Grant(cfg, s, e, w).sys.global.busWritebacks > s.sys.global.busWritebacks
    ensures var r := s.queue[w];
            var cs := s.sys.caches[r.core][cfg.SetIndex(r.addr)];
            |cs.lines| >= cfg.assoc && forall t :: t in cs.lines ==> cs.lines[t] == Modified
  {
    assert Matches(cfg, s.sys.caches, s.queue[w]);
    SmartEvictsDirtyOnlyIfAllDirty(cfg.assoc, s.sys.caches[s.queue[w].core][cfg.SetIndex(s.queue[w].addr)]);
  }

  // ----- ownership -----

  lemma StepEnters(cfg: Config, s: Sim, e: Event, s': Sim, a: set<(nat, nat)>, b: set<(nat, nat)>)
    requires cfg.Valid() && IsStep(cfg, s, e, s') && MemoryInv(cfg, s)
    requires a == DirtyBlocks(cfg, s) && b == DirtyBlocks(cfg, s')
    ensures |b| == |a| + |b - a| - (s'.sys.global.busWritebacks - s.sys.global.busWritebacks)
                   - (if Cleans(cfg, s, e) then 1 else 0)
  {
    StepConserves(cfg, s, e, s');
    SetChange(a, b);
  }

  lemma RunStepEnters(cfg: Config, traces: seq<seq<TraceEntry>>, states: seq<Sim>, fired: seq<Event>, n: nat,
                      a: set<(nat, nat)>, b: set<(nat, nat)>)
    requires IsRun(cfg, traces, states, fired) && n < |fired|
    requires a == DirtyBlocks(cfg, states[n]) && b == DirtyBlocks(cfg, states[n + 1])
    ensures |b| == |a| + |b - a| - (states[n + 1].sys.global.busWritebacks - states[n].sys.global.busWritebacks)
                   - (if Cleans(cfg, states[n], fired[n]) then 1 else 0)
  {
    RunStep(cfg, traces, states, fired, n);
    StepEnters(cfg, states[n], fired[n], states[n + 1], a, b);
  }

  lemma RunEnters(cfg: Config, traces: seq<seq<TraceEntry>>, states: seq<Sim>, fired: seq<Event>,
                  d: seq<set<(nat, nat)>>, n: nat)
    requires IsRun(cfg, traces, states, fired) && IsDirtyHistory(cfg, states, d) && n < |fired|
    ensures |d[n + 1]| == |d[n]| + |d[n + 1] - d[n]|
                          - (states[n + 1].sys.global.busWritebacks - states[n].sys.global.busWritebacks)
                          - (if Cleans(cfg, states[n], fired[n]) then 1 else 0)
  {
    var a, b := d[n], d[n + 1];
    assert DirtyAt(cfg, states, d, n);
    assert DirtyAt(cfg, states, d, n + 1);
    RunStepEnters(cfg, traces, states, fired, n, a, b);
  }

  lemma StartsClean(cfg: Config, traces: seq<seq<TraceEntry>>)
    ensures DirtyBlocks(cfg, Start(cfg, traces)) == {}
  {
  }

  /** Over every run, the times a block became dirty equal the writebacks, plus the dirty owners
      cleaned by a read, plus the blocks dirty now: no dirty line is silently dropped. */
  lemma {:induction false} OwnershipConserved(cfg: Config, traces: seq<seq<TraceEntry>>, states: seq<Sim>,
                                              fired: seq<Event>, d: seq<set<(nat, nat)>>, n: nat)
    requires IsRun(cfg, traces, states, fired) && IsDirtyHistory(cfg, states, d) && n <= |fired|
    ensures Entered(d, n) == states[n].sys.global.busWritebacks + Cleaned(cfg, states, fired, n) + |d[n]|
  {
    if n == 0 {
      assert DirtyAt(cfg, states, d, 0);
      StartsClean(cfg, traces);
    } else {
      OwnershipConserved(cfg, traces, states, fired, d, n - 1);
      RunEnters(cfg, traces, states, fired, d, n - 1);
    }
  }

  /** The simpler law, that every block that became dirty was written back or is still dirty, holds in a run
      exactly if no read cleaned a dirty owner. */
  lemma OwnershipExact(cfg: Config, traces: seq<seq<TraceEntry>>, states: seq<Sim>, fired: seq<Event>,
                       d: seq<set<(nat, nat)>>, n: nat)
    requires IsRun(cfg, traces, states, fired) && IsDirtyHistory(cfg, states, d) && n <= |fired|
    ensures Entered(d, n) == states[n].sys.global.busWritebacks + |d[n]|
            <==> forall j: nat :: j < n ==> !CleansAt(cfg, states, fired, j)
  {
    OwnershipConserved(cfg, traces, states, fired, d, n);
    CleanedNone(cfg, states, fired, n);
  }

  ghost predicate CleansAt(cfg: Config, states: seq<Sim>, fired: seq<Event>, j: nat) {
    j < |fired| && j < |states| && Cleans(cfg, states[j], fired[j])
  }

  lemma {:induction false} CleanedNone(cfg: Config, states: seq<Sim>, fired: seq<Event>, n: nat)
    requires n <= |fired| && |states| == |fired| + 1
    ensures Cleaned(cfg, states, fired, n) == 0 <==> forall j: nat :: j < n ==> !CleansAt(cfg, states, fired, j)
  {
    if n > 0 {
      CleanedNone(cfg, states, fired, n - 1);
      assert Cleans(cfg, states[n - 1], fired[n - 1]) == CleansAt(cfg, states, fired, n - 1);
    }
  }

  /** MOESI and Dragon owners are never cleaned by a read, so there every block that became dirty
      was written back or is still dirty. */
  lemma OwnersNeverCleaned(cfg: Config, traces: seq<seq<TraceEntry>>, states: seq<Sim>, fired: seq<Event>,
                           d: seq<set<(nat, nat)>>, n: nat)
    requires IsRun(cfg, traces, states, fired) && IsDirtyHistory(cfg, states, d) && n <= |fired|
    requires cfg.protocol == Moesi || cfg.protocol == Dragon
    ensures Entered(d, n) == states[n].sys.global.busWritebacks + |d[n]|
  {
    OwnershipConserved(cfg, traces, states, fired, d, n);
    NoneCleaned(cfg, states, fired, n);
  }

  lemma {:induction false} NoneCleaned(cfg: Config, states: seq<Sim>, fired: seq<Event>, n: nat)
    requires n <= |fired| && |states| == |fired| + 1 && KeepsDirty(cfg.protocol)
    ensures Cleaned(cfg, states, fired, n) == 0
  {
    if n > 0 {
      NoneCleaned(cfg, states, fired, n - 1);
    }
  }

  // ----- statistics and time -----

  /** The books balance in every reachable state. */
  lemma CountersConserved(cfg: Config, traces: seq<seq<TraceEntry>>, states: seq<Sim>, fired: seq<Event>, n: nat)
    requires IsRun(cfg, traces, states, fired) && n <= |fired|
    ensures var s, g := states[n], states[n].sys.global;
            && SumBy(s.sys.cores, MissesOf) == g.busReads + g.busReadx + g.busUpgrades + |s.queue|
            && SumBy(s.sys.cores, ReceivedBy) == g.invalidations
            && (cfg.protocol != Dragon ==> SumBy(s.sys.cores, SentBy) == g.invalidations)
            && g.traffic == cfg.BlockSize() * (g.busReads + g.busReadx + g.busWritebacks)
                            + (if cfg.protocol == Dragon then 4 * g.busUpgrades else 0)
            && forall c :: 0 <= c < |s.sys.cores| ==>
                 var cs := s.sys.cores[c];
                 cs.hits + cs.misses == cs.loads + cs.stores && cs.privateAccesses + cs.sharedAccesses == cs.hits
  {
    RunInv(cfg, traces, states, fired, n);
    assert forall c :: 0 <= c < |states[n].sys.cores| ==> CoreBalanced(states[n].sys.cores[c]);
  }

  /** When a run has finished, the clock is at least the bus cycles of all counted transactions,
      and at least the compute cycles and hits of every core. */
  lemma CyclesBoundTraffic(cfg: Config, traces: seq<seq<TraceEntry>>, states: seq<Sim>, fired: seq<Event>, n: nat)
    requires IsRun(cfg, traces, states, fired) && n <= |fired| && Finished(states[n])
    ensures var s, g := states[n], states[n].sys.global;
            && s.now >= g.cacheToCache * (1 + 2 * (cfg.BlockSize() / 4))
                        + 101 * (g.busReads + g.busReadx - g.cacheToCache) + 100 * g.busWritebacks
                        + (if cfg.protocol == Dragon then 2 * g.busUpgrades else 0)
            && g.cacheToCache <= g.busReads + g.busReadx
            && forall c :: 0 <= c < |s.sys.cores| ==> s.now >= s.sys.cores[c].computeCycles + s.sys.cores[c].hits
  {
    RunInv(cfg, traces, states, fired, n);
    var s := states[n];
    TimesIsProduct(s.sys.global.cacheToCache, TransferCycles(cfg));
    forall c: nat | c < |s.sys.cores|
      ensures s.now >= s.sys.cores[c].computeCycles + s.sys.cores[c].hits
    {
      assert s.exhausted[c] && Work(s, c) <= s.now;
    }
  }

  // ----- arbitration -----

  lemma RunAheadBound(cfg: Config, traces: seq<seq<TraceEntry>>, states: seq<Sim>, fired: seq<Event>, m: nat,
                      r: BusRequest)
    requires IsRun(cfg, traces, states, fired) && m <= |fired| && r in states[m].queue
    ensures Ahead(cfg.readPriority, states[m].queue, r) < cfg.cores
  {
    RunInv(cfg, traces, states, fired, m);
    var tok: seq<CoreToken>, bus: BusToken :| TokenInv(cfg, states[m], tok, bus);
    QueueBound(cfg, states[m], tok, bus);
    AheadBound(cfg.readPriority, states[m].queue, r);
  }

  lemma RunAheadStep(cfg: Config, traces: seq<seq<TraceEntry>>, states: seq<Sim>, fired: seq<Event>, n: nat,
                     r: BusRequest)
    requires IsRun(cfg, traces, states, fired) && n < |fired| && KeepsPlace(cfg, r)
    requires r in states[n].queue && r in states[n + 1].queue && r.arrival < states[n].now
    ensures Ahead(cfg.readPriority, states[n].queue, r)
            == Ahead(cfg.readPriority, states[n + 1].queue, r) + (if IsGrant(states[n], states[n + 1]) then 1 else 0)
    ensures states[n].now <= states[n + 1].now
  {
    RunStep(cfg, traces, states, fired, n);
    var tok: seq<CoreToken>, bus: BusToken :| TokenInv(cfg, states[n], tok, bus);
    StepAhead(cfg, states[n], fired[n], states[n + 1], r, tok, bus);
  }

  /** Once the clock has passed the arrival of a waiting request, every grant moves it exactly one place
      forward, so fewer than `cores` grants can precede its own.  This holds of every request under first
      come, first served, and of every read under read priority. */
  lemma {:induction false} FcfsBound(cfg: Config, traces: seq<seq<TraceEntry>>, states: seq<Sim>, fired: seq<Event>,
                                     m: nat, n: nat, r: BusRequest)
    requires IsRun(cfg, traces, states, fired) && m <= n <= |fired| && (!cfg.readPriority || r.op == BusRd)
    requires forall j :: m <= j <= n ==> r in states[j].queue
    requires r.arrival < states[m].now
    ensures Grants(states, m, n) + Ahead(cfg.readPriority, states[n].queue, r)
            == Ahead(cfg.readPriority, states[m].queue, r) < cfg.cores
    ensures r.arrival < states[n].now
    decreases n
  {
    if m == n {
      RunAheadBound(cfg, traces, states, fired, m, r);
    } else {
      FcfsBound(cfg, traces, states, fired, m, n - 1, r);
      RunAheadStep(cfg, traces, states, fired, n - 1, r);
    }
  }

  /** In every run, when a step grants the bus to `r`, no request `q` left waiting comes before it: `q` has not
      arrived earlier, unless read priority let a read pass a request that is not a read. */
  lemma GrantsFirst(cfg: Config, traces: seq<seq<TraceEntry>>, states: seq<Sim>, fired: seq<Event>, n: nat,
                    r: BusRequest, q: BusRequest)
    requires IsRun(cfg, traces, states, fired) && n < |fired| && IsGrant(states[n], states[n + 1])
    requires r in states[n].queue && r !in states[n + 1].queue && q in states[n + 1].queue
    ensures q.arrival < r.arrival ==> cfg.readPriority && r.op == BusRd && q.op != BusRd
    ensures q.arrival == r.arrival && (!cfg.readPriority || (q.op == BusRd <==> r.op == BusRd)) ==> r.core <= q.core
  {
    assert StepAt(cfg, states, fired, n);
    StepGrantsFirst(cfg, states[n], fired[n], states[n + 1], r, q);
  }

  // ----- Dragon replacement -----

  /** After `n` steps, set `k` of core `i` is in the recency order of its log of touches. */
  ghost predicate InRecencyOrder(cfg: Config, states: seq<Sim>, fired: seq<Event>, i: nat, k: nat, n: nat)
    requires n <= |fired| && |states| == |fired| + 1 && i < cfg.cores && k < cfg.NumSets()
  {
    At(states[n].sys.caches, i, k)
    && LruSet(cfg.assoc, states[n].sys.caches[i][k], TouchLog(cfg, states, fired, i, k, n))
  }

  lemma LruStep(cfg: Config, states: seq<Sim>, fired: seq<Event>, i: nat, k: nat, n: nat)
    requires n < |fired| && |states| == |fired| + 1 && i < cfg.cores && k < cfg.NumSets()
    requires cfg.Valid() && cfg.protocol == Dragon
    requires IsStep(cfg, states[n], fired[n], states[n + 1]) && MemoryInv(cfg, states[n])
        && InRecencyOrder(cfg, states, fired, i, k, n)
    ensures InRecencyOrder(cfg, states, fired, i, k, n + 1)
  {
    StepLru(cfg, states[n], fired[n], states[n + 1], i, k, TouchLog(cfg, states, fired, i, k, n));
  }

  lemma RunLruStep(cfg: Config, traces: seq<seq<TraceEntry>>, states: seq<Sim>, fired: seq<Event>, i: nat, k: nat,
                   n: nat)
    requires IsRun(cfg, traces, states, fired) && n < |fired| && cfg.protocol == Dragon
    requires i < cfg.cores && k < cfg.NumSets()
    requires InRecencyOrder(cfg, states, fired, i, k, n)
    ensures InRecencyOrder(cfg, states, fired, i, k, n + 1)
  {
    RunStep(cfg, traces, states, fired, n);
    LruStep(cfg, states, fired, i, k, n);
  }

  lemma StartsExact(cfg: Config, traces: seq<seq<TraceEntry>>, i: nat, k: nat)
    requires i < cfg.cores && k < cfg.NumSets()
    ensures Start(cfg, traces).sys.caches[i][k] == EMPTY && LruSet(cfg.assoc, EMPTY, [])
  {
  }

  /** In every state of a Dragon run every set is within capacity, and its list holds exactly the
      resident tags, in the order of their last touches. */
  lemma {:induction false} DragonRecency(cfg: Config, traces: seq<seq<TraceEntry>>, states: seq<Sim>, fired: seq<Event>,
                                         i: nat, k: nat, n: nat)
    requires IsRun(cfg, traces, states, fired) && n <= |fired| && cfg.protocol == Dragon
    requires i < cfg.cores && k < cfg.NumSets()
    ensures InRecencyOrder(cfg, states, fired, i, k, n)
  {
    if n == 0 {
      StartsExact(cfg, traces, i, k);
    } else {
      DragonRecency(cfg, traces, states, fired, i, k, n - 1);
      RunLruStep(cfg, traces, states, fired, i, k, n - 1);
    }
  }

  /** The line a Dragon set would evict was touched less recently than every other resident line,
      and no resident line is Invalid. */
  lemma DragonVictim(cfg: Config, traces: seq<seq<TraceEntry>>, states: seq<Sim>, fired: seq<Event>,
                     n: nat, i: nat, k: nat, t: nat)
    requires IsRun(cfg, traces, states, fired) && n <= |fired| && cfg.protocol == Dragon
    requires i < cfg.cores && k < cfg.NumSets()
    ensures WellFormed(cfg, states[n])
    ensures var cs, log := states[n].sys.caches[i][k], TouchLog(cfg, states, fired, i, k, n);
            && (Full(cfg.assoc, cs) ==> |cs.lru| > 0)
            && (t in cs.lines ==> cs.lines[t] != Invalid)
            && (t in cs.lines && Full(cfg.assoc, cs) && t !in Evicted(Dragon, cfg.assoc, cs) ==>
                 LastTouch(log, cs.lru[VictimAt(Dragon, cs)]) < LastTouch(log, t))
  {
    DragonRecency(cfg, traces, states, fired, i, k, n);
    RunInv(cfg, traces, states, fired, n);
    var cs, log := states[n].sys.caches[i][k], TouchLog(cfg, states, fired, i, k, n);
    assert At(states[n].sys.caches, i, k);
    FullIsListed(cfg.assoc, cs);
    if t in cs.lines && Full(cfg.assoc, cs) && t !in Evicted(Dragon, cfg.assoc, cs) {
      VictimLeastRecent(cfg.assoc, cs, log, t);
    }
  }
}
