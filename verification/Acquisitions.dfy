/**
 Which steps make a block dirty: the stores that complete on a block that no core
 holds dirty.  Together with `Ownership` this accounts for every store.
 */
module Acquisitions {
  import opened Defs
  import opened Protocols
  import opened Simulation
  import opened Safety
  import opened Ownership
  import opened Runs
  import opened Tables
  import opened RunTables

  ghost predicate HeldDirty(c: Caches, k: nat, t: nat) {
    exists i: nat :: At(c, i, k) && StateAt(c, i, k, t) in {Modified, Owned, SharedModified}
  }

  lemma OwnersHoldDirty(p: Protocol, c: Caches, k: nat, t: nat)
    requires AllLegal(p, c)
    ensures HasOwner(p, c, k, t) <==> HeldDirty(c, k, t)
  {
    forall i: nat | At(c, i, k)
      ensures Dirty(p, StateAt(c, i, k, t)) <==> StateAt(c, i, k, t) in {Modified, Owned, SharedModified}
    {
      assert Legal(p, StateAt(c, i, k, t));
      DirtyStates(p, StateAt(c, i, k, t));
    }
  }

  /** A write hit on a block that nobody holds dirty. */
  ghost predicate StoreHits(cfg: Config, s: Sim, e: Event) {
    && e.Fetch? && e.core < |s.traces| && s.traces[e.core] != []
    && var entry := s.traces[e.core][0];
    var k, t := cfg.SetIndex(entry.val), cfg.Tag(entry.val);
    && Accesses(s, e, entry) && entry.kind == 1 && At(s.sys.caches, e.core, k)
    && StateAt(s.sys.caches, e.core, k, t) in {Exclusive, Modified} && !HeldDirty(s.sys.caches, k, t)
  }

  /** A write miss or an upgrade granted on a block that nobody holds dirty. */
  ghost predicate StoreGranted(cfg: Config, s: Sim, s': Sim) {
    exists r: BusRequest :: r in s.queue && r !in s'.queue && StoreFor(cfg, s, r)
  }

  ghost predicate StoreFor(cfg: Config, s: Sim, r: BusRequest) {
    r.op in {BusRdX, BusUpgr} && !HeldDirty(s.sys.caches, cfg.SetIndex(r.addr), cfg.Tag(r.addr))
  }

  // ----- one step -----

  lemma GainedByGrant(cfg: Config, c: Caches, r: BusRequest)
    requires Shaped(cfg, c) && r.core < cfg.cores && Matches(cfg, c, r)
    requires AllLegal(cfg.protocol, c) && Coherent(cfg.protocol, c)
    requires !BusFaults(cfg, c, r.core, r.op, cfg.SetIndex(r.addr), cfg.Tag(r.addr))
    ensures var p, k, t := cfg.protocol, cfg.SetIndex(r.addr), cfg.Tag(r.addr);
            OwnedBlocks(p, BusCaches(cfg, c, r.core, r.op, k, t)) - OwnedBlocks(p, c)
            == if r.op != BusRd && !HeldDirty(c, k, t) then {(k, t)} else {}
  {
    var p, k, t := cfg.protocol, cfg.SetIndex(r.addr), cfg.Tag(r.addr);
    var d := BusCaches(cfg, c, r.core, r.op, k, t);
    forall b: (nat, nat)
      ensures b in OwnedBlocks(p, d) - OwnedBlocks(p, c) <==> b == (k, t) && r.op != BusRd && !HeldDirty(c, k, t)
    {
      OwnedIff(p, c, b.0, b.1);
      OwnedIff(p, d, b.0, b.1);
      if b == (k, t) {
        OwnersHoldDirty(p, c, k, t);
        LineOwner(cfg, c, r);
      } else {
        OtherOwner(cfg, c, r, b.0, b.1);
      }
    }
  }

  lemma GainedByRequest(cfg: Config, c: Caches, id: nat, addr: Uint32, isWrite: bool)
    requires Shaped(cfg, c) && id < cfg.cores && AllLegal(cfg.protocol, c)
    ensures var p, k, t := cfg.protocol, cfg.SetIndex(addr), cfg.Tag(addr);
            OwnedBlocks(p, RequestCaches(cfg, c, id, k, t, isWrite)) - OwnedBlocks(p, c)
            == if isWrite && StateAt(c, id, k, t) in {Exclusive, Modified} && !HeldDirty(c, k, t) then {(k, t)} else {}
  {
    var p, k, t := cfg.protocol, cfg.SetIndex(addr), cfg.Tag(addr);
    var d := RequestCaches(cfg, c, id, k, t, isWrite);
    RequestEffect(cfg, c, id, k, t, isWrite);
    assert At(c, id, k) && Legal(p, StateAt(c, id, k, t));
    RequestStates(cfg, c, id, k, t, isWrite);
    OwnersHoldDirty(p, c, k, t);
    var stored := isWrite && StateAt(c, id, k, t) in {Exclusive, Modified};
    forall b: (nat, nat)
      ensures b in OwnedBlocks(p, d) - OwnedBlocks(p, c) <==> b == (k, t) && stored && !HeldDirty(c, k, t)
    {
      OwnedIff(p, c, b.0, b.1);
      OwnedIff(p, d, b.0, b.1);
      if b == (k, t) && stored {
        assert At(d, id, k) && Dirty(p, StateAt(d, id, k, t));
      }
      if HasOwner(p, d, b.0, b.1) && !(b == (k, t) && stored) {
        var i: nat :| At(d, i, b.0) && Dirty(p, StateAt(d, i, b.0, b.1));
        assert At(c, i, b.0) && Dirty(p, StateAt(c, i, b.0, b.1));
      }
    }
  }

  lemma StepGains(cfg: Config, traces: seq<seq<TraceEntry>>, states: seq<Sim>, fired: seq<Event>, n: nat)
    requires IsRun(cfg, traces, states, fired) && n < |fired|
    ensures |DirtyBlocks(cfg, states[n + 1]) - DirtyBlocks(cfg, states[n])|
            == if StoreHits(cfg, states[n], fired[n]) || StoreGranted(cfg, states[n], states[n + 1]) then 1 else 0
  {
    var s, s', e := states[n], states[n + 1], fired[n];
    RunInv(cfg, traces, states, fired, n);
    OtherSteps(cfg, traces, states, fired, n);
    if e.Arbitrate? && !s.busy && s.queue != [] {
      GrantGains(cfg, traces, states, fired, n);
    } else if e.Fetch? && s.traces[e.core] != [] && s.traces[e.core][0].kind != 2 {
      FetchGains(cfg, traces, states, fired, n, s.traces[e.core][0]);
    } else {
      if e.Fetch? && s.traces[e.core] != [] {
        ComputeSteps(cfg, traces, states, fired, n, s.traces[e.core][0].val);
      }
      assert DirtyBlocks(cfg, s') - DirtyBlocks(cfg, s) == {};
    }
  }

  lemma GrantGainsFor(cfg: Config, s: Sim, e: Event, s': Sim, r: BusRequest, w: nat)
    requires Grants(cfg, s, e, s', r, w) && Coherent(cfg.protocol, s.sys.caches)
    ensures |DirtyBlocks(cfg, s') - DirtyBlocks(cfg, s)| == if StoreFor(cfg, s, r) then 1 else 0
  {
    GainedByGrant(cfg, s.sys.caches, r);
  }

  lemma RunGrantGains(cfg: Config, traces: seq<seq<TraceEntry>>, states: seq<Sim>, fired: seq<Event>, n: nat,
                      r: BusRequest)
    requires IsRun(cfg, traces, states, fired) && n < |fired| && r in states[n].queue && r !in states[n + 1].queue
    ensures |DirtyBlocks(cfg, states[n + 1]) - DirtyBlocks(cfg, states[n])|
            == if StoreFor(cfg, states[n], r) then 1 else 0
  {
    RunInv(cfg, traces, states, fired, n);
    var w := RunGrants(cfg, traces, states, fired, n, r);
    GrantGainsFor(cfg, states[n], fired[n], states[n + 1], r, w);
  }

  lemma GrantGains(cfg: Config, traces: seq<seq<TraceEntry>>, states: seq<Sim>, fired: seq<Event>, n: nat)
    requires IsRun(cfg, traces, states, fired) && n < |fired|
    requires fired[n].Arbitrate? && !states[n].busy && states[n].queue != []
    ensures |DirtyBlocks(cfg, states[n + 1]) - DirtyBlocks(cfg, states[n])|
            == if StoreGranted(cfg, states[n], states[n + 1]) then 1 else 0
  {
    if r: BusRequest :| r in states[n].queue && r !in states[n + 1].queue && StoreFor(cfg, states[n], r) {
      RunGrantGains(cfg, traces, states, fired, n, r);
    } else {
      var r := ArbitrationGrants(cfg, traces, states, fired, n);
      assert !StoreFor(cfg, states[n], r);
      RunGrantGains(cfg, traces, states, fired, n, r);
    }
  }

  lemma RequestGains(cfg: Config, s: Sim, e: Event, s': Sim, entry: TraceEntry, op: BusOp)
    requires Requests(cfg, s, e, s', entry, op)
    ensures |DirtyBlocks(cfg, s') - DirtyBlocks(cfg, s)| == if StoreHits(cfg, s, e) then 1 else 0
  {
    RequestedCaches(cfg, s, e, s', entry, op);
    GainedByRequest(cfg, s.sys.caches, e.core, entry.val, entry.kind == 1);
  }

  lemma FetchGains(cfg: Config, traces: seq<seq<TraceEntry>>, states: seq<Sim>, fired: seq<Event>, n: nat,
                   entry: TraceEntry)
    requires IsRun(cfg, traces, states, fired) && n < |fired| && Accesses(states[n], fired[n], entry)
    ensures |DirtyBlocks(cfg, states[n + 1]) - DirtyBlocks(cfg, states[n])|
            == if StoreHits(cfg, states[n], fired[n]) then 1 else 0
    ensures !StoreGranted(cfg, states[n], states[n + 1])
  {
    var op := RunRequests(cfg, traces, states, fired, n, entry);
    RequestGains(cfg, states[n], fired[n], states[n + 1], entry, op);
    RequestedFlow(cfg, states[n], fired[n], states[n + 1], entry, op);
  }

  // ----- over runs -----

  /** How many of the first `n` steps completed a store to a block that nobody held dirty. */
  ghost function StoresCompleted(cfg: Config, states: seq<Sim>, fired: seq<Event>, n: nat): nat
    requires n <= |fired| && |states| == |fired| + 1
  {
    if n == 0 then 0
    else
      StoresCompleted(cfg, states, fired, n - 1)
      + if StoreHits(cfg, states[n - 1], fired[n - 1]) || StoreGranted(cfg, states[n - 1], states[n]) then 1 else 0
  }

  lemma GainsAt(cfg: Config, traces: seq<seq<TraceEntry>>, states: seq<Sim>, fired: seq<Event>,
                d: seq<set<(nat, nat)>>, n: nat)
    requires IsRun(cfg, traces, states, fired) && IsDirtyHistory(cfg, states, d) && n < |fired|
    ensures |d[n + 1] - d[n]|
            == if StoreHits(cfg, states[n], fired[n]) || StoreGranted(cfg, states[n], states[n + 1]) then 1 else 0
  {
    assert DirtyAt(cfg, states, d, n) && DirtyAt(cfg, states, d, n + 1);
    StepGains(cfg, traces, states, fired, n);
  }

  /** The times a block becomes dirty are the stores completed on a block that no core holds dirty: the write hits of
      the trace, and the write misses and upgrades granted.  (A write miss of Dragon asks for a read and is none.) */
  lemma {:induction false} EntriesAreStores(cfg: Config, traces: seq<seq<TraceEntry>>, states: seq<Sim>,
                                            fired: seq<Event>, d: seq<set<(nat, nat)>>, n: nat)
    requires IsRun(cfg, traces, states, fired) && IsDirtyHistory(cfg, states, d) && n <= |fired|
    ensures Entered(d, n) == StoresCompleted(cfg, states, fired, n)
  {
    if n > 0 {
      EntriesAreStores(cfg, traces, states, fired, d, n - 1);
      GainsAt(cfg, traces, states, fired, d, n - 1);
    }
  }

  /** Every such store is accounted for: by a writeback, by a read that cleaned the owner, or by a block dirty now. */
  lemma StoresAccounted(cfg: Config, traces: seq<seq<TraceEntry>>, states: seq<Sim>, fired: seq<Event>,
                        d: seq<set<(nat, nat)>>, n: nat)
    requires IsRun(cfg, traces, states, fired) && IsDirtyHistory(cfg, states, d) && n <= |fired|
    ensures StoresCompleted(cfg, states, fired, n)
            == states[n].sys.global.busWritebacks + Cleaned(cfg, states, fired, n) + |d[n]|
  {
    EntriesAreStores(cfg, traces, states, fired, d, n);
    OwnershipConserved(cfg, traces, states, fired, d, n);
  }
}
