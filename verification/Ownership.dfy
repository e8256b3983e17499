/**
 Conservation of dirty ownership.  A block is owned when some core holds it dirty.
 For every protocol a step ends the ownership of exactly the block whose dirty line
 was evicted (and counted as a writeback), or of the block whose owner supplied a
 read and went clean; MOESI and Dragon owners never do the latter.
 */
module Ownership {
  import opened Defs
  import opened CacheSets
  import opened Protocols
  import opened Simulation
  import opened Safety

  /** The blocks (set index, tag) that some core holds dirty. */
  ghost function OwnedBlocks(p: Protocol, c: Caches): set<(nat, nat)> {
    set i: nat, k: nat, t: nat | i < |c| && k < |c[i]| && t in c[i][k].lines && Dirty(p, c[i][k].lines[t]) :: (k, t)
  }

  ghost predicate HasOwner(p: Protocol, c: Caches, k: nat, t: nat) {
    exists i: nat :: At(c, i, k) && Dirty(p, StateAt(c, i, k, t))
  }

  lemma OwnedIff(p: Protocol, c: Caches, k: nat, t: nat)
    ensures (k, t) in OwnedBlocks(p, c) <==> HasOwner(p, c, k, t)
  {
    if HasOwner(p, c, k, t) {
      var i: nat :| At(c, i, k) && Dirty(p, StateAt(c, i, k, t));
      assert t in c[i][k].lines;
    }
    if (k, t) in OwnedBlocks(p, c) {
      var i: nat, k': nat, t': nat :| i < |c| && k' < |c[i]| && t' in c[i][k'].lines
        && Dirty(p, c[i][k'].lines[t']) && (k', t') == (k, t);
      assert At(c, i, k) && Dirty(p, StateAt(c, i, k, t));
    }
  }

  predicate KeepsDirty(p: Protocol) {
    p == Moesi || p == Dragon
  }

  /** A read from another core makes the owner clean, without a counted writeback (never in MOESI and Dragon). */
  ghost predicate CleansOwner(cfg: Config, c: Caches, r: BusRequest) {
    r.op == BusRd && !KeepsDirty(cfg.protocol)
    && HasOwner(cfg.protocol, c, cfg.SetIndex(r.addr), cfg.Tag(r.addr))
  }

  /** The blocks whose ownership a transaction ends. */
  ghost function Relinquished(cfg: Config, c: Caches, r: BusRequest): set<(nat, nat)>
    requires Shaped(cfg, c) && r.core < cfg.cores
    requires !BusFaults(cfg, c, r.core, r.op, cfg.SetIndex(r.addr), cfg.Tag(r.addr))
  {
    var k, t := cfg.SetIndex(r.addr), cfg.Tag(r.addr);
    (if EvictsDirty(cfg, c, r.core, r.op, k, t)
     then var cs := c[r.core][k]; {(k, cs.lru[VictimAt(cfg.protocol, cs)])} else {})
    + (if CleansOwner(cfg, c, r) then {(k, t)} else {})
  }

  lemma StateCases(cfg: Config, c: Caches, r: BusRequest, i: nat, k': nat, t': nat)
    requires Shaped(cfg, c) && r.core < cfg.cores && Matches(cfg, c, r) && At(c, i, k')
    requires !BusFaults(cfg, c, r.core, r.op, cfg.SetIndex(r.addr), cfg.Tag(r.addr))
    ensures var p, k, t := cfg.protocol, cfg.SetIndex(r.addr), cfg.Tag(r.addr);
            var d, shared := BusCaches(cfg, c, r.core, r.op, k, t), SharedSignal(c, r.core, k, t);
            && Shaped(cfg, d)
            && StateAt(d, i, k', t') ==
                 if k' == k && t' == t then
                   (if i != r.core then Snoop(p, r.op, StateAt(c, i, k, t))
                    else if r.op == BusUpgr then Upgraded(p, shared) else Fill(p, r.op, shared))
                 else if i == r.core && k' == k && r.op != BusUpgr && t' in Evicted(p, cfg.assoc, c[i][k]) then Invalid
                 else StateAt(c, i, k', t')
  {
    var k, t := cfg.SetIndex(r.addr), cfg.Tag(r.addr);
    TransactionEffect(cfg, c, r.core, r.op, k, t, i, k', t');
  }

  /** The line of the transaction: owned afterwards if it is written, or if it was owned and stays so. */
  lemma LineOwner(cfg: Config, c: Caches, r: BusRequest)
    requires Shaped(cfg, c) && r.core < cfg.cores && Matches(cfg, c, r) && AllLegal(cfg.protocol, c)
    requires !BusFaults(cfg, c, r.core, r.op, cfg.SetIndex(r.addr), cfg.Tag(r.addr))
    ensures var p, k, t := cfg.protocol, cfg.SetIndex(r.addr), cfg.Tag(r.addr);
            HasOwner(p, BusCaches(cfg, c, r.core, r.op, k, t), k, t)
            <==> r.op != BusRd || (HasOwner(p, c, k, t) && !CleansOwner(cfg, c, r))
  {
    var p, k, t := cfg.protocol, cfg.SetIndex(r.addr), cfg.Tag(r.addr);
    var d := BusCaches(cfg, c, r.core, r.op, k, t);
    StateCases(cfg, c, r, r.core, k, t);
    assert At(d, r.core, k) && Legal(p, StateAt(c, r.core, k, t));
    if r.op != BusRd {
      assert Dirty(p, StateAt(d, r.core, k, t));
    } else {
      if HasOwner(p, c, k, t) && KeepsDirty(p) {
        var i: nat :| At(c, i, k) && Dirty(p, StateAt(c, i, k, t));
        LineDirty(cfg, c, r, i);
      }
      if HasOwner(p, d, k, t) {
        var i: nat :| At(d, i, k) && Dirty(p, StateAt(d, i, k, t));
        LineDirty(cfg, c, r, i);
      }
    }
  }

  /** A read keeps a line dirty exactly where it was dirty, in the protocols that keep owners dirty. */
  lemma LineDirty(cfg: Config, c: Caches, r: BusRequest, i: nat)
    requires Shaped(cfg, c) && r.core < cfg.cores && Matches(cfg, c, r) && AllLegal(cfg.protocol, c)
    requires !BusFaults(cfg, c, r.core, r.op, cfg.SetIndex(r.addr), cfg.Tag(r.addr))
    requires r.op == BusRd && i < cfg.cores
    ensures var p, k, t := cfg.protocol, cfg.SetIndex(r.addr), cfg.Tag(r.addr);
            var d := BusCaches(cfg, c, r.core, r.op, k, t);
            At(c, i, k) && At(d, i, k)
            && (Dirty(p, StateAt(d, i, k, t)) <==> Dirty(p, StateAt(c, i, k, t)) && KeepsDirty(p))
  {
    var p, k, t := cfg.protocol, cfg.SetIndex(r.addr), cfg.Tag(r.addr);
    StateCases(cfg, c, r, i, k, t);
    assert At(c, i, k) && Legal(p, StateAt(c, i, k, t));
  }

  /** Every other line keeps its owner, unless the owner is the requester and evicts it. */
  lemma OtherOwner(cfg: Config, c: Caches, r: BusRequest, k': nat, t': nat)
    requires Shaped(cfg, c) && r.core < cfg.cores && Matches(cfg, c, r) && Coherent(cfg.protocol, c)
    requires !BusFaults(cfg, c, r.core, r.op, cfg.SetIndex(r.addr), cfg.Tag(r.addr))
    requires !(k' == cfg.SetIndex(r.addr) && t' == cfg.Tag(r.addr))
    ensures var p, k, t := cfg.protocol, cfg.SetIndex(r.addr), cfg.Tag(r.addr);
            HasOwner(p, BusCaches(cfg, c, r.core, r.op, k, t), k', t')
            <==> HasOwner(p, c, k', t') && (k', t') !in Relinquished(cfg, c, r)
  {
    var p, k, t := cfg.protocol, cfg.SetIndex(r.addr), cfg.Tag(r.addr);
    var d := BusCaches(cfg, c, r.core, r.op, k, t);
    StateCases(cfg, c, r, r.core, k, t);
    if HasOwner(p, d, k', t') {
      var i: nat :| At(d, i, k') && Dirty(p, StateAt(d, i, k', t'));
      StateCases(cfg, c, r, i, k', t');
      assert At(c, i, k') && Dirty(p, StateAt(c, i, k', t'));
      assert i != r.core && k' == k ==> Compatible(p, StateAt(c, r.core, k, t'), StateAt(c, i, k, t'));
    }
    if HasOwner(p, c, k', t') && (k', t') !in Relinquished(cfg, c, r) {
      var i: nat :| At(c, i, k') && Dirty(p, StateAt(c, i, k', t'));
      StateCases(cfg, c, r, i, k', t');
      assert At(d, i, k') && Dirty(p, StateAt(d, i, k', t'));
    }
  }

  /** A transaction ends the ownership of exactly the relinquished blocks. */
  lemma BusRelinquishes(cfg: Config, c: Caches, r: BusRequest)
    requires Shaped(cfg, c) && r.core < cfg.cores && Matches(cfg, c, r)
    requires AllLegal(cfg.protocol, c) && Coherent(cfg.protocol, c)
    requires !BusFaults(cfg, c, r.core, r.op, cfg.SetIndex(r.addr), cfg.Tag(r.addr))
    ensures var p, k, t := cfg.protocol, cfg.SetIndex(r.addr), cfg.Tag(r.addr);
            OwnedBlocks(p, c) - OwnedBlocks(p, BusCaches(cfg, c, r.core, r.op, k, t)) == Relinquished(cfg, c, r)
  {
    var p, k, t := cfg.protocol, cfg.SetIndex(r.addr), cfg.Tag(r.addr);
    var d := BusCaches(cfg, c, r.core, r.op, k, t);
    forall b: (nat, nat)
      ensures b in OwnedBlocks(p, c) - OwnedBlocks(p, d) <==> b in Relinquished(cfg, c, r)
    {
      OwnedIff(p, c, b.0, b.1);
      OwnedIff(p, d, b.0, b.1);
      if b == (k, t) {
        LineOwner(cfg, c, r);
        VictimIsOther(cfg, c, r);
      } else {
        OtherOwner(cfg, c, r, b.0, b.1);
        VictimWasOwned(cfg, c, r);
      }
    }
  }

  lemma VictimIsOther(cfg: Config, c: Caches, r: BusRequest)
    requires Shaped(cfg, c) && r.core < cfg.cores && Matches(cfg, c, r)
    requires !BusFaults(cfg, c, r.core, r.op, cfg.SetIndex(r.addr), cfg.Tag(r.addr))
    ensures (cfg.SetIndex(r.addr), cfg.Tag(r.addr)) in Relinquished(cfg, c, r) <==> CleansOwner(cfg, c, r)
  {
  }

  lemma VictimWasOwned(cfg: Config, c: Caches, r: BusRequest)
    requires Shaped(cfg, c) && r.core < cfg.cores && Matches(cfg, c, r)
    requires !BusFaults(cfg, c, r.core, r.op, cfg.SetIndex(r.addr), cfg.Tag(r.addr))
    ensures forall b :: b in Relinquished(cfg, c, r) ==> HasOwner(cfg.protocol, c, b.0, b.1)
  {
    var k := cfg.SetIndex(r.addr);
    if EvictsDirty(cfg, c, r.core, r.op, k, cfg.Tag(r.addr)) {
      var cs := c[r.core][k];
      assert At(c, r.core, k) && Dirty(cfg.protocol, StateAt(c, r.core, k, cs.lru[VictimAt(cfg.protocol, cs)]));
    }
  }

  /** How many of the relinquished blocks were written back, and how many cleaned by a read. */
  lemma RelinquishedSize(cfg: Config, c: Caches, r: BusRequest)
    requires Shaped(cfg, c) && r.core < cfg.cores && Matches(cfg, c, r)
    requires !BusFaults(cfg, c, r.core, r.op, cfg.SetIndex(r.addr), cfg.Tag(r.addr))
    ensures |Relinquished(cfg, c, r)|
            == (if EvictsDirty(cfg, c, r.core, r.op, cfg.SetIndex(r.addr), cfg.Tag(r.addr)) then 1 else 0)
               + (if CleansOwner(cfg, c, r) then 1 else 0)
  {
    VictimIsOther(cfg, c, r);
  }

  /** A processor request never ends an ownership. */
  lemma RequestRelinquishesNone(cfg: Config, c: Caches, id: nat, addr: Uint32, isWrite: bool)
    requires Shaped(cfg, c) && id < cfg.cores && AllLegal(cfg.protocol, c)
    ensures OwnedBlocks(cfg.protocol, c)
            <= OwnedBlocks(cfg.protocol, RequestCaches(cfg, c, id, cfg.SetIndex(addr), cfg.Tag(addr), isWrite))
  {
    var p, k, t := cfg.protocol, cfg.SetIndex(addr), cfg.Tag(addr);
    var d := RequestCaches(cfg, c, id, k, t, isWrite);
    RequestEffect(cfg, c, id, k, t, isWrite);
    forall b | b in OwnedBlocks(p, c)
      ensures b in OwnedBlocks(p, d)
    {
      OwnedIff(p, c, b.0, b.1);
      OwnedIff(p, d, b.0, b.1);
      var i: nat :| At(c, i, b.0) && Dirty(p, StateAt(c, i, b.0, b.1));
      assert Legal(p, StateAt(c, i, b.0, b.1));
      assert At(d, i, b.0) && Dirty(p, StateAt(d, i, b.0, b.1));
    }
  }

  // ----- over runs -----

  ghost function DirtyBlocks(cfg: Config, s: Sim): set<(nat, nat)> {
    OwnedBlocks(cfg.protocol, s.sys.caches)
  }

  /** Did firing `e` let a read clean a dirty owner? */
  ghost predicate Cleans(cfg: Config, s: Sim, e: Event) {
    WellFormed(cfg, s) && e.Arbitrate? && !s.busy && s.queue != []
    && CleansOwner(cfg, s.sys.caches, s.queue[Winner(cfg.readPriority, s.queue)])
  }

  /** One step: the ownerships it ends are the writebacks it counts plus the owners it cleans. */
  lemma StepConserves(cfg: Config, s: Sim, e: Event, s': Sim)
    requires cfg.Valid() && IsStep(cfg, s, e, s') && MemoryInv(cfg, s)
    ensures |DirtyBlocks(cfg, s) - DirtyBlocks(cfg, s')|
            == s'.sys.global.busWritebacks - s.sys.global.busWritebacks + (if Cleans(cfg, s, e) then 1 else 0)
  {
    if e.Fetch? {
      FetchConserves(cfg, s, e, s');
    } else if e.Arbitrate? && !s.busy && s.queue != [] {
      ArbitrateConserves(cfg, s, e, s');
    } else {
      QuietConserves(cfg, s, e, s');
    }
  }

  lemma FetchConserves(cfg: Config, s: Sim, e: Event, s': Sim)
    requires IsStep(cfg, s, e, s') && MemoryInv(cfg, s) && e.Fetch?
    ensures |DirtyBlocks(cfg, s) - DirtyBlocks(cfg, s')| == 0 && s'.sys.global == s.sys.global && !Cleans(cfg, s, e)
  {
    assert s' == FireFetch(cfg, s, e);
    FetchKeepsOwned(cfg, s, e);
  }

  lemma QuietConserves(cfg: Config, s: Sim, e: Event, s': Sim)
    requires IsStep(cfg, s, e, s') && !e.Fetch? && !(e.Arbitrate? && !s.busy && s.queue != [])
    ensures |DirtyBlocks(cfg, s) - DirtyBlocks(cfg, s')| == 0 && s'.sys.global == s.sys.global && !Cleans(cfg, s, e)
  {
    NothingEnds(cfg, s, s');
  }

  lemma ArbitrateConserves(cfg: Config, s: Sim, e: Event, s': Sim)
    requires cfg.Valid() && IsStep(cfg, s, e, s') && MemoryInv(cfg, s) && e.Arbitrate? && !s.busy && s.queue != []
    ensures |DirtyBlocks(cfg, s) - DirtyBlocks(cfg, s')|
            == s'.sys.global.busWritebacks - s.sys.global.busWritebacks + (if Cleans(cfg, s, e) then 1 else 0)
  {
    var w := Winner(cfg.readPriority, s.queue);
    assert s' == Grant(cfg, s, e, w);
    GrantConserves(cfg, s, e, w);
  }

  lemma NothingEnds(cfg: Config, s: Sim, s': Sim)
    requires s'.sys.caches == s.sys.caches
    ensures |DirtyBlocks(cfg, s) - DirtyBlocks(cfg, s')| == 0
  {
    assert DirtyBlocks(cfg, s) - DirtyBlocks(cfg, s') == {};
  }

  lemma SubsetEnds<T>(a: set<T>, b: set<T>)
    requires a <= b
    ensures |a - b| == 0
  {
    assert a - b == {};
  }

  lemma GrantConserves(cfg: Config, s: Sim, e: Event, w: nat)
    requires WellFormed(cfg, s) && MemoryInv(cfg, s) && w < |s.queue| && !GrantFaults(cfg, s, w)
    ensures var s' := Grant(cfg, s, e, w);
            |DirtyBlocks(cfg, s) - DirtyBlocks(cfg, s')|
            == s'.sys.global.busWritebacks - s.sys.global.busWritebacks
               + (if CleansOwner(cfg, s.sys.caches, s.queue[w]) then 1 else 0)
  {
    var r := s.queue[w];
    assert Matches(cfg, s.sys.caches, r);
    BusRelinquishes(cfg, s.sys.caches, r);
    RelinquishedSize(cfg, s.sys.caches, r);
  }

  lemma FetchKeepsOwned(cfg: Config, s: Sim, e: Event)
    requires WellFormed(cfg, s) && e in s.events && e.Fetch? && MemoryInv(cfg, s)
    ensures |DirtyBlocks(cfg, s) - DirtyBlocks(cfg, FireFetch(cfg, s, e))| == 0
    ensures FireFetch(cfg, s, e).sys.global == s.sys.global
  {
    var c, s' := e.core, FireFetch(cfg, s, e);
    if !s.blocked[c] && s.traces[c] != [] && s.traces[c][0].kind != 2 {
      RequestRelinquishesNone(cfg, s.sys.caches, c, s.traces[c][0].val, s.traces[c][0].kind == 1);
      SubsetEnds(DirtyBlocks(cfg, s), DirtyBlocks(cfg, s'));
    } else {
      NothingEnds(cfg, s, s');
    }
  }

  /** `d` lists the dirty blocks of every state of a run. */
  ghost predicate DirtyAt(cfg: Config, states: seq<Sim>, d: seq<set<(nat, nat)>>, j: nat) {
    j < |states| && j < |d| && d[j] == DirtyBlocks(cfg, states[j])
  }

  ghost predicate IsDirtyHistory(cfg: Config, states: seq<Sim>, d: seq<set<(nat, nat)>>) {
    |d| == |states| && forall j: nat :: j < |d| ==> DirtyAt(cfg, states, d, j)
  }

  /** How often an element entered a set in the first `n` steps of its history. */
  ghost function Entered<T>(d: seq<set<T>>, n: nat): nat
    requires n < |d|
  {
    if n == 0 then 0 else Entered(d, n - 1) + |d[n] - d[n - 1]|
  }

  /** How often a read cleaned a dirty owner in the first `n` steps. */
  ghost function Cleaned(cfg: Config, states: seq<Sim>, fired: seq<Event>, n: nat): nat
    requires n <= |fired| && |states| == |fired| + 1
  {
    if n == 0 then 0
    else Cleaned(cfg, states, fired, n - 1) + (if Cleans(cfg, states[n - 1], fired[n - 1]) then 1 else 0)
  }

  lemma SetChange<T>(a: set<T>, b: set<T>)
    ensures |b| == |a| + |b - a| - |a - b|
  {
    assert a == (a * b) + (a - b);
    assert b == (a * b) + (b - a);
  }
}
