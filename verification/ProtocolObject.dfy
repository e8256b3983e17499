/**
 The coherence protocol as an object: the caches of all cores, and the statistics it
 shares with the simulator.  Its two handlers compute `ProcessorRequest` and
 `BusTransaction`.
 */
module ProtocolObject {
  import opened Defs
  import opened CacheSets
  import opened CacheSetObjects
  import opened Protocols
  import opened Safety
  import opened Simulation
  import opened Tables

  class CoherenceProtocol {
    const cfg: Config
    const sets: seq<seq<LruCacheSet>>  // sets[i][k] is set k of core i
    var coreStats: seq<CoreStats>
    var globalStats: GlobalStats
    ghost var caches: Caches           // the values of the sets

    ghost function Footprint(): set<LruCacheSet> {
      set i: nat, k: nat | i < |sets| && k < |sets[i]| :: sets[i][k]
    }

    /** The sets are distinct objects of the right shape. */
    ghost predicate Laid() {
      && cfg.Valid() && |sets| == cfg.cores
      && (forall i: nat :: i < |sets| ==> |sets[i]| == cfg.NumSets())
      && (forall i: nat, k: nat, i': nat, k': nat :: Inside(i, k) && Inside(i', k') && sets[i][k] == sets[i'][k'] ==>
            i == i' && k == k')
      && (forall i: nat, k: nat ::
            Inside(i, k) ==> sets[i][k].protocol == cfg.protocol && sets[i][k].assoc == cfg.assoc)
    }

    ghost predicate Inside(i: nat, k: nat) {
      i < |sets| && k < |sets[i]|
    }

    ghost predicate Valid()
      reads this, Footprint()
    {
      && Laid() && Shaped(cfg, caches) && |coreStats| == cfg.cores
      && (forall i: nat, k: nat :: Inside(i, k) ==> sets[i][k].Value() == caches[i][k])
    }

    ghost function Value(): System
      reads this
    {
      System(caches, coreStats, globalStats)
    }

    constructor (cfg: Config)
      requires cfg.Valid()
      ensures Valid() && this.cfg == cfg && fresh(Footprint())
      ensures caches == seq(cfg.cores, _ => seq(cfg.NumSets(), _ => EMPTY))
      ensures coreStats == seq(cfg.cores, _ => ZERO_CORE) && globalStats == ZERO_GLOBAL
    {
      var built: seq<seq<LruCacheSet>> := [];
      while |built| < cfg.cores
        invariant |built| <= cfg.cores
        invariant forall i: nat :: i < |built| ==> |built[i]| == cfg.NumSets()
        invariant forall i: nat, k: nat ::
                    i < |built| && k < |built[i]| ==> fresh(built[i][k]) && FreshSet(cfg, built[i][k])
        invariant forall i: nat, k: nat, i': nat, k': nat ::
          i < |built| && k < |built[i]| && i' < |built| && k' < |built[i']| && built[i][k] == built[i'][k'] ==>
            i == i' && k == k'
      {
        var row := BuildCache(cfg);
        built := built + [row];
      }
      this.cfg := cfg;
      sets := built;
      coreStats := seq(cfg.cores, _ => ZERO_CORE);
      globalStats := ZERO_GLOBAL;
      caches := seq(cfg.cores, _ => seq(cfg.NumSets(), _ => EMPTY));
    }

    /** The simulator counts in the statistics it shares with the protocol. */
    method StoreStats(c: nat, cs: CoreStats)
      requires Valid() && c < cfg.cores
      modifies this`coreStats
      ensures Valid() && coreStats == old(coreStats)[c := cs]
    {
      coreStats := coreStats[c := cs];
    }

    /** Is line (k, t) of core `i` valid?  Looking it up moves it to the front of its list. */
    method GetLine(i: nat, k: nat, t: nat) returns (found: bool, state: LineState)
      requires Valid() && Inside(i, k)
      modifies this`caches, sets[i][k]
      ensures Valid()
      ensures caches == old(caches)[i := old(caches)[i][k := Find(old(caches)[i][k], t)]]
      ensures found == (t in old(caches)[i][k].lines) && state == old(caches)[i][k].StateOf(t)
    {
      found := sets[i][k].FindLine(t);
      state := if found then sets[i][k].lines[t] else Invalid;
      caches := caches[i := caches[i][k := Find(caches[i][k], t)]];
    }

    method Assign(i: nat, k: nat, t: nat, state: LineState)
      requires Valid() && Inside(i, k) && t in caches[i][k].lines
      modifies this`caches, sets[i][k]
      ensures Valid()
      ensures caches == old(caches)[i := old(caches)[i][k := SetState(old(caches)[i][k], t, state)]]
    {
      assert sets[i][k].Value() == caches[i][k];
      sets[i][k].AssignState(t, state);
      caches := caches[i := caches[i][k := SetState(caches[i][k], t, state)]];
    }

    /** The core wants to access its cache: NoOp is a hit, any other answer is the bus action it needs. */
    method HandleProcessorRequest(id: nat, addr: Uint32, isWrite: bool) returns (op: BusOp)
      requires Valid() && id < cfg.cores
      modifies this, Footprint()
      ensures Valid()
      ensures op == RequestOp(cfg, old(caches), id, cfg.SetIndex(addr), cfg.Tag(addr), isWrite)
      ensures Value() == ProcessorRequest(cfg, old(Value()), id, addr, isWrite)
      ensures var k, t := cfg.SetIndex(addr), cfg.Tag(addr);
              var a := StateAt(old(caches), id, k, t);
              Legal(cfg.protocol, a) ==> RequestTable(cfg.protocol, isWrite, a, op, StateAt(caches, id, k, t))
    {
      RequestServed(cfg, caches, id, cfg.SetIndex(addr), cfg.Tag(addr), isWrite);
      var k, t := cfg.SetIndex(addr), cfg.Tag(addr);
      assert Inside(id, k);
      ghost var cs0 := caches[id][k];
      RewriteTwice(caches, id, k, Find(cs0, t), SetState(Find(cs0, t), t, Modified));
      SameLine(Find(cs0, t), t);
      var found, state := GetLine(id, k, t);
      if !found || state == Invalid {
        return if cfg.protocol == Dragon || !isWrite then BusRd else BusRdX;
      }
      if isWrite {
        if IsShared(cfg.protocol, state) {
          return BusUpgr;
        }
        if cfg.protocol != Dragon || state == Exclusive {
          Assign(id, k, t, Modified);
          state := Modified;
        }
      }
      var cs := coreStats[id];
      coreStats := coreStats[id := if IsShared(cfg.protocol, state)
                                   then cs.(sharedAccesses := cs.sharedAccesses + 1)
                                   else cs.(privateAccesses := cs.privateAccesses + 1)];
      op := NoOp;
    }

    /** The snoop loop: every other core sees the transaction. */
    method SnoopOthers(req: nat, op: BusOp, k: nat, t: nat) returns (shared: bool, supplier: bool)
      requires Valid() && req < cfg.cores && k < cfg.NumSets()
      modifies this, Footprint()
      ensures Valid()
      ensures Value() == SnoopedSystem(cfg, old(Value()), req, op, k, t, cfg.cores)
      ensures shared == SharedSignal(old(caches), req, k, t)
      ensures supplier == SupplierFound(cfg.protocol, old(caches), req, k, t)
    {
      ghost var s := Value();
      shared, supplier := VisitAll(s, req, op, k, t);
      SnoopedAll(cfg, s, req, op, k, t, Value(), shared, supplier);
    }

    method VisitAll(ghost s: System, req: nat, op: BusOp, k: nat, t: nat) returns (shared: bool, supplier: bool)
      requires Valid() && s == Value() && req < cfg.cores && k < cfg.NumSets()
      modifies this, Footprint()
      ensures Valid() && SnoopLoop(cfg, s, req, op, k, t, cfg.cores, Value(), shared, supplier)
    {
      shared, supplier := false, false;
      var i := 0;
      SnoopedNone(cfg, s, req, op, k, t);
      while i < cfg.cores
        invariant i <= cfg.cores && Valid()
        invariant SnoopLoop(cfg, s, req, op, k, t, i, Value(), shared, supplier)
      {
        shared, supplier := VisitCore(s, i, req, op, k, t, shared, supplier);
        i := i + 1;
      }
      assert i == cfg.cores;
    }

    /** One turn of the snoop loop that began in `s`. */
    method VisitCore(ghost s: System, i: nat, req: nat, op: BusOp, k: nat, t: nat, shared: bool, supplier: bool)
      returns (shared': bool, supplier': bool)
      requires Valid() && Shaped(cfg, s.caches) && |s.cores| == cfg.cores
      requires req < cfg.cores && i < cfg.cores && k < cfg.NumSets()
      requires SnoopLoop(cfg, s, req, op, k, t, i, Value(), shared, supplier)
      modifies this, Footprint()
      ensures Valid() && SnoopLoop(cfg, s, req, op, k, t, i + 1, Value(), shared', supplier')
    {
      SnoopedNext(cfg, s, req, op, k, t, i);
      BelowNext(cfg.protocol, s.caches, req, k, t, i);
      shared', supplier' := shared, supplier;
      if i != req {
        assert Inside(i, k);
        var state := SnoopCore(i, req, op, k, t);
        shared' := shared || state != Invalid;
        supplier' := supplier || Supplies(cfg.protocol, state);
      }
    }

    /** One core snoops: its line changes state, and an invalidation (or update) is counted. */
    method SnoopCore(i: nat, req: nat, op: BusOp, k: nat, t: nat) returns (state: LineState)
      requires Valid() && req < cfg.cores && i < cfg.cores && i != req && k < cfg.NumSets()
      modifies this, sets[i][k]
      ensures Valid()
      ensures state == old(caches)[i][k].StateOf(t)
      ensures Value() == SnoopOne(cfg, old(Value()), i, req, op, k, t)
    {
      ghost var cs0 := caches[i][k];
      RewriteTwice(caches, i, k, Find(cs0, t), SnoopSet(cfg.protocol, op, cs0, t));
      SameLine(Find(cs0, t), t);
      var found;
      found, state := GetLine(i, k, t);
      if found && state != Invalid {
        Assign(i, k, t, Snoop(cfg.protocol, op, state));
        if CountsSnoop(cfg.protocol, op) {
          CountReceived(i, req);
        }
      }
    }

    /** Count an invalidation (for Dragon: an update) that core `i` received from core `req`. */
    method CountReceived(i: nat, req: nat)
      requires i < |coreStats| && req < |coreStats| && i != req
      modifies this`coreStats, this`globalStats
      ensures coreStats == CountSnoop(cfg.protocol, old(coreStats), i, req, 1)
      ensures globalStats == old(globalStats).(invalidations := old(globalStats).invalidations + 1)
    {
      coreStats := coreStats[i := coreStats[i].(invReceived := coreStats[i].invReceived + 1)];
      if cfg.protocol != Dragon {
        coreStats := coreStats[req := coreStats[req].(invSent := coreStats[req].invSent + 1)];
      }
      globalStats := globalStats.(invalidations := globalStats.invalidations + 1);
    }

    /** A core that won the bus: the others snoop, then the requester's own line is upgraded or filled.
        Returns the cycles the transaction occupies the bus. */
    method HandleBusTransaction(req: nat, op: BusOp, addr: Uint32) returns (latency: nat)
      requires Valid() && req < cfg.cores
      requires !BusFaults(cfg, caches, req, op, cfg.SetIndex(addr), cfg.Tag(addr))
      modifies this, Footprint()
      ensures Valid()
      ensures Value() == BusTransaction(cfg, old(Value()), req, op, addr)
      ensures latency == Latency(cfg, old(caches), req, op, cfg.SetIndex(addr), cfg.Tag(addr))
      ensures var r := BusRequest(req, op, addr, 0);
              Matches(cfg, old(caches), r) && AllLegal(cfg.protocol, old(caches)) ==>
                Served(cfg, old(Value()), r, Value(), latency)
    {
      var k, t := cfg.SetIndex(addr), cfg.Tag(addr);
      ghost var s := Value();
      BusServed(cfg, s, BusRequest(req, op, addr, 0));
      assert Inside(req, k);
      var shared, supplier := SnoopOthers(req, op, k, t);
      assert caches[req] == s.caches[req];
      latency := UpdateRequester(req, op, k, t, shared, supplier);
      TransactionDone(cfg, s, req, op, k, t, Value());
    }

    /** Timing and state update of the requester. */
    method UpdateRequester(req: nat, op: BusOp, k: nat, t: nat, shared: bool, supplier: bool) returns (latency: nat)
      requires Valid() && Inside(req, k) && !BusFaults(cfg, caches, req, op, k, t)
      modifies this, sets[req][k]
      ensures Valid() && coreStats == old(coreStats)
      ensures caches == old(caches)[req := old(caches)[req][k := RequesterSet(cfg, op, old(caches)[req][k], t, shared)]]
      ensures var dirty := EvictsDirty(cfg, old(caches), req, op, k, t);
              && globalStats == CountTransaction(cfg, old(globalStats), op, supplier, dirty)
              && latency == TransactionCycles(cfg, op, supplier, dirty)
    {
      if op == Writeback {
        latency := 100;
        globalStats := globalStats.(busWritebacks := globalStats.busWritebacks + 1,
                                    traffic := globalStats.traffic + cfg.BlockSize());
        assert caches[req][k := caches[req][k]] == caches[req];
        assert caches[req := caches[req]] == caches;
      } else if op == BusUpgr {
        latency := UpgradeLine(req, k, t, shared);
      } else {
        latency := FillTransaction(req, op, k, t, shared, supplier);
      }
    }

    /** The requester's line is filled from another cache or from memory, writing back a dirty victim. */
    method FillTransaction(req: nat, op: BusOp, k: nat, t: nat, shared: bool, supplier: bool) returns (latency: nat)
      requires Valid() && Inside(req, k) && IsFill(op)
      requires Full(cfg.assoc, caches[req][k]) ==> |caches[req][k].lru| > 0
      modifies this, sets[req][k]
      ensures Valid() && coreStats == old(coreStats)
      ensures caches == old(caches)[req := old(caches)[req][k :=
                Allocate(cfg.protocol, cfg.assoc, old(caches)[req][k], t, Fill(cfg.protocol, op, shared))]]
      ensures var dirty := Dirty(cfg.protocol, EvictedState(cfg.protocol, cfg.assoc, old(caches)[req][k]));
              && globalStats == CountFill(cfg, old(globalStats), op, supplier, dirty)
              && latency == (if supplier then TransferCycles(cfg) else 101) + (if dirty then 100 else 0)
    {
      var evicted := FillLine(req, k, t, Fill(cfg.protocol, op, shared));
      latency := CountTransfer(op, supplier, evicted.Some? && Dirty(cfg.protocol, evicted.value));
    }

    /** The cycles and the statistics of a fill, with the write-back of a dirty victim. */
    method CountTransfer(op: BusOp, supplier: bool, dirty: bool) returns (latency: nat)
      modifies this`globalStats
      ensures globalStats == CountFill(cfg, old(globalStats), op, supplier, dirty)
      ensures latency == (if supplier then TransferCycles(cfg) else 101) + (if dirty then 100 else 0)
    {
      latency := if supplier then 1 + 2 * (cfg.BlockSize() / 4) else 101;
      var isRead := cfg.protocol == Dragon || op == BusRd;
      globalStats := globalStats.(cacheToCache := globalStats.cacheToCache + (if supplier then 1 else 0),
                                  traffic := globalStats.traffic + cfg.BlockSize(),
                                  busReads := globalStats.busReads + (if isRead then 1 else 0),
                                  busReadx := globalStats.busReadx + (if isRead then 0 else 1));
      if dirty {
        latency := latency + 100;
        globalStats := globalStats.(busWritebacks := globalStats.busWritebacks + 1,
                                    traffic := globalStats.traffic + cfg.BlockSize());
      }
    }

    /** The requester's line becomes Modified (in Dragon, shared-modified if others hold it). */
    method UpgradeLine(req: nat, k: nat, t: nat, shared: bool) returns (latency: nat)
      requires Valid() && Inside(req, k) && t in caches[req][k].lines
      modifies this, sets[req][k]
      ensures Valid() && coreStats == old(coreStats)
      ensures caches == old(caches)[req := old(caches)[req][k :=
                SetState(Find(old(caches)[req][k], t), t, Upgraded(cfg.protocol, shared))]]
      ensures latency == (if cfg.protocol == Dragon then 2 else 0)
      ensures globalStats == old(globalStats).(busUpgrades := old(globalStats).busUpgrades + 1,
                traffic := old(globalStats).traffic + (if cfg.protocol == Dragon then 4 else 0))
    {
      ghost var cs0 := caches[req][k];
      RewriteTwice(caches, req, k, Find(cs0, t), SetState(Find(cs0, t), t, Upgraded(cfg.protocol, shared)));
      latency := if cfg.protocol == Dragon then 2 else 0;
      globalStats := globalStats.(busUpgrades := globalStats.busUpgrades + 1,
                                  traffic := globalStats.traffic + (if cfg.protocol == Dragon then 4 else 0));
      var found, _ := GetLine(req, k, t);
      Assign(req, k, t, if cfg.protocol == Dragon && shared then SharedModified else Modified);
    }

    /** Allocate the requester's line and give it its state. */
    method FillLine(req: nat, k: nat, t: nat, state: LineState) returns (evicted: Option<LineState>)
      requires Valid() && Inside(req, k)
      requires Full(cfg.assoc, caches[req][k]) ==> |caches[req][k].lru| > 0
      modifies this`caches, sets[req][k]
      ensures Valid()
      ensures caches == old(caches)[req := old(caches)[req][k :=
                Allocate(cfg.protocol, cfg.assoc, old(caches)[req][k], t, state)]]
      ensures evicted == if Full(cfg.assoc, old(caches)[req][k])
                         then Some(EvictedState(cfg.protocol, cfg.assoc, old(caches)[req][k])) else None
    {
      assert sets[req][k].Value() == caches[req][k];
      ghost var cs0 := caches[req][k];
      evicted := sets[req][k].AllocateLine(t);
      sets[req][k].AssignState(t, state);
      assert sets[req][k].Value() == Allocate(cfg.protocol, cfg.assoc, cs0, t, state);
      caches := caches[req := caches[req][k := Allocate(cfg.protocol, cfg.assoc, cs0, t, state)]];
    }
  }

  /** A request for a line in a state of its protocol follows the table. */
  lemma RequestServed(cfg: Config, c: Caches, id: nat, k: nat, t: nat, isWrite: bool)
    requires Shaped(cfg, c) && id < cfg.cores && k < cfg.NumSets()
    ensures var a, d := StateAt(c, id, k, t), RequestCaches(cfg, c, id, k, t, isWrite);
            && At(d, id, k)
            && (Legal(cfg.protocol, a) ==>
                 RequestTable(cfg.protocol, isWrite, a, RequestOp(cfg, c, id, k, t, isWrite), StateAt(d, id, k, t)))
  {
    if Legal(cfg.protocol, StateAt(c, id, k, t)) {
      RequestStates(cfg, c, id, k, t, isWrite);
    }
  }

  /** A transaction of a request that matches the caches follows the tables. */
  lemma BusServed(cfg: Config, s: System, r: BusRequest)
    requires Shaped(cfg, s.caches) && |s.cores| == cfg.cores && r.core < cfg.cores
    requires !BusFaults(cfg, s.caches, r.core, r.op, cfg.SetIndex(r.addr), cfg.Tag(r.addr))
    ensures Matches(cfg, s.caches, r) && AllLegal(cfg.protocol, s.caches) ==>
              Served(cfg, s, r, BusTransaction(cfg, s, r.core, r.op, r.addr),
                     Latency(cfg, s.caches, r.core, r.op, cfg.SetIndex(r.addr), cfg.Tag(r.addr)))
  {
    if Matches(cfg, s.caches, r) && AllLegal(cfg.protocol, s.caches) {
      TransactionServed(cfg, s, r);
    }
  }

  /** What a fill adds to the global statistics. */
  ghost function CountFill(cfg: Config, g: GlobalStats, op: BusOp, supplier: bool, dirty: bool): GlobalStats {
    var isRead := op == BusRd || cfg.protocol == Dragon;
    g.(cacheToCache := g.cacheToCache + (if supplier then 1 else 0),
       busReads := g.busReads + (if isRead then 1 else 0),
       busReadx := g.busReadx + (if isRead then 0 else 1),
       busWritebacks := g.busWritebacks + (if dirty then 1 else 0),
       traffic := g.traffic + cfg.BlockSize() + (if dirty then cfg.BlockSize() else 0))
  }

  /** What a transaction adds to the global statistics, besides invalidations. */
  ghost function CountTransaction(cfg: Config, g: GlobalStats, op: BusOp, supplier: bool, dirty: bool): GlobalStats {
    match op
    case Writeback => g.(busWritebacks := g.busWritebacks + 1, traffic := g.traffic + cfg.BlockSize())
    case BusUpgr =>
      g.(busUpgrades := g.busUpgrades + 1, traffic := g.traffic + (if cfg.protocol == Dragon then 4 else 0))
    case _ => CountFill(cfg, g, op, supplier, dirty)
  }

  ghost function TransactionCycles(cfg: Config, op: BusOp, supplier: bool, dirty: bool): nat {
    match op
    case Writeback => 100
    case BusUpgr => if cfg.protocol == Dragon then 2 else 0
    case _ => (if supplier then TransferCycles(cfg) else 101) + (if dirty then 100 else 0)
  }

  /** The snoop loop followed by the requester's own update is the transaction. */
  lemma TransactionDone(cfg: Config, s: System, req: nat, op: BusOp, k: nat, t: nat, d: System)
    requires Shaped(cfg, s.caches) && |s.cores| == cfg.cores && req < cfg.cores && k < cfg.NumSets()
    requires !BusFaults(cfg, s.caches, req, op, k, t)
    requires var snooped := SnoopedSystem(cfg, s, req, op, k, t, cfg.cores);
             && d.caches == snooped.caches[req := s.caches[req][k :=
                  RequesterSet(cfg, op, s.caches[req][k], t, SharedSignal(s.caches, req, k, t))]]
             && d.cores == snooped.cores
             && d.global == CountTransaction(cfg, snooped.global, op, SupplierFound(cfg.protocol, s.caches, req, k, t),
                                             EvictsDirty(cfg, s.caches, req, op, k, t))
    ensures d == System(BusCaches(cfg, s.caches, req, op, k, t),
                        SnoopedCores(cfg, s, req, op, k, t, cfg.cores),
                        BusGlobal(cfg, s, req, op, k, t))
    ensures Latency(cfg, s.caches, req, op, k, t)
            == TransactionCycles(cfg, op, SupplierFound(cfg.protocol, s.caches, req, k, t),
                                 EvictsDirty(cfg, s.caches, req, op, k, t))
  {
  }

  /** Storing the state a line already has changes nothing. */
  lemma SameLine(cs: CacheSet, t: nat)
    ensures t in cs.lines ==> SetState(cs, t, cs.lines[t]) == cs
  {
  }

  lemma RewriteTwice(c: Caches, i: nat, k: nat, x: CacheSet, y: CacheSet)
    requires At(c, i, k)
    ensures var d := c[i := c[i][k := x]];
            d[i][k] == x && d[i := d[i][k := y]] == c[i := c[i][k := y]]
  {
    var d := c[i := c[i][k := x]];
    assert d[i][k := y] == c[i][k := y];
  }

  ghost predicate SharedBelow(c: Caches, req: nat, k: nat, t: nat, n: nat)
    requires n <= |c| && forall i :: 0 <= i < |c| ==> k < |c[i]|
  {
    exists j :: 0 <= j < n && j != req && StateAt(c, j, k, t) != Invalid
  }

  ghost predicate SupplierBelow(p: Protocol, c: Caches, req: nat, k: nat, t: nat, n: nat)
    requires n <= |c| && forall i :: 0 <= i < |c| ==> k < |c[i]|
  {
    exists j :: 0 <= j < n && j != req && Supplies(p, StateAt(c, j, k, t))
  }

  /** The snoop loop from `s` after visiting the first `m` cores. */
  ghost predicate SnoopLoop(cfg: Config, s: System, req: nat, op: BusOp, k: nat, t: nat, m: nat,
                            now: System, shared: bool, supplier: bool)
    requires Shaped(cfg, s.caches) && |s.cores| == cfg.cores && k < cfg.NumSets() && m <= cfg.cores
  {
    && now == SnoopedSystem(cfg, s, req, op, k, t, m)
    && shared == SharedBelow(s.caches, req, k, t, m)
    && supplier == SupplierBelow(cfg.protocol, s.caches, req, k, t, m)
  }

  lemma SnoopedAll(cfg: Config, s: System, req: nat, op: BusOp, k: nat, t: nat,
                   now: System, shared: bool, supplier: bool)
    requires Shaped(cfg, s.caches) && |s.cores| == cfg.cores && k < cfg.NumSets() && req < cfg.cores
    requires SnoopLoop(cfg, s, req, op, k, t, cfg.cores, now, shared, supplier)
    ensures now == SnoopedSystem(cfg, s, req, op, k, t, cfg.cores)
    ensures shared == SharedSignal(s.caches, req, k, t)
    ensures supplier == SupplierFound(cfg.protocol, s.caches, req, k, t)
  {
  }

  lemma BelowNext(p: Protocol, c: Caches, req: nat, k: nat, t: nat, n: nat)
    requires n < |c| && forall i :: 0 <= i < |c| ==> k < |c[i]|
    ensures SharedBelow(c, req, k, t, n + 1)
            == (SharedBelow(c, req, k, t, n) || (n != req && StateAt(c, n, k, t) != Invalid))
    ensures SupplierBelow(p, c, req, k, t, n + 1)
            == (SupplierBelow(p, c, req, k, t, n) || (n != req && Supplies(p, StateAt(c, n, k, t))))
  {
  }

  /** Core `i` received, and core `req` sent, `counted` invalidations (Dragon counts no sender). */
  ghost function CountSnoop(p: Protocol, cores: seq<CoreStats>, i: nat, req: nat, counted: nat): seq<CoreStats>
    requires i < |cores| && req < |cores|
  {
    var received := cores[i := cores[i].(invReceived := cores[i].invReceived + counted)];
    received[req := received[req].(invSent := received[req].invSent + (if p == Dragon then 0 else counted))]
  }

  /** The effect of one core's snoop. */
  ghost function SnoopOne(cfg: Config, s: System, i: nat, req: nat, op: BusOp, k: nat, t: nat): System
    requires Shaped(cfg, s.caches) && |s.cores| == cfg.cores && req < cfg.cores && k < cfg.NumSets() && i < cfg.cores
  {
    var cs := s.caches[i][k];
    var counted := if cs.StateOf(t) != Invalid && CountsSnoop(cfg.protocol, op) then 1 else 0;
    System(s.caches[i := s.caches[i][k := SnoopSet(cfg.protocol, op, cs, t)]],
           CountSnoop(cfg.protocol, s.cores, i, req, counted),
           s.global.(invalidations := s.global.invalidations + counted))
  }

  /** The system after the snoop loop has visited the first `m` cores. */
  ghost function SnoopedSystem(cfg: Config, s: System, req: nat, op: BusOp, k: nat, t: nat, m: nat): System
    requires Shaped(cfg, s.caches) && |s.cores| == cfg.cores && k < cfg.NumSets() && m <= cfg.cores
  {
    var invalidations := if CountsSnoop(cfg.protocol, op) then Holders(s.caches, req, k, t, m) else 0;
    System(Snooped(cfg.protocol, s.caches, req, op, k, t, m),
           SnoopedCores(cfg, s, req, op, k, t, m),
           s.global.(invalidations := s.global.invalidations + invalidations))
  }

  lemma SnoopedNone(cfg: Config, s: System, req: nat, op: BusOp, k: nat, t: nat)
    requires Shaped(cfg, s.caches) && |s.cores| == cfg.cores && k < cfg.NumSets()
    ensures SnoopedSystem(cfg, s, req, op, k, t, 0) == s
  {
    assert Snooped(cfg.protocol, s.caches, req, op, k, t, 0) == s.caches;
    assert SnoopedCores(cfg, s, req, op, k, t, 0) == s.cores;
  }

  /** The loop visits one more core, unless it is the requester. */
  lemma SnoopedNext(cfg: Config, s: System, req: nat, op: BusOp, k: nat, t: nat, m: nat)
    requires Shaped(cfg, s.caches) && |s.cores| == cfg.cores && req < cfg.cores && k < cfg.NumSets() && m < cfg.cores
    ensures var before := SnoopedSystem(cfg, s, req, op, k, t, m);
            && Shaped(cfg, before.caches) && |before.cores| == cfg.cores && before.caches[m] == s.caches[m]
            && SnoopedSystem(cfg, s, req, op, k, t, m + 1)
               == (if m == req then before else SnoopOne(cfg, before, m, req, op, k, t))
  {
    SnoopedNextCaches(cfg.protocol, s.caches, req, op, k, t, m);
    SnoopedNextCores(cfg, s, req, op, k, t, m);
  }

  lemma SnoopedNextCaches(p: Protocol, c: Caches, req: nat, op: BusOp, k: nat, t: nat, m: nat)
    requires m < |c| && forall i :: 0 <= i < |c| ==> k < |c[i]|
    ensures var before := Snooped(p, c, req, op, k, t, m);
            && before[m] == c[m]
            && Snooped(p, c, req, op, k, t, m + 1)
               == (if m == req then before else before[m := c[m][k := SnoopSet(p, op, c[m][k], t)]])
  {
  }

  lemma SnoopedNextCores(cfg: Config, s: System, req: nat, op: BusOp, k: nat, t: nat, m: nat)
    requires Shaped(cfg, s.caches) && |s.cores| == cfg.cores && req < cfg.cores && k < cfg.NumSets() && m < cfg.cores
    ensures var counted := if StateAt(s.caches, m, k, t) != Invalid && CountsSnoop(cfg.protocol, op) then 1 else 0;
            var before := SnoopedCores(cfg, s, req, op, k, t, m);
            SnoopedCores(cfg, s, req, op, k, t, m + 1)
            == (if m == req then before else CountSnoop(cfg.protocol, before, m, req, counted))
  {
    var counted := if StateAt(s.caches, m, k, t) != Invalid && CountsSnoop(cfg.protocol, op) then 1 else 0;
    var before, after := SnoopedCores(cfg, s, req, op, k, t, m), SnoopedCores(cfg, s, req, op, k, t, m + 1);
    var expected := if m == req then before else CountSnoop(cfg.protocol, before, m, req, counted);
    forall i: nat | i < |s.cores|
      ensures after[i] == expected[i]
    {
      SnoopedNextCore(cfg, s, req, op, k, t, m, i);
    }
  }

  lemma SnoopedNextCore(cfg: Config, s: System, req: nat, op: BusOp, k: nat, t: nat, m: nat, i: nat)
    requires Shaped(cfg, s.caches) && |s.cores| == cfg.cores && req < cfg.cores && k < cfg.NumSets() && m < cfg.cores
    requires i < cfg.cores
    ensures var counted := if StateAt(s.caches, m, k, t) != Invalid && CountsSnoop(cfg.protocol, op) then 1 else 0;
            var a, b := SnoopedCores(cfg, s, req, op, k, t, m)[i], SnoopedCores(cfg, s, req, op, k, t, m + 1)[i];
            b == a.(invReceived := a.invReceived + (if i == m && m != req then counted else 0),
                    invSent := a.invSent + (if i == req && m != req && cfg.protocol != Dragon then counted else 0))
  {
  }

  ghost predicate FreshSet(cfg: Config, cs: LruCacheSet)
    reads cs
  {
    cs.protocol == cfg.protocol && cs.assoc == cfg.assoc && cs.Value() == EMPTY
  }

  method BuildCache(cfg: Config) returns (row: seq<LruCacheSet>)
    ensures |row| == cfg.NumSets()
    ensures forall k :: 0 <= k < |row| ==> fresh(row[k]) && FreshSet(cfg, row[k])
    ensures forall k, k' :: 0 <= k < k' < |row| ==> row[k] != row[k']
  {
    row := [];
    while |row| < cfg.NumSets()
      invariant |row| <= cfg.NumSets()
      invariant forall k :: 0 <= k < |row| ==> fresh(row[k]) && FreshSet(cfg, row[k])
      invariant forall k, k' :: 0 <= k < k' < |row| ==> row[k] != row[k']
    {
      var cs := new LruCacheSet(cfg.protocol, cfg.assoc);
      row := row + [cs];
    }
  }
}
