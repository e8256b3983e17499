/**
 The five coherence protocols on values: their transition tables, the processor
 request and the bus transaction, and what a bus transaction does to the state of
 every line of every core.
 */
module Protocols {
  import opened Defs
  import opened CacheSets

  // caches[i][k] is set k of core i.
  type Caches = seq<seq<CacheSet>>

  datatype System = System(caches: Caches, cores: seq<CoreStats>, global: GlobalStats)

  // ----- transition tables -----

  /** States whose write needs a bus upgrade; hits in them count as shared accesses. */
  predicate IsShared(p: Protocol, st: LineState) {
    match p
    case Mesi => st == Shared
    case Smart => st == Shared
    case Mesif => st == Shared || st == Forward
    case Moesi => st == Shared || st == Owned
    case Dragon => st == SharedClean || st == SharedModified
  }

  /** The bus action a processor request asks for; NoOp means a hit. */
  function Request(p: Protocol, st: LineState, isWrite: bool): BusOp {
    if st != Invalid then
      if isWrite && IsShared(p, st) then BusUpgr else NoOp
    else if p == Dragon || !isWrite then BusRd
    else BusRdX
  }

  /** The state after a hit. */
  function AfterHit(p: Protocol, st: LineState, isWrite: bool): LineState {
    if !isWrite then st
    else if p == Dragon then (if st == Exclusive then Modified else st)
    else Modified
  }

  /** The state of a valid line after it snoops `op` from another core. */
  function Snoop(p: Protocol, op: BusOp, st: LineState): LineState {
    if st == Invalid then Invalid
    else if p == Dragon then
      match op
      case BusUpgr => if st == SharedModified then SharedClean else st
      case BusRd => if st == Exclusive then SharedClean else if st == Modified then SharedModified else st
      case _ => st
    else
      match op
      case BusRdX => Invalid
      case BusUpgr => Invalid
      case BusRd =>
        (match p
         case Mesif => Shared
         case Moesi => if st == Modified then Owned else if st == Exclusive then Shared else st
         case _ => if st == Modified || st == Exclusive then Shared else st)
      case _ => st
  }

  /** Does snooping `op` count as an invalidation (for Dragon: as an update) received? */
  predicate CountsSnoop(p: Protocol, op: BusOp) {
    op == BusUpgr || (op == BusRdX && p != Dragon)
  }

  /** Can a line in this state supply the block to the requester? */
  predicate Supplies(p: Protocol, st: LineState) {
    match p
    case Mesif => st in {Modified, Exclusive, Forward}
    case Moesi => st in {Modified, Exclusive, Owned}
    case _ => st != Invalid
  }

  /** The requester's state after a fill. */
  function Fill(p: Protocol, op: BusOp, shared: bool): LineState {
    if p == Dragon then (if shared then SharedClean else Exclusive)
    else if op != BusRd then Modified
    else if !shared then Exclusive
    else if p == Mesif then Forward
    else Shared
  }

  /** The requester's state after an upgrade. */
  function Upgraded(p: Protocol, shared: bool): LineState {
    if p == Dragon && shared then SharedModified else Modified
  }

  /** Lines whose eviction is a writeback. */
  predicate Dirty(p: Protocol, st: LineState) {
    match p
    case Moesi => st == Modified || st == Owned
    case Dragon => st == Modified || st == SharedModified
    case _ => st == Modified
  }

  // ----- caches -----

  ghost predicate Shaped(cfg: Config, c: Caches) {
    |c| == cfg.cores && forall i :: 0 <= i < |c| ==> |c[i]| == cfg.NumSets()
  }

  ghost predicate AllListed(c: Caches) {
    forall i, k :: 0 <= i < |c| && 0 <= k < |c[i]| ==> c[i][k].Listed()
  }

  ghost predicate At(c: Caches, i: nat, k: nat) {
    i < |c| && k < |c[i]|
  }

  ghost function StateAt(c: Caches, i: nat, k: nat, t: nat): LineState
    requires At(c, i, k)
  {
    c[i][k].StateOf(t)
  }

  /** How many of the first `n` cores, other than `req`, hold line (k, t) in a valid state. */
  ghost function Holders(c: Caches, req: nat, k: nat, t: nat, n: nat): nat
    requires n <= |c| && forall i :: 0 <= i < |c| ==> k < |c[i]|
  {
    if n == 0 then 0
    else Holders(c, req, k, t, n - 1) + (if n - 1 != req && StateAt(c, n - 1, k, t) != Invalid then 1 else 0)
  }

  ghost predicate SharedSignal(c: Caches, req: nat, k: nat, t: nat)
    requires forall i :: 0 <= i < |c| ==> k < |c[i]|
  {
    exists i :: 0 <= i < |c| && i != req && StateAt(c, i, k, t) != Invalid
  }

  ghost predicate SupplierFound(p: Protocol, c: Caches, req: nat, k: nat, t: nat)
    requires forall i :: 0 <= i < |c| ==> k < |c[i]|
  {
    exists i :: 0 <= i < |c| && i != req && Supplies(p, StateAt(c, i, k, t))
  }

  // ----- processor request -----

  ghost function RequestCaches(cfg: Config, c: Caches, id: nat, k: nat, t: nat, isWrite: bool): Caches
    requires At(c, id, k)
  {
    var found := Find(c[id][k], t);
    var st := found.StateOf(t);
    var hit := Request(cfg.protocol, st, isWrite) == NoOp;
    c[id := c[id][k := if hit then SetState(found, t, AfterHit(cfg.protocol, st, isWrite)) else found]]
  }

  ghost function CountAccess(p: Protocol, cs: CoreStats, st: LineState): CoreStats {
    if IsShared(p, st) then cs.(sharedAccesses := cs.sharedAccesses + 1)
    else cs.(privateAccesses := cs.privateAccesses + 1)
  }

  ghost function RequestOp(cfg: Config, c: Caches, id: nat, k: nat, t: nat, isWrite: bool): BusOp
    requires At(c, id, k)
  {
    Request(cfg.protocol, StateAt(c, id, k, t), isWrite)
  }

  ghost function ProcessorRequest(cfg: Config, s: System, id: nat, addr: Uint32, isWrite: bool): System
    requires Shaped(cfg, s.caches) && |s.cores| == cfg.cores && id < cfg.cores
  {
    var k, t := cfg.SetIndex(addr), cfg.Tag(addr);
    var st := StateAt(s.caches, id, k, t);
    s.(caches := RequestCaches(cfg, s.caches, id, k, t, isWrite),
       cores := if RequestOp(cfg, s.caches, id, k, t, isWrite) == NoOp
                then s.cores[id := CountAccess(cfg.protocol, s.cores[id], AfterHit(cfg.protocol, st, isWrite))]
                else s.cores)
  }

  // ----- bus transaction -----

  ghost function SnoopSet(p: Protocol, op: BusOp, cs: CacheSet, t: nat): CacheSet {
    if t in cs.lines then SetState(Find(cs, t), t, Snoop(p, op, cs.lines[t])) else cs
  }

  ghost predicate IsFill(op: BusOp) {
    op != Writeback && op != BusUpgr
  }

  /** The requester's own set after the transaction. */
  ghost function RequesterSet(cfg: Config, op: BusOp, cs: CacheSet, t: nat, shared: bool): CacheSet
    requires IsFill(op) && Full(cfg.assoc, cs) ==> |cs.lru| > 0
  {
    match op
    case Writeback => cs
    case BusUpgr => SetState(Find(cs, t), t, Upgraded(cfg.protocol, shared))
    case _ => Allocate(cfg.protocol, cfg.assoc, cs, t, Fill(cfg.protocol, op, shared))
  }

  /** The upgrade dereferences the requester's line; an eviction takes the back of the list. */
  ghost predicate BusFaults(cfg: Config, c: Caches, req: nat, op: BusOp, k: nat, t: nat)
    requires At(c, req, k)
  {
    var cs := c[req][k];
    (op == BusUpgr && t !in cs.lines) || (IsFill(op) && Full(cfg.assoc, cs) && |cs.lru| == 0)
  }

  /** The snoop loop after visiting the first `m` cores. */
  ghost function Snooped(p: Protocol, c: Caches, req: nat, op: BusOp, k: nat, t: nat, m: nat): Caches
    requires forall i :: 0 <= i < |c| ==> k < |c[i]|
  {
    seq(|c|, i requires 0 <= i < |c| =>
      if i < m && i != req then c[i][k := SnoopSet(p, op, c[i][k], t)] else c[i])
  }

  ghost function BusCaches(cfg: Config, c: Caches, req: nat, op: BusOp, k: nat, t: nat): Caches
    requires Shaped(cfg, c) && req < cfg.cores && k < cfg.NumSets()
    requires !BusFaults(cfg, c, req, op, k, t)
  {
    Snooped(cfg.protocol, c, req, op, k, t, |c|)
      [req := c[req][k := RequesterSet(cfg, op, c[req][k], t, SharedSignal(c, req, k, t))]]
  }

  /** Statistics of the cores after the snoop loop has visited the first `m` of them. */
  ghost function SnoopedCores(cfg: Config, s: System, req: nat, op: BusOp, k: nat, t: nat, m: nat): seq<CoreStats>
    requires Shaped(cfg, s.caches) && |s.cores| == cfg.cores && k < cfg.NumSets() && m <= cfg.cores
  {
    seq(|s.cores|, i requires 0 <= i < |s.cores| =>
      var sent := if i == req && CountsSnoop(cfg.protocol, op) && cfg.protocol != Dragon
                  then Holders(s.caches, req, k, t, m) else 0;
      var received := if i < m && i != req && StateAt(s.caches, i, k, t) != Invalid && CountsSnoop(cfg.protocol, op)
                      then 1 else 0;
      s.cores[i].(invSent := s.cores[i].invSent + sent, invReceived := s.cores[i].invReceived + received))
  }

  ghost function EvictsDirty(cfg: Config, c: Caches, req: nat, op: BusOp, k: nat, t: nat): bool
    requires At(c, req, k) && !BusFaults(cfg, c, req, op, k, t)
  {
    IsFill(op) && Dirty(cfg.protocol, EvictedState(cfg.protocol, cfg.assoc, c[req][k]))
  }

  function TransferCycles(cfg: Config): nat {
    1 + 2 * (cfg.BlockSize() / 4)
  }

  ghost function Latency(cfg: Config, c: Caches, req: nat, op: BusOp, k: nat, t: nat): nat
    requires Shaped(cfg, c) && req < cfg.cores && k < cfg.NumSets()
    requires !BusFaults(cfg, c, req, op, k, t)
  {
    match op
    case Writeback => 100
    case BusUpgr => if cfg.protocol == Dragon then 2 else 0
    case _ => (if SupplierFound(cfg.protocol, c, req, k, t) then TransferCycles(cfg) else 101)
              + (if EvictsDirty(cfg, c, req, op, k, t) then 100 else 0)
  }

  ghost function BusGlobal(cfg: Config, s: System, req: nat, op: BusOp, k: nat, t: nat): GlobalStats
    requires Shaped(cfg, s.caches) && req < cfg.cores && k < cfg.NumSets()
    requires !BusFaults(cfg, s.caches, req, op, k, t)
  {
    var invalidations := if CountsSnoop(cfg.protocol, op) then Holders(s.caches, req, k, t, cfg.cores) else 0;
    var g := s.global.(invalidations := s.global.invalidations + invalidations);
    match op
    case Writeback => g.(busWritebacks := g.busWritebacks + 1, traffic := g.traffic + cfg.BlockSize())
    case BusUpgr => g.(busUpgrades := g.busUpgrades + 1,
                       traffic := g.traffic + (if cfg.protocol == Dragon then 4 else 0))
    case _ =>
      var wb := if EvictsDirty(cfg, s.caches, req, op, k, t) then 1 else 0;
      var isRead := op == BusRd || cfg.protocol == Dragon;
      g.(cacheToCache := g.cacheToCache + (if SupplierFound(cfg.protocol, s.caches, req, k, t) then 1 else 0),
         busReads := g.busReads + (if isRead then 1 else 0),
         busReadx := g.busReadx + (if isRead then 0 else 1),
         busWritebacks := g.busWritebacks + wb,
         traffic := g.traffic + cfg.BlockSize() + wb * cfg.BlockSize())
  }

  ghost function BusTransaction(cfg: Config, s: System, req: nat, op: BusOp, addr: Uint32): System
    requires Shaped(cfg, s.caches) && |s.cores| == cfg.cores && req < cfg.cores
    requires !BusFaults(cfg, s.caches, req, op, cfg.SetIndex(addr), cfg.Tag(addr))
  {
    var k, t := cfg.SetIndex(addr), cfg.Tag(addr);
    System(BusCaches(cfg, s.caches, req, op, k, t),
           SnoopedCores(cfg, s, req, op, k, t, cfg.cores),
           BusGlobal(cfg, s, req, op, k, t))
  }

  // ----- what the two operations do to line states -----

  /** A request changes the state of the requested line of the requesting core, and only on a write hit. */
  lemma RequestEffect(cfg: Config, c: Caches, id: nat, k: nat, t: nat, isWrite: bool)
    requires Shaped(cfg, c) && id < cfg.cores && k < cfg.NumSets()
    ensures var d := RequestCaches(cfg, c, id, k, t, isWrite);
            && Shaped(cfg, d)
            && (forall i: nat, k': nat, t': nat :: At(c, i, k') ==>
                 StateAt(d, i, k', t') ==
                   if i == id && k' == k && t' == t && RequestOp(cfg, c, id, k, t, isWrite) == NoOp
                   then AfterHit(cfg.protocol, StateAt(c, i, k', t'), isWrite)
                   else StateAt(c, i, k', t'))
  {
  }

  /** A bus transaction: snooped on the line by the others, upgraded or filled by the
      requester, who may lose one evicted line; everything else keeps its state. */
  lemma BusEffect(cfg: Config, c: Caches, req: nat, op: BusOp, k: nat, t: nat)
    requires Shaped(cfg, c) && req < cfg.cores && k < cfg.NumSets()
    requires !BusFaults(cfg, c, req, op, k, t)
    ensures var d := BusCaches(cfg, c, req, op, k, t);
            && Shaped(cfg, d)
            && (forall i: nat, k': nat, t': nat :: At(c, i, k') ==>
                 StateAt(d, i, k', t') ==
                   if i != req && k' == k && t' == t then Snoop(cfg.protocol, op, StateAt(c, i, k, t))
                   else if i == req && k' == k then
                     RequesterSet(cfg, op, c[i][k], t, SharedSignal(c, req, k, t)).StateOf(t')
                   else StateAt(c, i, k', t'))
  {
  }

  lemma RequesterEffect(cfg: Config, op: BusOp, cs: CacheSet, t: nat, shared: bool)
    requires IsFill(op) && Full(cfg.assoc, cs) ==> |cs.lru| > 0
    ensures var r := RequesterSet(cfg, op, cs, t, shared);
            forall t': nat :: r.StateOf(t') ==
              if op == Writeback then cs.StateOf(t')
              else if t' == t then
                (if op == BusUpgr then Upgraded(cfg.protocol, shared) else Fill(cfg.protocol, op, shared))
              else if IsFill(op) && t' in Evicted(cfg.protocol, cfg.assoc, cs) then Invalid
              else cs.StateOf(t')
  {
  }

  /** A transaction, line by line: the line of the transaction is snooped by the others and upgraded or filled by the
      requester, who loses at most one line, evicted from the same set; every other line keeps its state. */
  lemma TransactionEffect(cfg: Config, c: Caches, req: nat, op: BusOp, k: nat, t: nat, i: nat, k': nat, t': nat)
    requires Shaped(cfg, c) && req < cfg.cores && k < cfg.NumSets() && At(c, i, k')
    requires !BusFaults(cfg, c, req, op, k, t)
    ensures var p, d, shared := cfg.protocol, BusCaches(cfg, c, req, op, k, t), SharedSignal(c, req, k, t);
            var victims := if IsFill(op) then Evicted(p, cfg.assoc, c[req][k]) else {};
            && Shaped(cfg, d) && |victims| <= 1
            && StateAt(d, i, k', t') ==
                 if k' == k && t' == t then
                   (if i != req then Snoop(p, op, StateAt(c, i, k, t))
                    else if op == Writeback then StateAt(c, i, k, t)
                    else if op == BusUpgr then Upgraded(p, shared)
                    else Fill(p, op, shared))
                 else if i == req && k' == k && t' in victims then Invalid
                 else StateAt(c, i, k', t')
  {
    BusEffect(cfg, c, req, op, k, t);
    RequesterEffect(cfg, op, c[req][k], t, SharedSignal(c, req, k, t));
  }

  lemma RequestListed(cfg: Config, c: Caches, id: nat, k: nat, t: nat, isWrite: bool)
    requires Shaped(cfg, c) && AllListed(c) && id < cfg.cores && k < cfg.NumSets()
    ensures AllListed(RequestCaches(cfg, c, id, k, t, isWrite))
  {
    FindListed(c[id][k], t);
  }

  lemma BusListed(cfg: Config, c: Caches, req: nat, op: BusOp, k: nat, t: nat)
    requires Shaped(cfg, c) && AllListed(c) && req < cfg.cores && k < cfg.NumSets()
    requires !BusFaults(cfg, c, req, op, k, t)
    ensures AllListed(BusCaches(cfg, c, req, op, k, t))
  {
    var d: Caches := BusCaches(cfg, c, req, op, k, t);
    var shared := SharedSignal(c, req, k, t);
    forall i: nat, k': nat | i < |d| && k' < |d[i]|
      ensures d[i][k'].Listed()
    {
      if k' == k {
        FindListed(c[i][k], t);
        if i == req && IsFill(op) {
          AllocateListed(cfg.protocol, cfg.assoc, c[i][k], t, Fill(cfg.protocol, op, shared));
        }
      }
    }
  }

  lemma HoldersShared(c: Caches, req: nat, k: nat, t: nat, n: nat)
    requires n <= |c| && forall i :: 0 <= i < |c| ==> k < |c[i]|
    ensures Holders(c, req, k, t, n) > 0 <==> exists i :: 0 <= i < n && i != req && StateAt(c, i, k, t) != Invalid
  {
    if n > 0 {
      HoldersShared(c, req, k, t, n - 1);
    }
  }

  /** What the shared signal says: an invalidating transaction counts one invalidation for every other core that holds
      the line, so it counts some exactly if the signal is raised; a read fills the line Exclusive exactly if it
      is not. */
  lemma SharedSignalCounts(cfg: Config, s: System, req: nat, op: BusOp, k: nat, t: nat)
    requires Shaped(cfg, s.caches) && req < cfg.cores && k < cfg.NumSets()
    requires !BusFaults(cfg, s.caches, req, op, k, t)
    ensures BusGlobal(cfg, s, req, op, k, t).invalidations
            == s.global.invalidations
               + if CountsSnoop(cfg.protocol, op) then Holders(s.caches, req, k, t, cfg.cores) else 0
    ensures BusGlobal(cfg, s, req, op, k, t).invalidations > s.global.invalidations
            <==> CountsSnoop(cfg.protocol, op) && SharedSignal(s.caches, req, k, t)
    ensures op == BusRd ==>
              (StateAt(BusCaches(cfg, s.caches, req, op, k, t), req, k, t) == Exclusive
               <==> Holders(s.caches, req, k, t, cfg.cores) == 0)
  {
    HoldersShared(s.caches, req, k, t, cfg.cores);
    TransactionEffect(cfg, s.caches, req, op, k, t, req, k, t);
  }
}
