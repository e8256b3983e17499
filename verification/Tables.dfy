/**
 The transition tables written out: for a transaction whose request matches the
 caches, the states, cycles and counts that each of the five protocols prescribes,
 by name of state.
 */
module Tables {
  import opened Defs
  import opened CacheSets
  import opened Protocols
  import opened Safety
  import opened Simulation

  // ----- who holds a line, and who supplies it -----

  ghost predicate HeldElsewhere(c: Caches, req: nat, k: nat, t: nat)
    requires forall i :: 0 <= i < |c| ==> k < |c[i]|
  {
    exists j: nat :: j < |c| && j != req && StateAt(c, j, k, t) != Invalid
  }

  /** The other cores that hold the line. */
  ghost function HolderSet(c: Caches, req: nat, k: nat, t: nat, n: nat): set<nat>
    requires n <= |c| && forall i :: 0 <= i < |c| ==> k < |c[i]|
  {
    set j: nat | j < n && j != req && StateAt(c, j, k, t) != Invalid
  }

  /** A core other than the requester holds the line in one of these states. */
  ghost predicate HeldIn(states: set<LineState>, c: Caches, req: nat, k: nat, t: nat)
    requires forall i :: 0 <= i < |c| ==> k < |c[i]|
  {
    exists j: nat :: j < |c| && j != req && StateAt(c, j, k, t) in states
  }

  lemma {:induction false} HoldersAreCounted(c: Caches, req: nat, k: nat, t: nat, n: nat)
    requires n <= |c| && forall i :: 0 <= i < |c| ==> k < |c[i]|
    ensures Holders(c, req, k, t, n) == |HolderSet(c, req, k, t, n)|
  {
    if n > 0 {
      HoldersAreCounted(c, req, k, t, n - 1);
      var less := HolderSet(c, req, k, t, n - 1);
      if n - 1 != req && StateAt(c, n - 1, k, t) != Invalid {
        assert HolderSet(c, req, k, t, n) == less + {n - 1};
      } else {
        assert HolderSet(c, req, k, t, n) == less;
      }
    }
  }

  lemma SharedMeansHeld(c: Caches, req: nat, k: nat, t: nat)
    requires forall i :: 0 <= i < |c| ==> k < |c[i]|
    ensures SharedSignal(c, req, k, t) <==> HeldElsewhere(c, req, k, t)
  {
  }

  /** Who supplies a block: in MESIF a Modified, Exclusive or Forward line, in MOESI a Modified, Exclusive or Owned one,
      in the other protocols any valid line. */
  ghost predicate Supplied(p: Protocol, c: Caches, req: nat, k: nat, t: nat)
    requires forall i :: 0 <= i < |c| ==> k < |c[i]|
  {
    match p
    case Mesif => HeldIn({Modified, Exclusive, Forward}, c, req, k, t)
    case Moesi => HeldIn({Modified, Exclusive, Owned}, c, req, k, t)
    case _ => HeldElsewhere(c, req, k, t)
  }

  lemma SuppliersFound(p: Protocol, c: Caches, req: nat, k: nat, t: nat)
    requires forall i :: 0 <= i < |c| ==> k < |c[i]|
    ensures SupplierFound(p, c, req, k, t) <==> Supplied(p, c, req, k, t)
  {
  }

  /** The dirty states of all five protocols. */
  lemma DirtyStates(p: Protocol, st: LineState)
    requires Legal(p, st)
    ensures Dirty(p, st) <==> st in {Modified, Owned, SharedModified}
  {
  }

  // ----- processor requests -----

  /** What a request for a line in state `a` asks of the bus, and the state it leaves. */
  predicate RequestTable(p: Protocol, isWrite: bool, a: LineState, op: BusOp, b: LineState) {
    && (!isWrite && a != Invalid ==> op == NoOp && b == a)
    && (!isWrite && a == Invalid ==> op == BusRd && b == Invalid)
    && (isWrite && a in {Exclusive, Modified} ==> op == NoOp && b == Modified)
    && (isWrite && a in {Shared, Forward, Owned, SharedClean, SharedModified} ==> op == BusUpgr && b == a)
    && (isWrite && a == Invalid ==> op == (if p == Dragon then BusRd else BusRdX) && b == Invalid)
  }

  lemma RequestStates(cfg: Config, c: Caches, id: nat, k: nat, t: nat, isWrite: bool)
    requires Shaped(cfg, c) && id < cfg.cores && k < cfg.NumSets() && Legal(cfg.protocol, StateAt(c, id, k, t))
    ensures var d := RequestCaches(cfg, c, id, k, t, isWrite);
            && At(d, id, k)
            && RequestTable(cfg.protocol, isWrite, StateAt(c, id, k, t), RequestOp(cfg, c, id, k, t, isWrite),
                            StateAt(d, id, k, t))
  {
    RequestEffect(cfg, c, id, k, t, isWrite);
  }

  /** A hit that leaves a line Exclusive or Modified is private, any other hit is shared. */
  lemma HitCounted(p: Protocol, cs: CoreStats, st: LineState)
    requires Legal(p, st) && st != Invalid
    ensures CountAccess(p, cs, st)
            == if st in {Exclusive, Modified} then cs.(privateAccesses := cs.privateAccesses + 1)
               else cs.(sharedAccesses := cs.sharedAccesses + 1)
  {
  }

  // ----- bus transactions -----

  /** The requester's own line after a transaction, `held` telling whether another core held it. */
  predicate RequesterTable(p: Protocol, op: BusOp, held: bool, b: LineState) {
    && (op == BusRd && !held ==> b == Exclusive)
    && (op == BusRd && held && p in {Mesi, Smart, Moesi} ==> b == Shared)
    && (op == BusRd && held && p == Mesif ==> b == Forward)
    && (op == BusRd && held && p == Dragon ==> b == SharedClean)
    && (op == BusRdX ==> b == Modified)
    && (op == BusUpgr && (p != Dragon || !held) ==> b == Modified)
    && (op == BusUpgr && p == Dragon && held ==> b == SharedModified)
  }

  lemma RequesterStates(p: Protocol, op: BusOp, held: bool)
    requires op in {BusRd, BusRdX, BusUpgr} && (op == BusRdX ==> p != Dragon)
    ensures RequesterTable(p, op, held, if op == BusUpgr then Upgraded(p, held) else Fill(p, op, held))
  {
  }

  /** The line of another core, in state `a` before the transaction and in `b` after it. */
  predicate SnooperTable(p: Protocol, op: BusOp, a: LineState, b: LineState) {
    && (a == Invalid ==> b == Invalid)
    && (op in {BusRdX, BusUpgr} && p != Dragon ==> b == Invalid)
    && (op == BusRd && a != Invalid && p in {Mesi, Smart, Mesif} ==> b == Shared)
    && (op == BusRd && a in {Shared, Exclusive} && p == Moesi ==> b == Shared)
    && (op == BusRd && a in {Owned, Modified} && p == Moesi ==> b == Owned)
    && (op == BusRd && a in {SharedClean, Exclusive} && p == Dragon ==> b == SharedClean)
    && (op == BusRd && a in {SharedModified, Modified} && p == Dragon ==> b == SharedModified)
    && (op == BusUpgr && a in {SharedClean, SharedModified} && p == Dragon ==> b == SharedClean)
  }

  lemma SnooperStates(p: Protocol, op: BusOp, a: LineState)
    requires Legal(p, a)
    ensures SnooperTable(p, op, a, Snoop(p, op, a))
  {
  }

  /** The entry of a full set that makes room: the back of the list, or in SMART the rearmost entry that is not
      Modified, unless all are. */
  ghost predicate MakesRoom(p: Protocol, cs: CacheSet, i: nat) {
    && i < |cs.lru|
    && (p != Smart ==> i == |cs.lru| - 1)
    && (p == Smart ==> forall j :: i < j < |cs.lru| ==> cs.StateOf(cs.lru[j]) == Modified)
    && (p == Smart && cs.StateOf(cs.lru[i]) == Modified ==>
         i == |cs.lru| - 1 && forall j :: 0 <= j < i ==> cs.StateOf(cs.lru[j]) == Modified)
  }

  /** The entry that makes room is the victim, and there is no other. */
  lemma VictimMakesRoom(p: Protocol, cs: CacheSet, i: nat)
    requires |cs.lru| > 0
    ensures MakesRoom(p, cs, i) <==> i == VictimAt(p, cs)
  {
  }

  /** Filling a full set loses a dirty line. */
  ghost predicate LosesDirty(p: Protocol, assoc: nat, cs: CacheSet) {
    |cs.lines| >= assoc
    && exists i: nat :: MakesRoom(p, cs, i) && cs.StateOf(cs.lru[i]) in {Modified, Owned, SharedModified}
  }

  lemma DirtyVictim(cfg: Config, c: Caches, r: BusRequest)
    requires Shaped(cfg, c) && r.core < cfg.cores && AllLegal(cfg.protocol, c) && r.op in {BusRd, BusRdX}
    requires !BusFaults(cfg, c, r.core, r.op, cfg.SetIndex(r.addr), cfg.Tag(r.addr))
    ensures EvictsDirty(cfg, c, r.core, r.op, cfg.SetIndex(r.addr), cfg.Tag(r.addr))
            <==> LosesDirty(cfg.protocol, cfg.assoc, c[r.core][cfg.SetIndex(r.addr)])
  {
    var p, k := cfg.protocol, cfg.SetIndex(r.addr);
    var cs := c[r.core][k];
    if Full(cfg.assoc, cs) {
      var v := VictimAt(p, cs);
      forall i: nat
        ensures MakesRoom(p, cs, i) <==> i == v
      {
        VictimMakesRoom(p, cs, i);
      }
      assert At(c, r.core, k) && Legal(p, StateAt(c, r.core, k, cs.lru[v]));
      DirtyStates(p, cs.StateOf(cs.lru[v]));
    }
  }

  // ----- cycles and counts -----

  /** How long the transaction of `r` holds the bus. */
  ghost function Cycles(cfg: Config, c: Caches, r: BusRequest): nat
    requires Shaped(cfg, c) && r.core < cfg.cores
  {
    var k, t := cfg.SetIndex(r.addr), cfg.Tag(r.addr);
    if r.op == BusUpgr then (if cfg.protocol == Dragon then 2 else 0)
    else (if Supplied(cfg.protocol, c, r.core, k, t) then 1 + 2 * (cfg.BlockSize() / 4) else 101)
         + (if LosesDirty(cfg.protocol, cfg.assoc, c[r.core][k]) then 100 else 0)
  }

  ghost function Counted(cfg: Config, c: Caches, r: BusRequest, g: GlobalStats): GlobalStats
    requires Shaped(cfg, c) && r.core < cfg.cores
  {
    var k, t := cfg.SetIndex(r.addr), cfg.Tag(r.addr);
    var holders := |HolderSet(c, r.core, k, t, cfg.cores)|;
    var dirty := r.op != BusUpgr && LosesDirty(cfg.protocol, cfg.assoc, c[r.core][k]);
    GlobalStats(
      g.traffic + (if r.op != BusUpgr then cfg.BlockSize() else if cfg.protocol == Dragon then 4 else 0)
                + (if dirty then cfg.BlockSize() else 0),
      g.invalidations + (if r.op != BusRd then holders else 0),
      g.busReads + (if r.op == BusRd then 1 else 0),
      g.busReadx + (if r.op == BusRdX then 1 else 0),
      g.busUpgrades + (if r.op == BusUpgr then 1 else 0),
      g.busWritebacks + (if dirty then 1 else 0),
      g.cacheToCache + (if r.op != BusUpgr && Supplied(cfg.protocol, c, r.core, k, t) then 1 else 0))
  }

  /** The statistics of core `i`: an invalidation (in Dragon an update) is received by every other holder, and sent by
      the requester, except in Dragon. */
  ghost function CountedCore(cfg: Config, c: Caches, r: BusRequest, i: nat, cs: CoreStats): CoreStats
    requires Shaped(cfg, c) && r.core < cfg.cores && i < cfg.cores
  {
    var k, t := cfg.SetIndex(r.addr), cfg.Tag(r.addr);
    if r.op == BusRd then cs
    else if i != r.core then
      if StateAt(c, i, k, t) != Invalid then cs.(invReceived := cs.invReceived + 1) else cs
    else if cfg.protocol != Dragon then cs.(invSent := cs.invSent + |HolderSet(c, r.core, k, t, cfg.cores)|)
    else cs
  }

  lemma TransactionCosts(cfg: Config, s: System, r: BusRequest)
    requires Shaped(cfg, s.caches) && |s.cores| == cfg.cores && r.core < cfg.cores && Matches(cfg, s.caches, r)
    requires AllLegal(cfg.protocol, s.caches)
    requires !BusFaults(cfg, s.caches, r.core, r.op, cfg.SetIndex(r.addr), cfg.Tag(r.addr))
    ensures Latency(cfg, s.caches, r.core, r.op, cfg.SetIndex(r.addr), cfg.Tag(r.addr)) == Cycles(cfg, s.caches, r)
    ensures BusGlobal(cfg, s, r.core, r.op, cfg.SetIndex(r.addr), cfg.Tag(r.addr))
            == Counted(cfg, s.caches, r, s.global)
  {
    var k, t := cfg.SetIndex(r.addr), cfg.Tag(r.addr);
    HoldersAreCounted(s.caches, r.core, k, t, cfg.cores);
    SuppliersFound(cfg.protocol, s.caches, r.core, k, t);
    if r.op != BusUpgr {
      DirtyVictim(cfg, s.caches, r);
    }
  }

  lemma CoreCosts(cfg: Config, s: System, r: BusRequest, i: nat)
    requires Shaped(cfg, s.caches) && |s.cores| == cfg.cores && r.core < cfg.cores && Matches(cfg, s.caches, r)
    requires i < cfg.cores
    ensures SnoopedCores(cfg, s, r.core, r.op, cfg.SetIndex(r.addr), cfg.Tag(r.addr), cfg.cores)[i]
            == CountedCore(cfg, s.caches, r, i, s.cores[i])
  {
    HoldersAreCounted(s.caches, r.core, cfg.SetIndex(r.addr), cfg.Tag(r.addr), cfg.cores);
  }

  // ----- the lines of a transaction -----

  lemma TransactionStates(cfg: Config, c: Caches, r: BusRequest, i: nat)
    requires Shaped(cfg, c) && r.core < cfg.cores && Matches(cfg, c, r) && AllLegal(cfg.protocol, c) && i < cfg.cores
    requires !BusFaults(cfg, c, r.core, r.op, cfg.SetIndex(r.addr), cfg.Tag(r.addr))
    ensures var p, k, t := cfg.protocol, cfg.SetIndex(r.addr), cfg.Tag(r.addr);
            var d := BusCaches(cfg, c, r.core, r.op, k, t);
            && Shaped(cfg, d)
            && (if i == r.core then RequesterTable(p, r.op, HeldElsewhere(c, r.core, k, t), StateAt(d, i, k, t))
                else SnooperTable(p, r.op, StateAt(c, i, k, t), StateAt(d, i, k, t)))
  {
    var p, k, t := cfg.protocol, cfg.SetIndex(r.addr), cfg.Tag(r.addr);
    TransactionEffect(cfg, c, r.core, r.op, k, t, i, k, t);
    SharedMeansHeld(c, r.core, k, t);
    RequesterStates(p, r.op, SharedSignal(c, r.core, k, t));
    assert At(c, i, k) && Legal(p, StateAt(c, i, k, t));
    SnooperStates(p, r.op, StateAt(c, i, k, t));
  }

  /** A transaction served by the tables: the cycles, the counters, and the line of every core. */
  ghost predicate Served(cfg: Config, s: System, r: BusRequest, s': System, latency: nat)
    requires Shaped(cfg, s.caches) && |s.cores| == cfg.cores && r.core < cfg.cores
  {
    var k, t := cfg.SetIndex(r.addr), cfg.Tag(r.addr);
    && Shaped(cfg, s'.caches) && |s'.cores| == cfg.cores
    && latency == Cycles(cfg, s.caches, r)
    && s'.global == Counted(cfg, s.caches, r, s.global)
    && (forall i: nat :: i < cfg.cores ==> s'.cores[i] == CountedCore(cfg, s.caches, r, i, s.cores[i]))
    && RequesterTable(cfg.protocol, r.op, HeldElsewhere(s.caches, r.core, k, t), StateAt(s'.caches, r.core, k, t))
    && (forall i: nat :: i < cfg.cores && i != r.core ==>
          SnooperTable(cfg.protocol, r.op, StateAt(s.caches, i, k, t), StateAt(s'.caches, i, k, t)))
  }

  lemma TransactionServed(cfg: Config, s: System, r: BusRequest)
    requires Shaped(cfg, s.caches) && |s.cores| == cfg.cores && r.core < cfg.cores && Matches(cfg, s.caches, r)
    requires AllLegal(cfg.protocol, s.caches)
    requires !BusFaults(cfg, s.caches, r.core, r.op, cfg.SetIndex(r.addr), cfg.Tag(r.addr))
    ensures Served(cfg, s, r, BusTransaction(cfg, s, r.core, r.op, r.addr),
                   Latency(cfg, s.caches, r.core, r.op, cfg.SetIndex(r.addr), cfg.Tag(r.addr)))
  {
    TransactionCosts(cfg, s, r);
    TransactionStates(cfg, s.caches, r, r.core);
    forall i: nat | i < cfg.cores
      ensures SnoopedCores(cfg, s, r.core, r.op, cfg.SetIndex(r.addr), cfg.Tag(r.addr), cfg.cores)[i]
              == CountedCore(cfg, s.caches, r, i, s.cores[i])
    {
      CoreCosts(cfg, s, r, i);
    }
    forall i: nat | i < cfg.cores && i != r.core
      ensures SnooperTable(cfg.protocol, r.op, StateAt(s.caches, i, cfg.SetIndex(r.addr), cfg.Tag(r.addr)),
                           StateAt(BusCaches(cfg, s.caches, r.core, r.op, cfg.SetIndex(r.addr), cfg.Tag(r.addr)), i,
                                   cfg.SetIndex(r.addr), cfg.Tag(r.addr)))
    {
      TransactionStates(cfg, s.caches, r, i);
    }
  }

  /** Every other line keeps its state, except that the requester may lose the line that makes room. */
  lemma OtherLines(cfg: Config, c: Caches, r: BusRequest, i: nat, k': nat, t': nat)
    requires Shaped(cfg, c) && r.core < cfg.cores && Matches(cfg, c, r) && At(c, i, k')
    requires !BusFaults(cfg, c, r.core, r.op, cfg.SetIndex(r.addr), cfg.Tag(r.addr))
    requires k' != cfg.SetIndex(r.addr) || t' != cfg.Tag(r.addr)
    ensures var p, k, t := cfg.protocol, cfg.SetIndex(r.addr), cfg.Tag(r.addr);
            var d, cs := BusCaches(cfg, c, r.core, r.op, k, t), c[r.core][k];
            && Shaped(cfg, d)
            && StateAt(d, i, k', t') ==
                 if i == r.core && k' == k && r.op != BusUpgr && |cs.lines| >= cfg.assoc
                    && (exists v: nat :: MakesRoom(p, cs, v) && cs.lru[v] == t') then Invalid
                 else StateAt(c, i, k', t')
  {
    var p, k, t := cfg.protocol, cfg.SetIndex(r.addr), cfg.Tag(r.addr);
    var cs := c[r.core][k];
    TransactionEffect(cfg, c, r.core, r.op, k, t, i, k', t');
    if |cs.lru| > 0 {
      forall v: nat
        ensures MakesRoom(p, cs, v) <==> v == VictimAt(p, cs)
      {
        VictimMakesRoom(p, cs, v);
      }
    }
  }
}
