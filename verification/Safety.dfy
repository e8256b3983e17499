/**
 Coherence of the caches over all runs, and why no queued request faults when it is
 served although it was decided when it was fetched.
 */
module Safety {
  import opened Defs
  import opened CacheSets
  import opened Protocols
  import opened Simulation
  import opened Tokens

  predicate Private(st: LineState) {
    st == Exclusive || st == Modified
  }

  /** May two different cores hold one line in these states?  An exclusive or modified copy
      tolerates no other valid copy, and there is at most one forwarder and one dirty owner. */
  predicate Compatible(p: Protocol, a: LineState, b: LineState) {
    && (Private(a) ==> b == Invalid)
    && (Private(b) ==> a == Invalid)
    && !(a == Forward && b == Forward)
    && !(Dirty(p, a) && Dirty(p, b))
  }

  ghost predicate Coherent(p: Protocol, c: Caches) {
    forall i: nat, j: nat, k: nat, t: nat :: i != j && At(c, i, k) && At(c, j, k) ==>
      Compatible(p, StateAt(c, i, k, t), StateAt(c, j, k, t))
  }

  /** Every protocol stays within its own states. */
  ghost predicate AllLegal(p: Protocol, c: Caches) {
    forall i: nat, k: nat, t: nat :: At(c, i, k) ==> Legal(p, StateAt(c, i, k, t))
  }

  /** A resident Dragon line is never Invalid. */
  ghost predicate NeverInvalid(c: Caches) {
    forall i: nat, k: nat, t: nat :: At(c, i, k) && t in c[i][k].lines ==> c[i][k].lines[t] != Invalid
  }

  /** What a queued request may rely on when it is served: an upgrade still finds its entry
      (for Dragon in a shared state), and the line of a read or write miss is still not valid. */
  ghost predicate Matches(cfg: Config, c: Caches, r: BusRequest)
    requires Shaped(cfg, c) && r.core < cfg.cores
  {
    var k, t := cfg.SetIndex(r.addr), cfg.Tag(r.addr);
    && r.op in {BusRd, BusRdX, BusUpgr}
    && (r.op == BusUpgr ==> t in c[r.core][k].lines)
    && (r.op == BusUpgr && cfg.protocol == Dragon ==> IsShared(Dragon, StateAt(c, r.core, k, t)))
    && (r.op != BusUpgr ==> StateAt(c, r.core, k, t) == Invalid)
    && (r.op == BusRdX ==> cfg.protocol != Dragon)
  }

  ghost predicate QueueMatches(cfg: Config, c: Caches, queue: seq<BusRequest>)
    requires Shaped(cfg, c) && forall i :: 0 <= i < |queue| ==> queue[i].core < cfg.cores
  {
    forall i :: 0 <= i < |queue| ==> Matches(cfg, c, queue[i])
  }

  ghost predicate MemoryInv(cfg: Config, s: Sim)
    requires WellFormed(cfg, s)
  {
    && AllListed(s.sys.caches)
    && AllLegal(cfg.protocol, s.sys.caches)
    && Coherent(cfg.protocol, s.sys.caches)
    && (cfg.protocol == Dragon ==> NeverInvalid(s.sys.caches))
    && QueueMatches(cfg, s.sys.caches, s.queue)
  }

  // ----- the transition tables keep lines compatible -----

  lemma SnoopBoth(p: Protocol, op: BusOp, a: LineState, b: LineState)
    requires Compatible(p, a, b) && op in {BusRd, BusRdX, BusUpgr}
    ensures Compatible(p, Snoop(p, op, a), Snoop(p, op, b))
  {
  }

  lemma FillOne(p: Protocol, op: BusOp, shared: bool, b: LineState)
    requires op == BusRd || (op == BusRdX && p != Dragon)
    requires !shared ==> b == Invalid
    ensures Compatible(p, Fill(p, op, shared), Snoop(p, op, b))
  {
  }

  lemma UpgradeOne(p: Protocol, shared: bool, a: LineState, b: LineState)
    requires p == Dragon ==> IsShared(p, a) && Compatible(p, a, b)
    requires !shared ==> b == Invalid
    ensures Compatible(p, Upgraded(p, shared), Snoop(p, BusUpgr, b))
  {
  }

  lemma HitOne(p: Protocol, a: LineState, b: LineState, isWrite: bool)
    requires Compatible(p, a, b) && a != Invalid && Request(p, a, isWrite) == NoOp
    requires Legal(p, a)
    ensures Compatible(p, AfterHit(p, a, isWrite), b)
  {
  }

  lemma CompatibleSymmetric(p: Protocol, a: LineState, b: LineState)
    ensures Compatible(p, a, b) == Compatible(p, b, a)
  {
  }

  // ----- bus transactions -----

  lemma BusCoherent(cfg: Config, c: Caches, r: BusRequest)
    requires Shaped(cfg, c) && r.core < cfg.cores && Coherent(cfg.protocol, c) && Matches(cfg, c, r)
    requires !BusFaults(cfg, c, r.core, r.op, cfg.SetIndex(r.addr), cfg.Tag(r.addr))
    ensures Coherent(cfg.protocol, BusCaches(cfg, c, r.core, r.op, cfg.SetIndex(r.addr), cfg.Tag(r.addr)))
  {
    var p, k, t := cfg.protocol, cfg.SetIndex(r.addr), cfg.Tag(r.addr);
    var d := BusCaches(cfg, c, r.core, r.op, k, t);
    var shared := SharedSignal(c, r.core, k, t);
    BusEffect(cfg, c, r.core, r.op, k, t);
    RequesterEffect(cfg, r.op, c[r.core][k], t, shared);
    forall i: nat, j: nat, k': nat, t': nat | i != j && At(d, i, k') && At(d, j, k')
      ensures Compatible(p, StateAt(d, i, k', t'), StateAt(d, j, k', t'))
    {
      assert Compatible(p, StateAt(c, i, k', t'), StateAt(c, j, k', t'));
      if k' == k && t' == t {
        if i == r.core {
          RequesterOne(cfg, c, r, shared, j);
        } else if j == r.core {
          RequesterOne(cfg, c, r, shared, i);
          CompatibleSymmetric(p, StateAt(d, i, k, t), StateAt(d, j, k, t));
        } else {
          SnoopBoth(p, r.op, StateAt(c, i, k, t), StateAt(c, j, k, t));
        }
      }
    }
  }

  lemma RequesterOne(cfg: Config, c: Caches, r: BusRequest, shared: bool, j: nat)
    requires Shaped(cfg, c) && r.core < cfg.cores && Coherent(cfg.protocol, c) && Matches(cfg, c, r)
    requires j < cfg.cores && j != r.core
    requires shared == SharedSignal(c, r.core, cfg.SetIndex(r.addr), cfg.Tag(r.addr))
    ensures var p, b := cfg.protocol, StateAt(c, j, cfg.SetIndex(r.addr), cfg.Tag(r.addr));
            Compatible(p, if r.op == BusUpgr then Upgraded(p, shared) else Fill(p, r.op, shared), Snoop(p, r.op, b))
  {
    var k, t := cfg.SetIndex(r.addr), cfg.Tag(r.addr);
    var a, b := StateAt(c, r.core, k, t), StateAt(c, j, k, t);
    assert Compatible(cfg.protocol, a, b);
    assert !shared ==> b == Invalid;
    if r.op == BusUpgr {
      UpgradeOne(cfg.protocol, shared, a, b);
    } else {
      FillOne(cfg.protocol, r.op, shared, b);
    }
  }

  /** Requests of other cores keep matching: snooping neither removes an entry nor revives it. */
  lemma BusKeepsMatch(cfg: Config, c: Caches, r: BusRequest, q: BusRequest)
    requires Shaped(cfg, c) && r.core < cfg.cores && Matches(cfg, c, r)
    requires q.core < cfg.cores && q.core != r.core && Matches(cfg, c, q)
    requires !BusFaults(cfg, c, r.core, r.op, cfg.SetIndex(r.addr), cfg.Tag(r.addr))
    ensures Shaped(cfg, BusCaches(cfg, c, r.core, r.op, cfg.SetIndex(r.addr), cfg.Tag(r.addr)))
    ensures Matches(cfg, BusCaches(cfg, c, r.core, r.op, cfg.SetIndex(r.addr), cfg.Tag(r.addr)), q)
  {
    BusEffect(cfg, c, r.core, r.op, cfg.SetIndex(r.addr), cfg.Tag(r.addr));
  }

  lemma BusNeverInvalid(cfg: Config, c: Caches, r: BusRequest)
    requires Shaped(cfg, c) && r.core < cfg.cores && Matches(cfg, c, r) && cfg.protocol == Dragon && NeverInvalid(c)
    requires !BusFaults(cfg, c, r.core, r.op, cfg.SetIndex(r.addr), cfg.Tag(r.addr))
    ensures NeverInvalid(BusCaches(cfg, c, r.core, r.op, cfg.SetIndex(r.addr), cfg.Tag(r.addr)))
  {
  }

  /** Property of the queue: a request that matches the caches does not fault. */
  lemma MatchNoFault(cfg: Config, c: Caches, r: BusRequest)
    requires cfg.Valid() && Shaped(cfg, c) && AllListed(c) && r.core < cfg.cores && Matches(cfg, c, r)
    ensures !BusFaults(cfg, c, r.core, r.op, cfg.SetIndex(r.addr), cfg.Tag(r.addr))
  {
    FullIsListed(cfg.assoc, c[r.core][cfg.SetIndex(r.addr)]);
  }

  lemma BusLegal(cfg: Config, c: Caches, r: BusRequest)
    requires Shaped(cfg, c) && r.core < cfg.cores && Matches(cfg, c, r) && AllLegal(cfg.protocol, c)
    requires !BusFaults(cfg, c, r.core, r.op, cfg.SetIndex(r.addr), cfg.Tag(r.addr))
    ensures AllLegal(cfg.protocol, BusCaches(cfg, c, r.core, r.op, cfg.SetIndex(r.addr), cfg.Tag(r.addr)))
  {
    var p, k, t := cfg.protocol, cfg.SetIndex(r.addr), cfg.Tag(r.addr);
    var d, shared := BusCaches(cfg, c, r.core, r.op, k, t), SharedSignal(c, r.core, k, t);
    BusEffect(cfg, c, r.core, r.op, k, t);
    RequesterEffect(cfg, r.op, c[r.core][k], t, shared);
    forall i: nat, k': nat, t': nat | At(d, i, k')
      ensures Legal(p, StateAt(d, i, k', t'))
    {
      assert Legal(p, StateAt(c, i, k', t'));
    }
  }

  /** Granting the bus keeps the memory invariant. */
  lemma GrantMemory(cfg: Config, s: Sim, e: Event, w: nat, tok: seq<CoreToken>)
    requires WellFormed(cfg, s) && MemoryInv(cfg, s) && QueueOk(s, tok) && w < |s.queue| && !GrantFaults(cfg, s, w)
    ensures WellFormed(cfg, Grant(cfg, s, e, w)) && MemoryInv(cfg, Grant(cfg, s, e, w))
  {
    GrantWellFormed(cfg, s, e, w);
    GrantShape(cfg, s, e, w);
    var r, c := s.queue[w], s.sys.caches;
    var k, t := cfg.SetIndex(r.addr), cfg.Tag(r.addr);
    BusListed(cfg, c, r.core, r.op, k, t);
    BusLegal(cfg, c, r);
    BusCoherent(cfg, c, r);
    if cfg.protocol == Dragon {
      BusNeverInvalid(cfg, c, r);
    }
    GrantQueueMatches(cfg, c, s.queue, w);
  }

  /** The requests that stay in the queue still match the caches. */
  lemma GrantQueueMatches(cfg: Config, c: Caches, queue: seq<BusRequest>, w: nat)
    requires w < |queue| && Shaped(cfg, c) && forall i: nat :: i < |queue| ==> queue[i].core < cfg.cores
    requires QueueMatches(cfg, c, queue)
    requires forall i: nat, j: nat :: i < j < |queue| ==> queue[i].core != queue[j].core
    requires var r := queue[w]; !BusFaults(cfg, c, r.core, r.op, cfg.SetIndex(r.addr), cfg.Tag(r.addr))
    ensures var r, rest := queue[w], queue[..w] + queue[w + 1..];
            var d := BusCaches(cfg, c, r.core, r.op, cfg.SetIndex(r.addr), cfg.Tag(r.addr));
            forall i: nat :: i < |rest| ==> Matches(cfg, d, rest[i])
  {
    var r, rest := queue[w], queue[..w] + queue[w + 1..];
    var d := BusCaches(cfg, c, r.core, r.op, cfg.SetIndex(r.addr), cfg.Tag(r.addr));
    forall i: nat | i < |rest|
      ensures Matches(cfg, d, rest[i])
    {
      var j: nat := if i < w then i else i + 1;
      assert rest[i] == queue[j];
      BusKeepsMatch(cfg, c, r, queue[j]);
    }
  }

  // ----- processor requests -----

  lemma RequestMemory(cfg: Config, c: Caches, id: nat, addr: Uint32, isWrite: bool)
    requires Shaped(cfg, c) && id < cfg.cores && AllLegal(cfg.protocol, c) && Coherent(cfg.protocol, c)
    ensures var d := RequestCaches(cfg, c, id, cfg.SetIndex(addr), cfg.Tag(addr), isWrite);
            AllLegal(cfg.protocol, d) && Coherent(cfg.protocol, d)
  {
    var p, k, t := cfg.protocol, cfg.SetIndex(addr), cfg.Tag(addr);
    var d := RequestCaches(cfg, c, id, k, t, isWrite);
    RequestEffect(cfg, c, id, k, t, isWrite);
    forall i: nat, k': nat, t': nat | At(d, i, k')
      ensures Legal(p, StateAt(d, i, k', t'))
    {
      assert Legal(p, StateAt(c, i, k', t'));
    }
    forall i: nat, j: nat, k': nat, t': nat | i != j && At(d, i, k') && At(d, j, k')
      ensures Compatible(p, StateAt(d, i, k', t'), StateAt(d, j, k', t'))
    {
      var a, b := StateAt(c, i, k', t'), StateAt(c, j, k', t');
      assert Compatible(p, a, b) && Legal(p, a) && Legal(p, b);
      if k' == k && t' == t && RequestOp(cfg, c, id, k, t, isWrite) == NoOp {
        if i == id {
          HitOne(p, a, b, isWrite);
        } else if j == id {
          HitOne(p, b, a, isWrite);
        }
      }
    }
  }

  lemma RequestNeverInvalid(cfg: Config, c: Caches, id: nat, addr: Uint32, isWrite: bool)
    requires Shaped(cfg, c) && id < cfg.cores && cfg.protocol == Dragon && NeverInvalid(c)
    ensures NeverInvalid(RequestCaches(cfg, c, id, cfg.SetIndex(addr), cfg.Tag(addr), isWrite))
  {
  }

  /** Requests of other cores keep matching, and a miss creates a request that matches. */
  lemma RequestMatches(cfg: Config, c: Caches, id: nat, addr: Uint32, isWrite: bool, now: nat)
    requires Shaped(cfg, c) && id < cfg.cores
    ensures var d := RequestCaches(cfg, c, id, cfg.SetIndex(addr), cfg.Tag(addr), isWrite);
            var op := RequestOp(cfg, c, id, cfg.SetIndex(addr), cfg.Tag(addr), isWrite);
            && Shaped(cfg, d)
            && (op != NoOp ==> Matches(cfg, d, BusRequest(id, op, addr, now)))
            && (forall q: BusRequest :: q.core < cfg.cores && q.core != id && Matches(cfg, c, q) ==> Matches(cfg, d, q))
  {
    RequestEffect(cfg, c, id, cfg.SetIndex(addr), cfg.Tag(addr), isWrite);
  }

  lemma FetchMemoryInv(cfg: Config, s: Sim, e: Event, addr: Uint32, isWrite: bool)
    requires WellFormed(cfg, s) && MemoryInv(cfg, s) && e.Fetch? && e.core < cfg.cores
    requires forall i :: 0 <= i < |s.queue| ==> s.queue[i].core != e.core
    ensures WellFormed(cfg, FetchMemory(cfg, s, e, addr, isWrite))
    ensures MemoryInv(cfg, FetchMemory(cfg, s, e, addr, isWrite))
  {
    var c, id, k, t := s.sys.caches, e.core, cfg.SetIndex(addr), cfg.Tag(addr);
    FetchMemoryWellFormed(cfg, s, e, addr, isWrite);
    MemoryShape(cfg, s, e, addr, isWrite);
    RequestListed(cfg, c, id, k, t, isWrite);
    RequestMemory(cfg, c, id, addr, isWrite);
    if cfg.protocol == Dragon {
      RequestNeverInvalid(cfg, c, id, addr, isWrite);
    }
    RequestMatches(cfg, c, id, addr, isWrite, e.time);
  }

  lemma ArbitrateMemory(cfg: Config, s: Sim, e: Event, tok: seq<CoreToken>)
    requires cfg.Valid() && WellFormed(cfg, s) && MemoryInv(cfg, s) && QueueOk(s, tok) && !s.busy && s.queue != []
    ensures FireArbitrate(cfg, s, e).Some?
    ensures WellFormed(cfg, FireArbitrate(cfg, s, e).value) && MemoryInv(cfg, FireArbitrate(cfg, s, e).value)
  {
    var w := Winner(cfg.readPriority, s.queue);
    MatchNoFault(cfg, s.sys.caches, s.queue[w]);
    GrantMemory(cfg, s, e, w, tok);
  }

  /** Every step keeps the memory invariant. */
  lemma StepMemory(cfg: Config, s: Sim, e: Event, tok: seq<CoreToken>, bus: BusToken)
    requires cfg.Valid() && TokenInv(cfg, s, tok, bus) && MemoryInv(cfg, s) && Enabled(s, e)
    ensures Step(cfg, s, e).Some? && WellFormed(cfg, Step(cfg, s, e).value) && MemoryInv(cfg, Step(cfg, s, e).value)
  {
    assert EventOk(s, tok, bus, e);
    match e
    case Release(_) => StepWellFormed(cfg, s, e);
    case Unblock(_, _) => StepWellFormed(cfg, s, e);
    case Arbitrate(_) =>
      if !s.busy && s.queue != [] {
        ArbitrateMemory(cfg, s, e, tok);
      }
    case Fetch(_, c) =>
      assert CoreOk(s, c, tok[c]);
      StepWellFormed(cfg, s, e);
      NoRequestOf(s, c, tok);
      FetchStepMemory(cfg, s, e);
  }

  lemma NoRequestOf(s: Sim, c: nat, tok: seq<CoreToken>)
    requires QueueOk(s, tok) && c < |tok| && !tok[c].AtBus?
    ensures forall i :: 0 <= i < |s.queue| ==> s.queue[i].core != c
  {
  }

  lemma FetchStepMemory(cfg: Config, s: Sim, e: Event)
    requires WellFormed(cfg, s) && MemoryInv(cfg, s) && e in s.events && e.Fetch?
    requires forall i :: 0 <= i < |s.queue| ==> s.queue[i].core != e.core
    ensures WellFormed(cfg, FireFetch(cfg, s, e)) && MemoryInv(cfg, FireFetch(cfg, s, e))
  {
    var c := e.core;
    StepWellFormed(cfg, s, e);
    if !s.blocked[c] && s.traces[c] != [] && s.traces[c][0].kind != 2 {
      var entry := s.traces[c][0];
      var s2 := Pop(s, e).(traces := s.traces[c := s.traces[c][1..]]);
      FetchMemoryInv(cfg, s2, e, entry.val, entry.kind == 1);
    }
  }

  lemma StartMemory(cfg: Config, traces: seq<seq<TraceEntry>>)
    requires cfg.Valid() && |traces| == cfg.cores
    ensures WellFormed(cfg, Start(cfg, traces)) && MemoryInv(cfg, Start(cfg, traces))
  {
    StartWellFormed(cfg, traces);
  }
}
