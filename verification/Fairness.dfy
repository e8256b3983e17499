/**
 What the arbitration order guarantees to a waiting request.
 */
module Fairness {
  import opened Defs
  import opened Sequences
  import opened Simulation
  import opened Tokens

  /** How many requests of the queue come before `r` in the order of the arbiter. */
  ghost function Ahead(readPriority: bool, q: seq<BusRequest>, r: BusRequest): nat {
    if q == [] then 0
    else Ahead(readPriority, q[..|q| - 1], r) + (if Wins(readPriority, q[|q| - 1], r) then 1 else 0)
  }

  /** With read priority every later read is put ahead of a waiting request that is not a read; a waiting
      read, or any request without read priority, is never put back. */
  lemma LaterRequest(readPriority: bool, q: seq<BusRequest>, r: BusRequest, later: BusRequest)
    requires r.arrival < later.arrival
    ensures Ahead(readPriority, q + [later], r)
            == Ahead(readPriority, q, r) + if readPriority && later.op == BusRd && r.op != BusRd then 1 else 0
  {
    assert (q + [later])[..|q|] == q;
  }

  lemma {:induction false} AheadCut(rp: bool, q: seq<BusRequest>, w: nat, r: BusRequest)
    requires w < |q|
    ensures Ahead(rp, q, r) == Ahead(rp, q[..w] + q[w + 1..], r) + (if Wins(rp, q[w], r) then 1 else 0)
  {
    var n := |q| - 1;
    var cut := q[..w] + q[w + 1..];
    if w == n {
      assert cut == q[..n];
    } else {
      AheadCut(rp, q[..n], w, r);
      assert cut[..n - 1] == q[..n][..w] + q[..n][w + 1..];
      assert cut[n - 1] == q[n];
    }
  }

  lemma {:induction false} AheadBound(rp: bool, q: seq<BusRequest>, r: BusRequest)
    ensures Ahead(rp, q, r) <= |q|
    ensures r in q ==> Ahead(rp, q, r) < |q|
  {
    if q != [] {
      AheadBound(rp, q[..|q| - 1], r);
      if r in q && r != q[|q| - 1] {
        assert r in q[..|q| - 1];
      }
    }
  }

  ghost predicate IsGrant(s: Sim, s': Sim) {
    !s.busy && s'.busy
  }

  /** In a step that grants, the request that leaves the queue precedes every request left in it: none of
      them has a strictly earlier arrival, unless a read passes a request that is not a read. */
  lemma StepGrantsFirst(cfg: Config, s: Sim, e: Event, s': Sim, r: BusRequest, q: BusRequest)
    requires IsStep(cfg, s, e, s') && IsGrant(s, s') && r in s.queue && r !in s'.queue && q in s'.queue
    ensures !Wins(cfg.readPriority, q, r)
    ensures q.arrival < r.arrival ==> cfg.readPriority && r.op == BusRd && q.op != BusRd
  {
    if e.Fetch? {
      NoGrantByFetch(cfg, s, e);
    }
    var w := Winner(cfg.readPriority, s.queue);
    assert s'.queue == s.queue[..w] + s.queue[w + 1..];
    LeftInQueue(s.queue, w, r, q);
  }

  lemma LeftInQueue(all: seq<BusRequest>, w: nat, r: BusRequest, q: BusRequest)
    requires w < |all| && var rest := all[..w] + all[w + 1..]; r in all && r !in rest && q in rest
    ensures all[w] == r && q in all
  {
    var rest := all[..w] + all[w + 1..];
    var j :| 0 <= j < |all| && all[j] == r;
    if j != w {
      CutHas(all, w, j);
    }
    var i :| 0 <= i < |rest| && rest[i] == q;
    assert all[if i < w then i else i + 1] == q;
  }

  lemma NoGrantByFetch(cfg: Config, s: Sim, e: Event)
    requires WellFormed(cfg, s) && e in s.events && e.Fetch?
    ensures FireFetch(cfg, s, e).busy == s.busy
  {
    if !s.blocked[e.core] && s.traces[e.core] != [] {
      FetchShape(cfg, s, e);
    }
  }

  /** A request that later arrivals do not overtake. */
  predicate KeepsPlace(cfg: Config, r: BusRequest) {
    !cfg.readPriority || r.op == BusRd
  }

  /** One step while `r` waits, the clock being past its arrival: a grant to another core
      brings `r` one place forward, and nothing else moves it. */
  lemma StepAhead(cfg: Config, s: Sim, e: Event, s': Sim, r: BusRequest, tok: seq<CoreToken>, bus: BusToken)
    requires KeepsPlace(cfg, r) && TokenInv(cfg, s, tok, bus) && IsStep(cfg, s, e, s')
    requires r in s.queue && r in s'.queue && r.arrival < s.now
    ensures Ahead(cfg.readPriority, s.queue, r)
            == Ahead(cfg.readPriority, s'.queue, r) + (if IsGrant(s, s') then 1 else 0)
    ensures s.now <= s'.now
  {
    assert EventOk(s, tok, bus, e);
    match e
    case Release(_) =>
    case Unblock(_, _) =>
    case Arbitrate(_) =>
      if !s.busy && s.queue != [] {
        GrantAhead(cfg, s, e, Winner(cfg.readPriority, s.queue), r, tok);
      }
    case Fetch(_, c) =>
      assert CoreOk(s, c, tok[c]);
      if s.traces[c] != [] {
        FetchAhead(cfg, s, e, r);
      }
  }

  lemma GrantAhead(cfg: Config, s: Sim, e: Event, w: nat, r: BusRequest, tok: seq<CoreToken>)
    requires WellFormed(cfg, s) && QueueOk(s, tok) && w < |s.queue| && !GrantFaults(cfg, s, w)
    requires forall i :: 0 <= i < |s.queue| ==> !Wins(cfg.readPriority, s.queue[i], s.queue[w])
    requires r in Grant(cfg, s, e, w).queue
    ensures Ahead(cfg.readPriority, s.queue, r) == Ahead(cfg.readPriority, Grant(cfg, s, e, w).queue, r) + 1
  {
    assert s.queue[w].op != Writeback;
    GrantShape(cfg, s, e, w);
    AheadCut(cfg.readPriority, s.queue, w, r);
    GrantPasses(cfg.readPriority, s.queue, w, r);
  }

  lemma FetchAhead(cfg: Config, s: Sim, e: Event, r: BusRequest)
    requires WellFormed(cfg, s) && e in s.events && e.Fetch? && !s.blocked[e.core] && s.traces[e.core] != []
    requires r.arrival < e.time && KeepsPlace(cfg, r)
    ensures Ahead(cfg.readPriority, FireFetch(cfg, s, e).queue, r) == Ahead(cfg.readPriority, s.queue, r)
    ensures FireFetch(cfg, s, e).busy == s.busy
  {
    FetchShape(cfg, s, e);
    var s' := FireFetch(cfg, s, e);
    if Misses(cfg, s, e, s') {
      LaterRequest(cfg.readPriority, s.queue, r, s'.queue[|s.queue|]);
    }
  }

  lemma GrantPasses(rp: bool, q: seq<BusRequest>, w: nat, r: BusRequest)
    requires w < |q| && r in q[..w] + q[w + 1..]
    requires forall i :: 0 <= i < |q| ==> !Wins(rp, q[i], q[w])
    requires forall i: nat, j: nat :: i < j < |q| ==> q[i].core != q[j].core
    ensures Wins(rp, q[w], r)
  {
    var cut := q[..w] + q[w + 1..];
    var i: nat :| i < |cut| && cut[i] == r;
    var j: nat := if i < w then i else i + 1;
    assert q[j] == r && j != w;
    assert !Wins(rp, q[j], q[w]);
    assert q[j].core != q[w].core;
  }

  /** Grants among the steps m+1 .. n. */
  ghost function Grants(states: seq<Sim>, m: nat, n: nat): nat
    requires m <= n < |states|
  {
    if m == n then 0 else Grants(states, m, n - 1) + (if IsGrant(states[n - 1], states[n]) then 1 else 0)
  }

  lemma QueueBound(cfg: Config, s: Sim, tok: seq<CoreToken>, bus: BusToken)
    requires TokenInv(cfg, s, tok, bus)
    ensures |s.queue| <= cfg.cores
  {
    Pigeonhole(seq(|s.queue|, i requires 0 <= i < |s.queue| => s.queue[i].core), cfg.cores);
  }

  lemma {:induction false} Pigeonhole(xs: seq<nat>, n: nat)
    requires forall i :: 0 <= i < |xs| ==> xs[i] < n
    requires forall i, j :: 0 <= i < j < |xs| ==> xs[i] != xs[j]
    ensures |xs| <= n
    decreases n
  {
    if |xs| > 0 {
      assert xs[0] < n;
      if i :| 0 <= i < |xs| && xs[i] == n - 1 {
        Pigeonhole(xs[..i] + xs[i + 1..], n - 1);
      } else {
        Pigeonhole(xs, n - 1);
      }
    }
  }
}
