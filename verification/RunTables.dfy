/**
 What every step of every run does, by the tables written out in `Tables`: the
 events in their order, the accesses, the grants, and what starts and ends a run.
 */
module RunTables {
  import opened Defs
  import opened Protocols
  import opened Simulation
  import opened Tokens
  import opened Safety
  import opened Runs
  import opened Sequences
  import opened Tables

  // ----- the order of events -----

  /** The event fired is due no later than any other pending one; of those due now, releases come before
      arbitrations, these before unblocks, and these before fetches. */
  lemma FiresInOrder(cfg: Config, traces: seq<seq<TraceEntry>>, states: seq<Sim>, fired: seq<Event>, n: nat, f: Event)
    requires IsRun(cfg, traces, states, fired) && n < |fired| && f in states[n].events
    ensures var e := fired[n];
            && e in states[n].events && states[n + 1].now == e.time
            && (f.time > e.time
                || (f.time == e.time
                    && (e.Release? || (e.Arbitrate? && !f.Release?) || (e.Unblock? && (f.Unblock? || f.Fetch?))
                        || (e.Fetch? && f.Fetch?))))
  {
    assert StepAt(cfg, states, fired, n);
    StepClock(cfg, states[n], fired[n]);
    assert !Earlier(f, fired[n]);
  }

  // ----- grants -----

  lemma StepGrantOf(cfg: Config, s: Sim, e: Event, s': Sim, r: BusRequest) returns (w: nat)
    requires IsStep(cfg, s, e, s') && r in s.queue && r !in s'.queue
    ensures e.Arbitrate? && !s.busy && w < |s.queue| && s.queue[w] == r && !GrantFaults(cfg, s, w)
    ensures s' == Grant(cfg, s, e, w)
  {
    if e.Fetch? {
      FetchKeepsQueue(cfg, s, e);
    }
    w := Winner(cfg.readPriority, s.queue);
    assert s' == Grant(cfg, s, e, w);
    QueueWithout(s.queue, w, r);
  }

  lemma FetchKeepsQueue(cfg: Config, s: Sim, e: Event)
    requires WellFormed(cfg, s) && e in s.events && e.Fetch?
    ensures forall r :: r in s.queue ==> r in FireFetch(cfg, s, e).queue
  {
    if !s.blocked[e.core] && s.traces[e.core] != [] {
      FetchShape(cfg, s, e);
    }
  }

  lemma QueueWithout(q: seq<BusRequest>, w: nat, r: BusRequest)
    requires w < |q| && r in q && r !in q[..w] + q[w + 1..]
    ensures q[w] == r
  {
    var j: nat :| j < |q| && q[j] == r;
    if j != w {
      CutHas(q, w, j);
    }
  }

  /** A step of a run in which the request `r` is granted the bus. */
  ghost predicate Grants(cfg: Config, s: Sim, e: Event, s': Sim, r: BusRequest, w: nat) {
    && WellFormed(cfg, s) && WellFormed(cfg, s') && r.core < cfg.cores
    && w < |s.queue| && s.queue[w] == r && !GrantFaults(cfg, s, w) && s' == Grant(cfg, s, e, w)
    && AllLegal(cfg.protocol, s.sys.caches) && Matches(cfg, s.sys.caches, r)
  }

  lemma RunGrants(cfg: Config, traces: seq<seq<TraceEntry>>, states: seq<Sim>, fired: seq<Event>, n: nat, r: BusRequest)
    returns (w: nat)
    requires IsRun(cfg, traces, states, fired) && n < |fired| && r in states[n].queue && r !in states[n + 1].queue
    ensures Grants(cfg, states[n], fired[n], states[n + 1], r, w) && fired[n].Arbitrate? && !states[n].busy
  {
    RunInv(cfg, traces, states, fired, n);
    RunInv(cfg, traces, states, fired, n + 1);
    assert StepAt(cfg, states, fired, n);
    w := StepGrantOf(cfg, states[n], fired[n], states[n + 1], r);
  }

  /** The states a grant leaves: of the requester's line, and of the same line in every other core. */
  lemma GrantStates(cfg: Config, traces: seq<seq<TraceEntry>>, states: seq<Sim>, fired: seq<Event>, n: nat,
                    r: BusRequest, i: nat)
    requires IsRun(cfg, traces, states, fired) && n < |fired| && r in states[n].queue && r !in states[n + 1].queue
    requires i < cfg.cores
    ensures WellFormed(cfg, states[n]) && WellFormed(cfg, states[n + 1]) && r.core < cfg.cores
    ensures var p, k, t := cfg.protocol, cfg.SetIndex(r.addr), cfg.Tag(r.addr);
            var c, d := states[n].sys.caches, states[n + 1].sys.caches;
            if i == r.core then RequesterTable(p, r.op, HeldElsewhere(c, i, k, t), StateAt(d, i, k, t))
            else SnooperTable(p, r.op, StateAt(c, i, k, t), StateAt(d, i, k, t))
  {
    var w := RunGrants(cfg, traces, states, fired, n, r);
    TransactionStates(cfg, states[n].sys.caches, r, i);
  }

  /** Every other line keeps its state in a grant, except the one that makes room in the requester's set. */
  lemma GrantKeeps(cfg: Config, traces: seq<seq<TraceEntry>>, states: seq<Sim>, fired: seq<Event>, n: nat,
                   r: BusRequest, i: nat, k: nat, t: nat)
    requires IsRun(cfg, traces, states, fired) && n < |fired| && r in states[n].queue && r !in states[n + 1].queue
    requires i < cfg.cores && k < cfg.NumSets() && (k != cfg.SetIndex(r.addr) || t != cfg.Tag(r.addr))
    ensures WellFormed(cfg, states[n]) && WellFormed(cfg, states[n + 1])
    ensures var cs := states[n].sys.caches[i][k];
            StateAt(states[n + 1].sys.caches, i, k, t) ==
              if i == r.core && k == cfg.SetIndex(r.addr) && r.op != BusUpgr && |cs.lines| >= cfg.assoc
                 && (exists v: nat :: MakesRoom(cfg.protocol, cs, v) && cs.lru[v] == t) then Invalid
              else StateAt(states[n].sys.caches, i, k, t)
  {
    var w := RunGrants(cfg, traces, states, fired, n, r);
    OtherLines(cfg, states[n].sys.caches, r, i, k, t);
  }

  lemma GrantedStats(cfg: Config, s: Sim, e: Event, s': Sim, r: BusRequest, w: nat)
    requires Grants(cfg, s, e, s', r, w)
    ensures s'.sys.global == Counted(cfg, s.sys.caches, r, s.sys.global)
    ensures forall i: nat :: i < cfg.cores ==> s'.sys.cores[i] == CountedCore(cfg, s.sys.caches, r, i, s.sys.cores[i])
  {
    TransactionCosts(cfg, s.sys, r);
    forall i: nat | i < cfg.cores
      ensures s'.sys.cores[i] == CountedCore(cfg, s.sys.caches, r, i, s.sys.cores[i])
    {
      CoreCosts(cfg, s.sys, r, i);
    }
  }

  /** The bus is held for the given cycles, at whose end it is released and the core unblocked. */
  ghost predicate GrantFlow(s: Sim, e: Event, s': Sim, core: nat, cycles: nat) {
    && !s.busy && s'.busy && s'.now == e.time
    && s'.events == s.events - multiset{e} + multiset{Release(e.time + cycles)}
                    + multiset{Unblock(e.time + cycles, core)}
    && s'.blocked == s.blocked && s'.exhausted == s.exhausted && s'.traces == s.traces
  }

  lemma GrantedFlow(cfg: Config, s: Sim, e: Event, s': Sim, r: BusRequest, w: nat)
    requires Grants(cfg, s, e, s', r, w) && !s.busy
    ensures GrantFlow(s, e, s', r.core, Cycles(cfg, s.sys.caches, r))
  {
    TransactionCosts(cfg, s.sys, r);
    FlowOf(cfg, s, e, w, Cycles(cfg, s.sys.caches, r));
  }

  lemma FlowOf(cfg: Config, s: Sim, e: Event, w: nat, latency: nat)
    requires WellFormed(cfg, s) && w < |s.queue| && !GrantFaults(cfg, s, w) && s.queue[w].op != Writeback && !s.busy
    requires latency == GrantLatency(cfg, s, w)
    ensures GrantFlow(s, e, Grant(cfg, s, e, w), s.queue[w].core, latency)
  {
    GrantShape(cfg, s, e, w);
  }

  /** What a grant costs: the cycles the bus is held, and what each counter gains. */
  lemma GrantCosts(cfg: Config, traces: seq<seq<TraceEntry>>, states: seq<Sim>, fired: seq<Event>, n: nat,
                   r: BusRequest)
    requires IsRun(cfg, traces, states, fired) && n < |fired| && r in states[n].queue && r !in states[n + 1].queue
    ensures WellFormed(cfg, states[n]) && WellFormed(cfg, states[n + 1]) && r.core < cfg.cores
    ensures var s, s' := states[n], states[n + 1];
            && GrantFlow(s, fired[n], s', r.core, Cycles(cfg, s.sys.caches, r))
            && s'.sys.global == Counted(cfg, s.sys.caches, r, s.sys.global)
            && forall i: nat :: i < cfg.cores ==>
                 s'.sys.cores[i] == CountedCore(cfg, s.sys.caches, r, i, s.sys.cores[i])
  {
    var w := RunGrants(cfg, traces, states, fired, n, r);
    GrantedStats(cfg, states[n], fired[n], states[n + 1], r, w);
    GrantedFlow(cfg, states[n], fired[n], states[n + 1], r, w);
  }

  // ----- accesses -----

  /** The step fetches the memory access `entry` for a core that is not blocked. */
  ghost predicate Accesses(s: Sim, e: Event, entry: TraceEntry) {
    && e.Fetch? && e.core < |s.blocked| && e.core < |s.traces| && !s.blocked[e.core]
    && s.traces[e.core] != [] && s.traces[e.core][0] == entry && entry.kind != 2
  }

  /** The statistics of a core after an access: a load or a store, a hit or a miss, a private or a shared hit. */
  function AccessCounted(cs: CoreStats, isWrite: bool, hit: bool, left: LineState): CoreStats {
    cs.(loads := cs.loads + (if isWrite then 0 else 1),
        stores := cs.stores + (if isWrite then 1 else 0),
        hits := cs.hits + (if hit then 1 else 0),
        misses := cs.misses + (if hit then 0 else 1),
        privateAccesses := cs.privateAccesses + (if hit && left in {Exclusive, Modified} then 1 else 0),
        sharedAccesses := cs.sharedAccesses + (if hit && left !in {Exclusive, Modified} then 1 else 0))
  }

  /** An access that needs `op`: a hit fetches again one cycle later; a miss blocks the core, queues its request, and
      asks for an arbitration if the bus is free. */
  ghost predicate AccessFlow(s: Sim, e: Event, s': Sim, op: BusOp, addr: Uint32)
    requires e.Fetch? && e.core < |s.blocked| && e.core < |s.traces| && s.traces[e.core] != []
  {
    && s'.now == e.time && s'.busy == s.busy && s'.exhausted == s.exhausted
    && s'.traces == s.traces[e.core := s.traces[e.core][1..]]
    && (op == NoOp ==>
         && s'.queue == s.queue && s'.blocked == s.blocked
         && s'.events == s.events - multiset{e} + multiset{Fetch(e.time + 1, e.core)})
    && (op != NoOp ==>
         && s'.queue == s.queue + [BusRequest(e.core, op, addr, e.time)]
         && s'.blocked == s.blocked[e.core := true]
         && s'.events == s.events - multiset{e} + (if s.busy then multiset{} else multiset{Arbitrate(e.time)}))
  }

  /** The step of an access whose request is `op`. */
  ghost predicate Requests(cfg: Config, s: Sim, e: Event, s': Sim, entry: TraceEntry, op: BusOp) {
    && WellFormed(cfg, s) && WellFormed(cfg, s') && Accesses(s, e, entry) && e.core < cfg.cores
    && AllLegal(cfg.protocol, s.sys.caches) && e in s.events && s' == FireFetch(cfg, s, e)
    && op == RequestOp(cfg, s.sys.caches, e.core, cfg.SetIndex(entry.val), cfg.Tag(entry.val), entry.kind == 1)
  }

  lemma RunRequests(cfg: Config, traces: seq<seq<TraceEntry>>, states: seq<Sim>, fired: seq<Event>, n: nat,
                    entry: TraceEntry) returns (op: BusOp)
    requires IsRun(cfg, traces, states, fired) && n < |fired| && Accesses(states[n], fired[n], entry)
    ensures Requests(cfg, states[n], fired[n], states[n + 1], entry, op)
  {
    RunInv(cfg, traces, states, fired, n);
    RunInv(cfg, traces, states, fired, n + 1);
    assert StepAt(cfg, states, fired, n);
    op := RequestOp(cfg, states[n].sys.caches, fired[n].core, cfg.SetIndex(entry.val), cfg.Tag(entry.val),
                    entry.kind == 1);
  }

  /** The caches after an access are those after its request. */
  lemma RequestedCaches(cfg: Config, s: Sim, e: Event, s': Sim, entry: TraceEntry, op: BusOp)
    requires Requests(cfg, s, e, s', entry, op)
    ensures s'.sys.caches == RequestCaches(cfg, s.sys.caches, e.core, cfg.SetIndex(entry.val), cfg.Tag(entry.val),
                                           entry.kind == 1)
  {
  }

  lemma RequestedLine(cfg: Config, s: Sim, e: Event, s': Sim, entry: TraceEntry, op: BusOp)
    requires Requests(cfg, s, e, s', entry, op)
    ensures var k, t := cfg.SetIndex(entry.val), cfg.Tag(entry.val);
            RequestTable(cfg.protocol, entry.kind == 1, StateAt(s.sys.caches, e.core, k, t), op,
                         StateAt(s'.sys.caches, e.core, k, t))
  {
    var c, k, t := s.sys.caches, cfg.SetIndex(entry.val), cfg.Tag(entry.val);
    RequestedCaches(cfg, s, e, s', entry, op);
    assert At(c, e.core, k) && Legal(cfg.protocol, StateAt(c, e.core, k, t));
    RequestStates(cfg, c, e.core, k, t, entry.kind == 1);
  }

  lemma RequestedStats(cfg: Config, s: Sim, e: Event, s': Sim, entry: TraceEntry, op: BusOp)
    requires Requests(cfg, s, e, s', entry, op)
    ensures var left := StateAt(s'.sys.caches, e.core, cfg.SetIndex(entry.val), cfg.Tag(entry.val));
            && s'.sys.global == s.sys.global
            && s'.sys.cores == s.sys.cores[e.core :=
                 AccessCounted(s.sys.cores[e.core], entry.kind == 1, op == NoOp, left)]
  {
    var c, k, t, isWrite := s.sys.caches, cfg.SetIndex(entry.val), cfg.Tag(entry.val), entry.kind == 1;
    RequestedCaches(cfg, s, e, s', entry, op);
    var st := StateAt(c, e.core, k, t);
    assert At(c, e.core, k) && Legal(cfg.protocol, st);
    RequestEffect(cfg, c, e.core, k, t, isWrite);
    StatsAre(cfg, s, e, entry.val, isWrite, op, st);
    CountedIs(cfg.protocol, s.sys.cores[e.core], st, isWrite);
  }

  lemma CountedIs(p: Protocol, cs: CoreStats, st: LineState, isWrite: bool)
    requires Legal(p, st)
    ensures var issued, left, op := CountIssue(cs, isWrite), AfterHit(p, st, isWrite), Request(p, st, isWrite);
            && (op == NoOp ==>
                 var hit := CountAccess(p, issued, left);
                 hit.(hits := hit.hits + 1) == AccessCounted(cs, isWrite, true, left))
            && issued.(misses := issued.misses + 1) == AccessCounted(cs, isWrite, false, st)
  {
    if Request(p, st, isWrite) == NoOp {
      HitCounted(p, CountIssue(cs, isWrite), AfterHit(p, st, isWrite));
    }
  }

  lemma StatsAre(cfg: Config, s: Sim, e: Event, addr: Uint32, isWrite: bool, op: BusOp, st: LineState)
    requires WellFormed(cfg, s) && e.Fetch? && e.core < cfg.cores
    requires op == RequestOp(cfg, s.sys.caches, e.core, cfg.SetIndex(addr), cfg.Tag(addr), isWrite)
    requires st == StateAt(s.sys.caches, e.core, cfg.SetIndex(addr), cfg.Tag(addr))
    ensures var s', cs := FetchMemory(cfg, s, e, addr, isWrite), CountIssue(s.sys.cores[e.core], isWrite);
            && s'.sys.global == s.sys.global
            && s'.sys.cores == s.sys.cores[e.core :=
                 if op == NoOp then
                   var hit := CountAccess(cfg.protocol, cs, AfterHit(cfg.protocol, st, isWrite));
                   hit.(hits := hit.hits + 1)
                 else cs.(misses := cs.misses + 1)]
  {
  }

  lemma RequestedFlow(cfg: Config, s: Sim, e: Event, s': Sim, entry: TraceEntry, op: BusOp)
    requires Requests(cfg, s, e, s', entry, op)
    ensures AccessFlow(s, e, s', op, entry.val)
  {
    var s2 := Pop(s, e).(traces := s.traces[e.core := s.traces[e.core][1..]]);
    MemoryShape(cfg, s2, e, entry.val, entry.kind == 1);
  }

  /** An access changes only the line it names, and only by a write hit, which leaves it Modified. */
  lemma AccessStates(cfg: Config, traces: seq<seq<TraceEntry>>, states: seq<Sim>, fired: seq<Event>, n: nat,
                     entry: TraceEntry, i: nat, k: nat, t: nat)
    requires IsRun(cfg, traces, states, fired) && n < |fired| && Accesses(states[n], fired[n], entry)
    requires i < cfg.cores && k < cfg.NumSets()
    ensures WellFormed(cfg, states[n]) && WellFormed(cfg, states[n + 1])
    ensures var a, b := StateAt(states[n].sys.caches, i, k, t), StateAt(states[n + 1].sys.caches, i, k, t);
            b == if i == fired[n].core && k == cfg.SetIndex(entry.val) && t == cfg.Tag(entry.val) && entry.kind == 1
                    && a in {Exclusive, Modified} then Modified else a
  {
    var op := RunRequests(cfg, traces, states, fired, n, entry);
    var c, k0, t0 := states[n].sys.caches, cfg.SetIndex(entry.val), cfg.Tag(entry.val);
    RequestedCaches(cfg, states[n], fired[n], states[n + 1], entry, op);
    RequestedLine(cfg, states[n], fired[n], states[n + 1], entry, op);
    RequestEffect(cfg, c, fired[n].core, k0, t0, entry.kind == 1);
  }

  /** Whether an access hits, what it asks of the bus, and what it counts. */
  lemma AccessCosts(cfg: Config, traces: seq<seq<TraceEntry>>, states: seq<Sim>, fired: seq<Event>, n: nat,
                    entry: TraceEntry) returns (op: BusOp)
    requires IsRun(cfg, traces, states, fired) && n < |fired| && Accesses(states[n], fired[n], entry)
    ensures WellFormed(cfg, states[n]) && WellFormed(cfg, states[n + 1]) && fired[n].core < cfg.cores
    ensures AccessFlow(states[n], fired[n], states[n + 1], op, entry.val)
    ensures var s, s', c, k, t := states[n], states[n + 1], fired[n].core, cfg.SetIndex(entry.val), cfg.Tag(entry.val);
            var left := StateAt(s'.sys.caches, c, k, t);
            && RequestTable(cfg.protocol, entry.kind == 1, StateAt(s.sys.caches, c, k, t), op, left)
            && s'.sys.global == s.sys.global
            && s'.sys.cores == s.sys.cores[c := AccessCounted(s.sys.cores[c], entry.kind == 1, op == NoOp, left)]
  {
    op := RunRequests(cfg, traces, states, fired, n, entry);
    RequestedLine(cfg, states[n], fired[n], states[n + 1], entry, op);
    RequestedStats(cfg, states[n], fired[n], states[n + 1], entry, op);
    RequestedFlow(cfg, states[n], fired[n], states[n + 1], entry, op);
  }

  // ----- the other steps -----

  /** A free bus with waiting requests grants one at the next arbitration. */
  lemma ArbitrationGrants(cfg: Config, traces: seq<seq<TraceEntry>>, states: seq<Sim>, fired: seq<Event>, n: nat)
    returns (r: BusRequest)
    requires IsRun(cfg, traces, states, fired) && n < |fired|
    requires fired[n].Arbitrate? && !states[n].busy && states[n].queue != []
    ensures r in states[n].queue && r !in states[n + 1].queue
  {
    assert StepAt(cfg, states, fired, n);
    QueuedOnce(cfg, traces, states, fired, n);
    r := Dequeued(cfg, states[n], fired[n], states[n + 1]);
  }

  lemma QueuedOnce(cfg: Config, traces: seq<seq<TraceEntry>>, states: seq<Sim>, fired: seq<Event>, n: nat)
    requires IsRun(cfg, traces, states, fired) && n <= |fired|
    ensures forall i: nat, j: nat :: i < j < |states[n].queue| ==> states[n].queue[i].core != states[n].queue[j].core
  {
    OneTokenPerCore(cfg, traces, states, fired, n, 0);
  }

  lemma Dequeued(cfg: Config, s: Sim, e: Event, s': Sim) returns (r: BusRequest)
    requires IsStep(cfg, s, e, s') && e.Arbitrate? && !s.busy && s.queue != []
    requires forall i: nat, j: nat :: i < j < |s.queue| ==> s.queue[i].core != s.queue[j].core
    ensures r in s.queue && r !in s'.queue
  {
    var w := Winner(cfg.readPriority, s.queue);
    assert s'.queue == s.queue[..w] + s.queue[w + 1..];
    r := s.queue[w];
    LeavesQueue(s.queue, w);
  }

  lemma LeavesQueue(q: seq<BusRequest>, w: nat)
    requires w < |q| && forall i: nat, j: nat :: i < j < |q| ==> q[i].core != q[j].core
    ensures q[w] !in q[..w] + q[w + 1..]
  {
    var rest := q[..w] + q[w + 1..];
    forall j | 0 <= j < |rest|
      ensures rest[j] != q[w]
    {
      assert rest[j] == q[if j < w then j else j + 1];
    }
  }

  /** A release frees the bus and arbitrates if any request waits; an unblock lets its core fetch; an arbitration of
      a bus that is held, or that nobody waits for, does nothing; and a fetch that finds no memory access computes or
      ends the trace. */
  lemma OtherSteps(cfg: Config, traces: seq<seq<TraceEntry>>, states: seq<Sim>, fired: seq<Event>, n: nat)
    requires IsRun(cfg, traces, states, fired) && n < |fired|
    ensures var s, s', e := states[n], states[n + 1], fired[n];
            var rest := s.events - multiset{e};
            && WellFormed(cfg, s)
            && (e.Release? ==>
                 s' == s.(now := e.time, busy := false,
                          events := rest + if s.queue == [] then multiset{} else multiset{Arbitrate(e.time)}))
            && (e.Unblock? ==>
                 && e.core < cfg.cores
                 && s' == s.(now := e.time, blocked := s.blocked[e.core := false],
                             events := rest + multiset{Fetch(e.time, e.core)}))
            && (e.Arbitrate? && (s.busy || s.queue == []) ==> s' == s.(now := e.time, events := rest))
            && (e.Fetch? ==> e.core < cfg.cores && !s.blocked[e.core])
            && (e.Fetch? && s.traces[e.core] == [] ==>
                 s' == s.(now := e.time, events := rest, exhausted := s.exhausted[e.core := true]))
  {
    RunInv(cfg, traces, states, fired, n);
    assert StepAt(cfg, states, fired, n);
    NotBlocked(cfg, states[n], fired[n]);
    OtherStep(cfg, states[n], fired[n], states[n + 1]);
  }

  lemma NotBlocked(cfg: Config, s: Sim, e: Event)
    requires WellFormed(cfg, s) && HasTokens(cfg, s) && e in s.events
    ensures e.Fetch? ==> !s.blocked[e.core]
  {
    var tok: seq<CoreToken>, bus: BusToken :| TokenInv(cfg, s, tok, bus);
    assert EventOk(s, tok, bus, e);
    if e.Fetch? {
      assert CoreOk(s, e.core, tok[e.core]);
    }
  }

  lemma OtherStep(cfg: Config, s: Sim, e: Event, s': Sim)
    requires IsStep(cfg, s, e, s')
    ensures var rest := s.events - multiset{e};
            && (e.Release? ==>
                 s' == s.(now := e.time, busy := false,
                          events := rest + if s.queue == [] then multiset{} else multiset{Arbitrate(e.time)}))
            && (e.Unblock? ==>
                 && e.core < cfg.cores
                 && s' == s.(now := e.time, blocked := s.blocked[e.core := false],
                             events := rest + multiset{Fetch(e.time, e.core)}))
            && (e.Arbitrate? && (s.busy || s.queue == []) ==> s' == s.(now := e.time, events := rest))
            && (e.Fetch? && !s.blocked[e.core] && s.traces[e.core] == [] ==>
                 s' == s.(now := e.time, events := rest, exhausted := s.exhausted[e.core := true]))
  {
    assert s.events - multiset{e} + multiset{} == s.events - multiset{e};
  }

  /** A compute entry adds its cycles to the clock of the core, and nothing else. */
  lemma ComputeSteps(cfg: Config, traces: seq<seq<TraceEntry>>, states: seq<Sim>, fired: seq<Event>, n: nat,
                     val: Uint32)
    requires IsRun(cfg, traces, states, fired) && n < |fired| && fired[n].Fetch? && fired[n].core < cfg.cores
    requires WellFormed(cfg, states[n])
    requires states[n].traces[fired[n].core] != [] && states[n].traces[fired[n].core][0] == TraceEntry(2, val)
    ensures var s, s', e, c := states[n], states[n + 1], fired[n], fired[n].core;
            s' == s.(now := e.time,
                     events := s.events - multiset{e} + multiset{Fetch(e.time + val, c)},
                     traces := s.traces[c := s.traces[c][1..]],
                     sys := s.sys.(cores := s.sys.cores[c :=
                       s.sys.cores[c].(computeCycles := s.sys.cores[c].computeCycles + val)]))
  {
    OtherSteps(cfg, traces, states, fired, n);
    assert StepAt(cfg, states, fired, n);
  }

  /** A run starts with one fetch per core due at time zero, an idle bus, no line in any cache, and zero counters. */
  lemma RunStarts(cfg: Config, traces: seq<seq<TraceEntry>>, states: seq<Sim>, fired: seq<Event>, c: nat, k: nat)
    requires IsRun(cfg, traces, states, fired) && c < cfg.cores && k < cfg.NumSets()
    ensures WellFormed(cfg, states[0])
    ensures var s := states[0];
            && s.now == 0 && s.queue == [] && !s.busy && s.traces == traces
            && (forall e :: e in s.events <==> e.Fetch? && e.time == 0 && e.core < cfg.cores)
            && s.events[Fetch(0, c)] == 1
            && !s.blocked[c] && !s.exhausted[c]
            && s.sys.caches[c][k].lru == [] && s.sys.caches[c][k].lines == map[]
            && s.sys.cores[c] == CoreStats(0, 0, 0, 0, 0, 0, 0, 0, 0)
            && s.sys.global == GlobalStats(0, 0, 0, 0, 0, 0, 0)
  {
    StartWellFormed(cfg, traces);
  }

  // ----- the traces are executed -----

  function IsStore(entry: TraceEntry): int { if entry.kind == 1 then 1 else 0 }

  function IsLoad(entry: TraceEntry): int { if entry.kind != 1 && entry.kind != 2 then 1 else 0 }

  function CyclesOf(entry: TraceEntry): int { if entry.kind == 2 then entry.val else 0 }

  /** The first `m` entries of the trace have been fetched: they are counted, by kind, and the others are left. */
  ghost predicate Fetched(trace: seq<TraceEntry>, rest: seq<TraceEntry>, cs: CoreStats, m: nat) {
    && m <= |trace| && rest == trace[m..]
    && cs.loads == SumBy(trace[..m], IsLoad)
    && cs.stores == SumBy(trace[..m], IsStore)
    && cs.computeCycles == SumBy(trace[..m], CyclesOf)
  }

  lemma FetchedOne(trace: seq<TraceEntry>, rest: seq<TraceEntry>, cs: CoreStats, m: nat, cs': CoreStats)
    requires Fetched(trace, rest, cs, m) && rest != []
    requires cs'.loads == cs.loads + IsLoad(rest[0]) && cs'.stores == cs.stores + IsStore(rest[0])
    requires cs'.computeCycles == cs.computeCycles + CyclesOf(rest[0])
    ensures Fetched(trace, rest[1..], cs', m + 1)
  {
    assert trace[..m + 1][..m] == trace[..m] && trace[..m + 1][m] == rest[0];
  }

  /** The statistics and the rest of the trace of core `c` in a state. */
  ghost predicate FetchedAt(s: Sim, trace: seq<TraceEntry>, c: nat, m: nat) {
    && c < |s.traces| && c < |s.sys.cores| && c < |s.exhausted|
    && Fetched(trace, s.traces[c], s.sys.cores[c], m)
    && (s.exhausted[c] ==> m == |trace|)
  }

  lemma FetchedNext(cfg: Config, traces: seq<seq<TraceEntry>>, states: seq<Sim>, fired: seq<Event>, n: nat, c: nat,
                    m: nat) returns (m': nat)
    requires IsRun(cfg, traces, states, fired) && n < |fired| && c < cfg.cores && FetchedAt(states[n], traces[c], c, m)
    ensures FetchedAt(states[n + 1], traces[c], c, m')
  {
    var s, e := states[n], fired[n];
    m' := m;
    OtherSteps(cfg, traces, states, fired, n);
    if e.Arbitrate? && !s.busy && s.queue != [] {
      var r := ArbitrationGrants(cfg, traces, states, fired, n);
      GrantCosts(cfg, traces, states, fired, n, r);
    } else if e.Fetch? && s.traces[e.core] != [] {
      var entry := s.traces[e.core][0];
      if entry.kind == 2 {
        ComputeSteps(cfg, traces, states, fired, n, entry.val);
      } else {
        var op := AccessCosts(cfg, traces, states, fired, n, entry);
      }
      if c == e.core {
        FetchedOne(traces[c], s.traces[c], s.sys.cores[c], m, states[n + 1].sys.cores[c]);
        m' := m + 1;
      }
    }
  }

  /** In every state the entries fetched by a core are a prefix of its trace, counted as loads, stores and compute
      cycles; a core with an exhausted trace has fetched all of it. */
  lemma {:induction false} TraceCounted(cfg: Config, traces: seq<seq<TraceEntry>>, states: seq<Sim>,
                                        fired: seq<Event>, n: nat, c: nat) returns (m: nat)
    requires IsRun(cfg, traces, states, fired) && n <= |fired| && c < cfg.cores
    ensures FetchedAt(states[n], traces[c], c, m)
  {
    if n == 0 {
      RunStarts(cfg, traces, states, fired, c, 0);
      m := 0;
    } else {
      var before := TraceCounted(cfg, traces, states, fired, n - 1, c);
      m := FetchedNext(cfg, traces, states, fired, n - 1, c, before);
    }
  }
}
