/**
 Under read priority no number of grants bounds the wait of a write.  Three cores
 share a bus: two of them alternate between two blocks in a one-way set, so that each
 read misses, and one of their reads is always waiting when the bus is released.
 */
module Starvation {
  import opened Defs
  import opened Sequences
  import opened CacheSets
  import opened Protocols
  import opened Simulation
  import opened Fairness
  import opened Overtaking
  import opened Witness

  ghost function ThreeCores(p: Protocol): Config {
    Config(p, 3, 1, 0, 0, true)
  }

  lemma ThreeCoresIs(p: Protocol, a: Uint32)
    ensures var cfg := ThreeCores(p);
            cfg.Valid() && cfg.NumSets() == 1 && TransferCycles(cfg) == 1 && cfg.SetIndex(a) == 0 && cfg.Tag(a) == a
  {
    assert Pow2(0) == 1;
  }

  /** Loads of blocks `a`, `1 - a`, `a`, ... */
  function Alternate(a: nat, k: nat): seq<TraceEntry>
    requires a < 2
    decreases k
  {
    if k == 0 then [] else [Load(a)] + Alternate(1 - a, k - 1)
  }

  ghost function Traffic(k: nat): seq<seq<TraceEntry>> {
    [Alternate(0, k), Alternate(0, k), [Store(2)]]
  }

  // ----- one-way sets -----

  /** The set holds block `x` or nothing. */
  ghost predicate Holds(cs: CacheSet, x: nat) {
    cs == EMPTY || (cs.lru == [x] && cs.lines.Keys == {x})
  }

  lemma HoldsFill(p: Protocol, cs: CacheSet, x: nat, y: nat, st: LineState)
    requires Holds(cs, x)
    ensures (Full(1, cs) ==> |cs.lru| > 0) && Holds(Allocate(p, 1, cs, y, st), y)
  {
    KeyCount(cs, cs.lines.Keys);
    var r := Allocate(p, 1, cs, y, st);
    if cs == EMPTY {
      assert EMPTY.lines - {} == EMPTY.lines;
    } else {
      assert (cs.lines - {x}).Keys == {};
      assert Cut(cs.lru, 0) == [];
    }
    assert r.lines.Keys == {y} && r.lru == [y];
  }

  lemma HoldsSnoop(p: Protocol, op: BusOp, cs: CacheSet, x: nat, t: nat)
    requires Holds(cs, x)
    ensures Holds(SnoopSet(p, op, cs, t), x)
  {
    assert Remove([x], x) == [];
    if t in cs.lines {
      assert cs.lines[t := Snoop(p, op, cs.lines[t])].Keys == {x};
    }
  }

  // ----- steps -----

  /** A miss of an absent block leaves the caches as they are. */
  lemma MissKeeps(p: Protocol, c: Caches, id: nat, a: nat, isWrite: bool)
    requires At(c, id, 0) && a !in c[id][0].lines
    ensures RequestOp(ThreeCores(p), c, id, 0, a, isWrite) == Request(p, Invalid, isWrite)
    ensures RequestCaches(ThreeCores(p), c, id, 0, a, isWrite) == c
  {
    assert c[id][0 := c[id][0]] == c[id];
  }

  /** What a fetch of an absent block by core `c` does. */
  ghost predicate Missed(p: Protocol, s: Sim, t: nat, c: nat, s': Sim) {
    && c < |s.traces| && s.traces[c] != [] && c < |s.blocked|
    && s'.sys.caches == s.sys.caches && s'.now == t && s'.busy == s.busy && s'.blocked == s.blocked[c := true]
    && s'.traces == s.traces[c := s.traces[c][1..]]
    && s'.queue == s.queue + [BusRequest(c, Request(p, Invalid, s.traces[c][0].kind == 1), s.traces[c][0].val, t)]
    && s'.events == s.events - multiset{Fetch(t, c)} + (if s.busy then multiset{} else multiset{Arbitrate(t)})
  }

  lemma MissFetch(p: Protocol, s: Sim, t: nat, c: nat) returns (s': Sim)
    requires WellFormed(ThreeCores(p), s) && Enabled(s, Fetch(t, c)) && c < 3
    requires !s.blocked[c] && s.traces[c] != [] && s.traces[c][0].kind != 2
    requires At(s.sys.caches, c, 0) && s.traces[c][0].val !in s.sys.caches[c][0].lines
    ensures IsStep(ThreeCores(p), s, Fetch(t, c), s') && WellFormed(ThreeCores(p), s') && Missed(p, s, t, c, s')
  {
    s' := FireFetch(ThreeCores(p), s, Fetch(t, c));
    FetchIsStep(ThreeCores(p), s, Fetch(t, c));
    FetchMisses(p, s, t, c);
  }

  lemma FetchMisses(p: Protocol, s: Sim, t: nat, c: nat)
    requires WellFormed(ThreeCores(p), s) && Fetch(t, c) in s.events && c < 3
    requires !s.blocked[c] && s.traces[c] != [] && s.traces[c][0].kind != 2
    requires At(s.sys.caches, c, 0) && s.traces[c][0].val !in s.sys.caches[c][0].lines
    ensures Missed(p, s, t, c, FireFetch(ThreeCores(p), s, Fetch(t, c)))
  {
    var entry := s.traces[c][0];
    ThreeCoresIs(p, entry.val);
    MissKeeps(p, s.sys.caches, c, entry.val, entry.kind == 1);
    MissFired(ThreeCores(p), s, c, t);
  }

  lemma OneRow(cfg: Config, c: Caches, req: nat, op: BusOp, k: nat, t: nat, j: nat)
    requires Shaped(cfg, c) && req < cfg.cores && k < cfg.NumSets() && !BusFaults(cfg, c, req, op, k, t) && j < |c|
    ensures var d := BusCaches(cfg, c, req, op, k, t);
            |d| == |c| && d[j] == c[j][k :=
              if j == req then RequesterSet(cfg, op, c[j][k], t, SharedSignal(c, req, k, t))
              else SnoopSet(cfg.protocol, op, c[j][k], t)]
  {
  }

  lemma HoldsRead(p: Protocol, cs: CacheSet, a: nat, shared: bool, x: nat)
    requires Holds(cs, x)
    ensures Full(1, cs) ==> |cs.lru| > 0
    ensures Holds(RequesterSet(ThreeCores(p), BusRd, cs, a, shared), a)
  {
    HoldsFill(p, cs, x, a, Fill(p, BusRd, shared));
  }

  /** A read by core `req` in one-way sets: it then holds block `a`, and the others what they held. */
  lemma ReadCaches(p: Protocol, c: Caches, req: nat, a: nat, x: nat)
    requires Shaped(ThreeCores(p), c) && req < 3 && At(c, req, 0) && Holds(c[req][0], x)
    ensures ThreeCores(p).NumSets() == 1 && !BusFaults(ThreeCores(p), c, req, BusRd, 0, a)
    ensures var d := BusCaches(ThreeCores(p), c, req, BusRd, 0, a);
            At(d, req, 0) && Holds(d[req][0], a)
  {
    ThreeCoresIs(p, 0);
    var shared := SharedSignal(c, req, 0, a);
    HoldsRead(p, c[req][0], a, shared, x);
    OneRow(ThreeCores(p), c, req, BusRd, 0, a, req);
  }

  lemma OtherKeeps(p: Protocol, c: Caches, req: nat, a: nat, j: nat, y: nat)
    requires Shaped(ThreeCores(p), c) && req < 3 && At(c, req, 0) && !BusFaults(ThreeCores(p), c, req, BusRd, 0, a)
    requires ThreeCores(p).NumSets() == 1 && j < 3 && j != req && At(c, j, 0) && Holds(c[j][0], y)
    ensures var d := BusCaches(ThreeCores(p), c, req, BusRd, 0, a);
            At(d, j, 0) && Holds(d[j][0], y)
  {
    HoldsSnoop(p, BusRd, c[j][0], y, a);
    OneRow(ThreeCores(p), c, req, BusRd, 0, a, j);
  }

  lemma GrantRead(p: Protocol, s: Sim, t: nat, i: nat, x: nat) returns (s': Sim, u: nat)
    requires WellFormed(ThreeCores(p), s) && Enabled(s, Arbitrate(t)) && !s.busy && i < |s.queue|
    requires i == Winner(true, s.queue) && s.queue[i].op == BusRd
    requires At(s.sys.caches, s.queue[i].core, 0) && Holds(s.sys.caches[s.queue[i].core][0], x)
    ensures IsStep(ThreeCores(p), s, Arbitrate(t), s') && WellFormed(ThreeCores(p), s') && ReadGranted(s, t, i, s', u)
    ensures var r := s.queue[i]; At(s'.sys.caches, r.core, 0) && Holds(s'.sys.caches[r.core][0], r.addr)
    ensures forall j: nat, y: nat :: j != s.queue[i].core && At(s.sys.caches, j, 0) && Holds(s.sys.caches[j][0], y)
              ==> At(s'.sys.caches, j, 0) && Holds(s'.sys.caches[j][0], y)
  {
    var r := s.queue[i];
    ThreeCoresIs(p, r.addr);
    ReadCaches(p, s.sys.caches, r.core, r.addr, x);
    s', u := GrantReadFlow(p, s, t, i);
    GrantCaches(ThreeCores(p), s, Arbitrate(t), i);
    CoresKeep(p, s.sys.caches, r.core, r.addr);
  }

  lemma GrantReadFlow(p: Protocol, s: Sim, t: nat, i: nat) returns (s': Sim, u: nat)
    requires WellFormed(ThreeCores(p), s) && Enabled(s, Arbitrate(t)) && !s.busy && i < |s.queue|
    requires i == Winner(true, s.queue) && s.queue[i].op == BusRd && !GrantFaults(ThreeCores(p), s, i)
    ensures IsStep(ThreeCores(p), s, Arbitrate(t), s') && WellFormed(ThreeCores(p), s') && ReadGranted(s, t, i, s', u)
    ensures s' == Grant(ThreeCores(p), s, Arbitrate(t), i)
  {
    var cfg, e := ThreeCores(p), Arbitrate(t);
    ThreeCoresIs(p, s.queue[i].addr);
    GrantIsStep(cfg, s, e, i);
    GrantShape(cfg, s, e, i);
    ReadTakesTime(cfg, s, i);
    s' := Grant(cfg, s, e, i);
    u := t + GrantLatency(cfg, s, i);
  }

  lemma CoresKeep(p: Protocol, c: Caches, req: nat, a: nat)
    requires Shaped(ThreeCores(p), c) && req < 3 && At(c, req, 0) && !BusFaults(ThreeCores(p), c, req, BusRd, 0, a)
    requires ThreeCores(p).NumSets() == 1
    ensures var d := BusCaches(ThreeCores(p), c, req, BusRd, 0, a);
            forall j: nat, y: nat :: j != req && At(c, j, 0) && Holds(c[j][0], y) ==> At(d, j, 0) && Holds(d[j][0], y)
  {
    forall j: nat, y: nat | j != req && At(c, j, 0) && Holds(c[j][0], y)
      ensures var d := BusCaches(ThreeCores(p), c, req, BusRd, 0, a); At(d, j, 0) && Holds(d[j][0], y)
    {
      OtherKeeps(p, c, req, a, j, y);
    }
  }

  // ----- one round -----

  /** The bus is held for core `core` until `end`; it holds block `held` of the two, and core `1 - core` waits for
      block `wanted`; they have `left` and `otherLeft` loads to go. */
  datatype Turn = Turn(core: nat, end: nat, held: nat, wanted: nat, left: nat, otherLeft: nat)

  /** The next load of core `core` will miss, and the write and a read of the other core wait. */
  ghost predicate Jam(p: Protocol, s: Sim, w: BusRequest, turn: Turn) {
    match turn
    case Turn(c, t, x, a, k, l) =>
      && WellFormed(ThreeCores(p), s) && s.busy && c < 2 && x < 2 && a < 2
      && w.op != BusRd && w.arrival < t && |s.queue| == 2 && s.queue[0] == w
      && s.queue[1].core == 1 - c && s.queue[1].op == BusRd && s.queue[1].addr == a
      && s.events == multiset{Release(t), Unblock(t, c)}
      && s.traces[c] == Alternate(1 - x, k) && s.traces[1 - c] == Alternate(1 - a, l)
      && At(s.sys.caches, 0, 0) && At(s.sys.caches, 1, 0)
      && Holds(s.sys.caches[c][0], x) && Holds(s.sys.caches[1 - c][0], 1 - a)
  }

  /** The bus is free and both the write and the read wait. */
  ghost predicate Offered(p: Protocol, s: Sim, w: BusRequest, turn: Turn) {
    match turn
    case Turn(c, t, x, a, k, l) =>
      && WellFormed(ThreeCores(p), s) && !s.busy && s.now == t && c < 2 && x < 2 && a < 2
      && w.op != BusRd && w.arrival < t && |s.queue| == 2 && s.queue[0] == w
      && s.queue[1].core == 1 - c && s.queue[1].op == BusRd && s.queue[1].addr == a
      && s.events == multiset{Unblock(t, c), Arbitrate(t)}
      && s.traces[c] == Alternate(1 - x, k) && s.traces[1 - c] == Alternate(1 - a, l)
      && At(s.sys.caches, 0, 0) && At(s.sys.caches, 1, 0)
      && Holds(s.sys.caches[c][0], x) && Holds(s.sys.caches[1 - c][0], 1 - a)
  }

  /** The read has been granted until `u`, the write still waits, and core `core` is about to go on. */
  ghost predicate Overtaken(p: Protocol, s: Sim, w: BusRequest, turn: Turn, u: nat) {
    match turn
    case Turn(c, t, x, a, k, l) =>
      && WellFormed(ThreeCores(p), s) && s.busy && c < 2 && x < 2 && a < 2 && t < u
      && w.op != BusRd && w.arrival < t && s.queue == [w]
      && s.traces[c] == Alternate(1 - x, k) && s.traces[1 - c] == Alternate(1 - a, l)
      && At(s.sys.caches, 0, 0) && At(s.sys.caches, 1, 0)
      && Holds(s.sys.caches[c][0], x) && Holds(s.sys.caches[1 - c][0], a)
  }

  /** A step in which the write goes on waiting; a grant if `granted`. */
  ghost predicate WaitStep(p: Protocol, s: Sim, e: Event, s': Sim, w: BusRequest, granted: bool) {
    forall z {:trigger Same(s, z)} :: Same(s, z) ==>
      && IsStep(ThreeCores(p), z, e, s') && w in s'.queue
      && IsGrant(z, s') == granted && (granted ==> w.arrival < z.now)
  }

  lemma WaitStepPasses(p: Protocol, traces: seq<seq<TraceEntry>>, s: Sim, e: Event, s': Sim, w: BusRequest,
                       granted: bool, n: nat)
    requires Passed(ThreeCores(p), traces, s, w, n) && WaitStep(p, s, e, s', w, granted)
    ensures Passed(ThreeCores(p), traces, s', w, n + if granted then 1 else 0)
  {
    assert Same(s, s);
    PassStep(ThreeCores(p), traces, s, e, s', w, n);
  }

  lemma ReleaseJam(p: Protocol, s: Sim, w: BusRequest, turn: Turn) returns (s': Sim)
    requires Jam(p, s, w, turn)
    ensures WaitStep(p, s, Release(turn.end), s', w, false) && Offered(p, s', w, turn)
  {
    s' := ReleaseTwo(ThreeCores(p), s, turn.end, turn.core);
  }

  lemma ReadWins(q: seq<BusRequest>)
    requires |q| == 2 && q[0].op != BusRd && q[1].op == BusRd
    ensures Winner(true, q) == 1 && q[..1] + q[2..] == [q[0]]
  {
    assert !Wins(true, q[1], q[Winner(true, q)]);
  }

  lemma Overtake(p: Protocol, s: Sim, w: BusRequest, turn: Turn) returns (s': Sim, u: nat)
    requires Offered(p, s, w, turn)
    ensures WaitStep(p, s, Arbitrate(turn.end), s', w, true) && Overtaken(p, s', w, turn, u)
    ensures turn.core < 2
            && s'.events == multiset{Unblock(turn.end, turn.core), Release(u), Unblock(u, 1 - turn.core)}
  {
    ReadWins(s.queue);
    s', u := GrantRead(p, s, turn.end, 1, 1 - turn.wanted);
    EventsLeft(turn.end, turn.core, u);
    NowOvertaken(p, s, w, turn, s', u);
  }

  lemma NowOvertaken(p: Protocol, s: Sim, w: BusRequest, turn: Turn, s': Sim, u: nat)
    requires Offered(p, s, w, turn) && WellFormed(ThreeCores(p), s') && ReadGranted(s, turn.end, 1, s', u)
    requires s'.queue == [w] && turn.core < 2
    requires At(s'.sys.caches, 1 - turn.core, 0) && Holds(s'.sys.caches[1 - turn.core][0], turn.wanted)
    requires At(s'.sys.caches, turn.core, 0) && Holds(s'.sys.caches[turn.core][0], turn.held)
    ensures Overtaken(p, s', w, turn, u)
  {
  }

  lemma EventsLeft(t: nat, c: nat, u: nat)
    ensures c < 2 ==>
              multiset{Unblock(t, c), Arbitrate(t)} - multiset{Arbitrate(t)}
              + multiset{Release(u)} + multiset{Unblock(u, 1 - c)}
              == multiset{Unblock(t, c), Release(u), Unblock(u, 1 - c)}
  {
  }

  lemma Resume(p: Protocol, s: Sim, w: BusRequest, turn: Turn, u: nat) returns (s': Sim)
    requires Overtaken(p, s, w, turn, u)
    requires turn.core < 2
             && s.events == multiset{Unblock(turn.end, turn.core), Release(u), Unblock(u, 1 - turn.core)}
    ensures WaitStep(p, s, Unblock(turn.end, turn.core), s', w, false) && Overtaken(p, s', w, turn, u)
    ensures s'.events == multiset{Fetch(turn.end, turn.core), Release(u), Unblock(u, 1 - turn.core)}
    ensures !s'.blocked[turn.core]
  {
    var rest := multiset{Release(u), Unblock(u, 1 - turn.core)};
    s' := UnblockFirst(ThreeCores(p), s, rest, turn.end, turn.core);
  }

  /** The turn of the other core, which is granted the bus until `u`. */
  function NextTurn(turn: Turn, u: nat): Turn
    requires turn.core < 2 && turn.held < 2 && turn.left > 0
  {
    Turn(1 - turn.core, u, turn.wanted, 1 - turn.held, turn.otherLeft, turn.left - 1)
  }

  lemma MissAgain(p: Protocol, s: Sim, w: BusRequest, turn: Turn, u: nat) returns (s': Sim)
    requires Overtaken(p, s, w, turn, u) && turn.left > 0 && !s.blocked[turn.core]
    requires s.events == multiset{Fetch(turn.end, turn.core), Release(u), Unblock(u, 1 - turn.core)}
    ensures WaitStep(p, s, Fetch(turn.end, turn.core), s', w, false)
    ensures turn.held < 2 && Jam(p, s', w, NextTurn(turn, u))
  {
    assert s.traces[turn.core][0] == Load(1 - turn.held);
    s' := MissFetch(p, s, turn.end, turn.core);
    JamAgain(p, s, w, turn, u, s');
  }

  lemma JamAgain(p: Protocol, s: Sim, w: BusRequest, turn: Turn, u: nat, s': Sim)
    requires Overtaken(p, s, w, turn, u) && turn.left > 0
    requires s.events == multiset{Fetch(turn.end, turn.core), Release(u), Unblock(u, 1 - turn.core)}
    requires WellFormed(ThreeCores(p), s') && Missed(p, s, turn.end, turn.core, s')
    ensures turn.held < 2 && Jam(p, s', w, NextTurn(turn, u)) && s'.queue[0] == w
  {
    var c, t, x := turn.core, turn.end, turn.held;
    assert Alternate(1 - x, turn.left) == [Load(1 - x)] + Alternate(x, turn.left - 1);
    assert s'.traces[c] == Alternate(x, turn.left - 1);
    assert s.events - multiset{Fetch(t, c)} == multiset{Release(u), Unblock(u, 1 - c)};
  }

  /** In one round the write is passed once, and the cores have changed places. */
  lemma Round(p: Protocol, traces: seq<seq<TraceEntry>>, s: Sim, w: BusRequest, turn: Turn, n: nat)
    returns (s': Sim, next: Turn)
    requires Jam(p, s, w, turn) && turn.left > 0 && Passed(ThreeCores(p), traces, s, w, n)
    ensures Jam(p, s', w, next) && Passed(ThreeCores(p), traces, s', w, n + 1)
    ensures next.left == turn.otherLeft && next.otherLeft == turn.left - 1
  {
    var s1 := ReleaseJam(p, s, w, turn);
    WaitStepPasses(p, traces, s, Release(turn.end), s1, w, false, n);
    var s2, u := Overtake(p, s1, w, turn);
    WaitStepPasses(p, traces, s1, Arbitrate(turn.end), s2, w, true, n);
    var s3 := Resume(p, s2, w, turn, u);
    WaitStepPasses(p, traces, s2, Unblock(turn.end, turn.core), s3, w, false, n + 1);
    s' := MissAgain(p, s3, w, turn, u);
    WaitStepPasses(p, traces, s3, Fetch(turn.end, turn.core), s', w, false, n + 1);
    next := NextTurn(turn, u);
  }

  // ----- the beginning -----

  lemma StartThree(p: Protocol, k: nat) returns (s: Sim)
    ensures Reachable(ThreeCores(p), Traffic(k), s) && WellFormed(ThreeCores(p), s)
    ensures s.events == multiset{Fetch(0, 0), Fetch(0, 1), Fetch(0, 2)}
    ensures !s.busy && s.queue == [] && s.traces == Traffic(k) && s.blocked == [false, false, false]
    ensures forall i: nat :: i < 3 ==> At(s.sys.caches, i, 0) && s.sys.caches[i][0] == EMPTY
  {
    var cfg := ThreeCores(p);
    ThreeCoresIs(p, 0);
    s := Start(cfg, Traffic(k));
    ReachStart(cfg, Traffic(k));
    StartWellFormed(cfg, Traffic(k));
    StartEventsThree();
    StartIdle(p, Traffic(k));
    forall i: nat | i < 3
      ensures At(s.sys.caches, i, 0) && s.sys.caches[i][0] == EMPTY
    {
      StartSet(cfg, Traffic(k), i, 0);
    }
  }

  lemma StartEventsThree()
    ensures StartEvents(3) == multiset{Fetch(0, 0), Fetch(0, 1), Fetch(0, 2)}
  {
    StartPair();
    assert StartEvents(3) == StartEvents(2) + multiset{Fetch(0, 2)};
  }

  lemma StartIdle(p: Protocol, traces: seq<seq<TraceEntry>>)
    ensures Start(ThreeCores(p), traces).blocked == [false, false, false]
  {
  }

  /** The bus is held for core 0 until `u`; the first fetches of the other two are due. */
  ghost predicate Opened(p: Protocol, s: Sim, k: nat, u: nat) {
    && WellFormed(ThreeCores(p), s) && s.busy && s.queue == [] && u > 0
    && s.events == multiset{Fetch(0, 1), Fetch(0, 2), Release(u), Unblock(u, 0)}
    && s.blocked == [true, false, false]
    && s.traces == [Alternate(1, k), Alternate(0, k + 1), [Store(2)]]
    && At(s.sys.caches, 0, 0) && At(s.sys.caches, 1, 0) && At(s.sys.caches, 2, 0)
    && Holds(s.sys.caches[0][0], 0) && Holds(s.sys.caches[1][0], 1) && Holds(s.sys.caches[2][0], 1)
  }

  /** Core 0 has asked for its first block. */
  lemma OpeningMiss(p: Protocol, k: nat) returns (s: Sim)
    ensures Reachable(ThreeCores(p), Traffic(k + 1), s) && WellFormed(ThreeCores(p), s)
    ensures s.events == multiset{Fetch(0, 1), Fetch(0, 2)} + multiset{Arbitrate(0)}
    ensures !s.busy && s.queue == [BusRequest(0, BusRd, 0, 0)] && s.blocked == [true, false, false]
    ensures s.traces == [Alternate(1, k), Alternate(0, k + 1), [Store(2)]]
    ensures forall i: nat :: i < 3 ==> At(s.sys.caches, i, 0) && s.sys.caches[i][0] == EMPTY
  {
    var s0 := StartThree(p, k + 1);
    s := FirstMiss(p, s0, k);
    ReachStep(ThreeCores(p), Traffic(k + 1), s0, Fetch(0, 0), s);
  }

  lemma FirstMiss(p: Protocol, s: Sim, k: nat) returns (s': Sim)
    requires WellFormed(ThreeCores(p), s) && s.events == multiset{Fetch(0, 0), Fetch(0, 1), Fetch(0, 2)}
    requires !s.busy && s.queue == [] && s.blocked == [false, false, false]
    requires s.traces == [Alternate(0, k + 1), Alternate(0, k + 1), [Store(2)]]
    requires At(s.sys.caches, 0, 0) && s.sys.caches[0][0] == EMPTY
    ensures IsStep(ThreeCores(p), s, Fetch(0, 0), s') && WellFormed(ThreeCores(p), s')
    ensures s'.events == multiset{Fetch(0, 1), Fetch(0, 2)} + multiset{Arbitrate(0)}
    ensures !s'.busy && s'.queue == [BusRequest(0, BusRd, 0, 0)] && s'.blocked == [true, false, false]
    ensures s'.traces == [Alternate(1, k), Alternate(0, k + 1), [Store(2)]] && s'.sys.caches == s.sys.caches
  {
    assert Alternate(0, k + 1) == [Load(0)] + Alternate(1, k);
    s' := MissFetch(p, s, 0, 0);
    assert s.events - multiset{Fetch(0, 0)} == multiset{Fetch(0, 1), Fetch(0, 2)};
  }

  lemma OpeningGrant(p: Protocol, k: nat) returns (s: Sim, u: nat)
    ensures Reachable(ThreeCores(p), Traffic(k + 1), s) && Opened(p, s, k, u)
  {
    var s1 := OpeningMiss(p, k);
    s, u := GrantOnly(p, s1, multiset{Fetch(0, 1), Fetch(0, 2)});
    ReachStep(ThreeCores(p), Traffic(k + 1), s1, Arbitrate(0), s);
  }

  lemma GrantOnly(p: Protocol, s: Sim, rest: multiset<Event>) returns (s': Sim, u: nat)
    requires WellFormed(ThreeCores(p), s) && !s.busy && s.queue == [BusRequest(0, BusRd, 0, 0)]
    requires s.events == rest + multiset{Arbitrate(0)} && forall f :: f in rest ==> f.Fetch?
    requires forall i: nat :: i < 3 ==> At(s.sys.caches, i, 0) && s.sys.caches[i][0] == EMPTY
    ensures IsStep(ThreeCores(p), s, Arbitrate(0), s') && WellFormed(ThreeCores(p), s')
    ensures s'.busy && s'.queue == [] && u > 0 && s'.blocked == s.blocked && s'.traces == s.traces
    ensures s'.events == rest + multiset{Release(u), Unblock(u, 0)}
    ensures forall i: nat :: i < 3 ==> At(s'.sys.caches, i, 0) && Holds(s'.sys.caches[i][0], if i == 0 then 0 else 1)
  {
    assert Winner(true, s.queue) == 0;
    s', u := GrantRead(p, s, 0, 0, 0);
    assert s.events - multiset{Arbitrate(0)} == rest;
    forall i: nat | 0 < i < 3
      ensures At(s'.sys.caches, i, 0) && Holds(s'.sys.caches[i][0], 1)
    {
      assert Holds(s.sys.caches[i][0], 1);
    }
  }

  /** The write and the first read of core 1 arrive while the bus is held. */
  lemma Opening(p: Protocol, k: nat) returns (s: Sim, turn: Turn)
    requires p != Dragon
    ensures Reachable(ThreeCores(p), Traffic(k + 1), s) && TheWrite() in s.queue
    ensures Jam(p, s, TheWrite(), turn) && turn.left == turn.otherLeft == k
  {
    var s1, u := OpeningGrant(p, k);
    var s2 := WriteArrives(p, s1, k, u);
    ReachStep(ThreeCores(p), Traffic(k + 1), s1, Fetch(0, 2), s2);
    s := ReadArrives(p, s2, k, u);
    ReachStep(ThreeCores(p), Traffic(k + 1), s2, Fetch(0, 1), s);
    turn := Turn(0, u, 0, 0, k, k);
  }

  /** The write of core 2. */
  function TheWrite(): BusRequest {
    BusRequest(2, BusRdX, 2, 0)
  }

  lemma WriteArrives(p: Protocol, s: Sim, k: nat, u: nat) returns (s': Sim)
    requires p != Dragon && Opened(p, s, k, u)
    ensures IsStep(ThreeCores(p), s, Fetch(0, 2), s') && WellFormed(ThreeCores(p), s') && Missed(p, s, 0, 2, s')
    ensures s'.queue == [TheWrite()]
    ensures s'.events == multiset{Fetch(0, 1), Release(u), Unblock(u, 0)}
  {
    s' := MissFetch(p, s, 0, 2);
    assert s.events - multiset{Fetch(0, 2)} == multiset{Fetch(0, 1), Release(u), Unblock(u, 0)};
  }

  lemma ReadArrives(p: Protocol, s: Sim, k: nat, u: nat) returns (s': Sim)
    requires WellFormed(ThreeCores(p), s) && s.busy && u > 0 && s.queue == [TheWrite()]
    requires s.events == multiset{Fetch(0, 1), Release(u), Unblock(u, 0)} && !s.blocked[1]
    requires |s.traces| == 3 && s.traces[0] == Alternate(1, k) && s.traces[1] == Alternate(0, k + 1)
    requires At(s.sys.caches, 0, 0) && At(s.sys.caches, 1, 0)
    requires Holds(s.sys.caches[0][0], 0) && Holds(s.sys.caches[1][0], 1)
    ensures IsStep(ThreeCores(p), s, Fetch(0, 1), s') && TheWrite() in s'.queue
    ensures Jam(p, s', TheWrite(), Turn(0, u, 0, 0, k, k))
  {
    assert Alternate(0, k + 1) == [Load(0)] + Alternate(1, k);
    s' := MissFetch(p, s, 0, 1);
    assert s.events - multiset{Fetch(0, 1)} == multiset{Release(u), Unblock(u, 0)};
  }

  // ----- any number of rounds -----

  /** After `n` of `total` rounds. */
  ghost predicate Going(p: Protocol, total: nat, s: Sim, turn: Turn, n: nat) {
    match turn
    case Turn(_, _, _, _, k, l) =>
      && Jam(p, s, TheWrite(), turn) && Passed(ThreeCores(p), Traffic(total + 1), s, TheWrite(), n)
      && k >= total - n && l >= total - n
  }

  lemma FirstRound(p: Protocol, total: nat) returns (s: Sim, turn: Turn)
    requires p != Dragon
    ensures Going(p, total, s, turn, 0)
  {
    s, turn := Opening(p, total);
    PassStart(ThreeCores(p), Traffic(total + 1), s, TheWrite());
  }

  lemma NextRound(p: Protocol, total: nat, s: Sim, turn: Turn, n: nat) returns (s': Sim, next: Turn)
    requires Going(p, total, s, turn, n) && n < total
    ensures Going(p, total, s', next, n + 1)
  {
    s', next := Round(p, Traffic(total + 1), s, TheWrite(), turn, n);
  }

  lemma {:induction false} Rounds(p: Protocol, total: nat, n: nat) returns (s: Sim, turn: Turn)
    requires p != Dragon && n <= total
    ensures Going(p, total, s, turn, n)
    decreases n
  {
    if n == 0 {
      s, turn := FirstRound(p, total);
    } else {
      var s0, before := Rounds(p, total, n - 1);
      s, turn := NextRound(p, total, s0, before, n - 1);
    }
  }

  /** For every number of grants there is a run, of any of the protocols with exclusive reads, in which a write
      whose arrival the clock has passed waits for so many. */
  lemma WriteStarves(p: Protocol, n: nat) returns (states: seq<Sim>, fired: seq<Event>, m: nat)
    requires p != Dragon && n > 0
    ensures IsRun(ThreeCores(p), Traffic(n + 1), states, fired) && m <= |fired|
    ensures forall j :: m <= j <= |fired| ==> TheWrite() in states[j].queue
    ensures TheWrite().arrival < states[m].now && Grants(states, m, |fired|) == n
  {
    var s, turn := Rounds(p, n, n);
    states, fired, m := PassedRun(ThreeCores(p), Traffic(n + 1), s, TheWrite(), n);
  }
}
