/**
 Under read priority, with three cores or more of any geometry and any protocol, an
 upgrade can wait for as many grants as there are cores.  Core 0 loads block 0, loses
 its exclusiveness to core 1 and asks for it back; every other core reads block 0 and
 then the next block, and their reads pass the upgrade.
 */
module UpgradeWaits {
  import opened Defs
  import opened Bits
  import opened Protocols
  import opened Simulation
  import opened Fairness
  import opened Runs
  import opened Witness
  import opened Overtaking

  // ----- lines -----

  /** The address of the block after block 0. */
  function Second(cfg: Config): Uint32
    requires cfg.Valid()
  {
    SmallPow2(cfg.offsetBits);
    cfg.BlockSize()
  }

  lemma SmallPow2(n: nat)
    requires n < 32
    ensures Pow2(n) < 0x1_0000_0000
  {
    TopIsPow2();
    Pow2Mono(n, 31);
    assert Pow2(32) == 2 * Pow2(31);
  }

  predicate OneLine(cfg: Config, a: Uint32, b: Uint32) {
    cfg.SetIndex(a) == cfg.SetIndex(b) && cfg.Tag(a) == cfg.Tag(b)
  }

  lemma TwoLines(cfg: Config)
    requires cfg.Valid()
    ensures !OneLine(cfg, Second(cfg), 0)
  {
    LineIsBlock(cfg, Second(cfg), 0);
    assert Second(cfg) / cfg.BlockSize() == 1;
    assert 0 / cfg.BlockSize() == 0;
  }

  /** Core `i` does not hold the line of address `a`. */
  ghost predicate Cold(cfg: Config, c: Caches, i: nat, a: Uint32) {
    At(c, i, cfg.SetIndex(a)) && StateAt(c, i, cfg.SetIndex(a), cfg.Tag(a)) == Invalid
  }

  /** The caches after core `req` has read the line of address `b`. */
  ghost predicate HasRead(cfg: Config, c: Caches, req: nat, b: Uint32, d: Caches) {
    && Shaped(cfg, c) && req < cfg.cores && !BusFaults(cfg, c, req, BusRd, cfg.SetIndex(b), cfg.Tag(b))
    && d == BusCaches(cfg, c, req, BusRd, cfg.SetIndex(b), cfg.Tag(b))
  }

  lemma ColdKept(cfg: Config, c: Caches, req: nat, b: Uint32, d: Caches, i: nat, a: Uint32)
    requires HasRead(cfg, c, req, b, d) && Cold(cfg, c, i, a) && !(i == req && OneLine(cfg, a, b))
    ensures Cold(cfg, d, i, a)
  {
    TransactionEffect(cfg, c, req, BusRd, cfg.SetIndex(b), cfg.Tag(b), i, cfg.SetIndex(a), cfg.Tag(a));
  }

  /** The first read of a line gets it Exclusive. */
  lemma FirstReader(cfg: Config, c: Caches, req: nat, b: Uint32, d: Caches)
    requires HasRead(cfg, c, req, b, d)
    requires forall i: nat :: i < cfg.cores && i != req ==> Cold(cfg, c, i, b)
    ensures At(d, req, cfg.SetIndex(b)) && StateAt(d, req, cfg.SetIndex(b), cfg.Tag(b)) == Exclusive
  {
    TransactionEffect(cfg, c, req, BusRd, cfg.SetIndex(b), cfg.Tag(b), req, cfg.SetIndex(b), cfg.Tag(b));
    NotShared(cfg, c, req, b);
  }

  lemma NotShared(cfg: Config, c: Caches, req: nat, b: Uint32)
    requires Shaped(cfg, c) && forall i: nat :: i < cfg.cores && i != req ==> Cold(cfg, c, i, b)
    ensures !SharedSignal(c, req, cfg.SetIndex(b), cfg.Tag(b))
  {
    forall i | 0 <= i < |c| && i != req
      ensures StateAt(c, i, cfg.SetIndex(b), cfg.Tag(b)) == Invalid
    {
      assert Cold(cfg, c, i, b);
    }
  }

  /** The next read of the line makes that copy shared. */
  lemma SecondReader(cfg: Config, c: Caches, req: nat, b: Uint32, d: Caches, i: nat)
    requires HasRead(cfg, c, req, b, d) && i != req && At(c, i, cfg.SetIndex(b))
    requires StateAt(c, i, cfg.SetIndex(b), cfg.Tag(b)) == Exclusive
    ensures At(d, i, cfg.SetIndex(b)) && IsShared(cfg.protocol, StateAt(d, i, cfg.SetIndex(b), cfg.Tag(b)))
  {
    TransactionEffect(cfg, c, req, BusRd, cfg.SetIndex(b), cfg.Tag(b), i, cfg.SetIndex(b), cfg.Tag(b));
  }

  /** A miss changes no line's state. */
  ghost predicate SameStates(c: Caches, d: Caches) {
    forall i: nat, k: nat, t: nat {:trigger StateAt(d, i, k, t)} ::
      At(c, i, k) ==> At(d, i, k) && StateAt(d, i, k, t) == StateAt(c, i, k, t)
  }

  lemma MissStates(cfg: Config, c: Caches, id: nat, k: nat, t: nat, isWrite: bool)
    requires Shaped(cfg, c) && id < cfg.cores && k < cfg.NumSets()
    requires RequestOp(cfg, c, id, k, t, isWrite) != NoOp
    ensures SameStates(c, RequestCaches(cfg, c, id, k, t, isWrite))
  {
    RequestEffect(cfg, c, id, k, t, isWrite);
  }

  lemma StillCold(cfg: Config, c: Caches, d: Caches, i: nat, a: Uint32)
    requires SameStates(c, d) && Cold(cfg, c, i, a)
    ensures Cold(cfg, d, i, a)
  {
  }

  // ----- steps -----

  // The invariant and a step, of the very state named.

  ghost predicate Good(cfg: Config, s: Sim) {
    forall z {:trigger Same(s, z)} :: Same(s, z) ==> Inv(cfg, z)
  }

  ghost predicate Steps(cfg: Config, s: Sim, e: Event, s': Sim) {
    forall z {:trigger Same(s, z)} :: Same(s, z) ==> IsStep(cfg, z, e, s')
  }

  lemma ReachNext(cfg: Config, traces: seq<seq<TraceEntry>>, s: Sim, e: Event, s': Sim)
    requires Reachable(cfg, traces, s) && Steps(cfg, s, e, s')
    ensures Reachable(cfg, traces, s')
  {
    assert Same(s, s);
    ReachStep(cfg, traces, s, e, s');
  }

  lemma ReachTwice(cfg: Config, traces: seq<seq<TraceEntry>>, s: Sim, e: Event, s1: Sim, e1: Event, s2: Sim)
    requires Reachable(cfg, traces, s) && Steps(cfg, s, e, s1) && Steps(cfg, s1, e1, s2)
    ensures Reachable(cfg, traces, s2)
  {
    ReachNext(cfg, traces, s, e, s1);
    ReachNext(cfg, traces, s1, e1, s2);
  }

  lemma StepGood(cfg: Config, s: Sim, e: Event, s': Sim)
    requires Good(cfg, s) && IsStep(cfg, s, e, s')
    ensures Good(cfg, s') && Steps(cfg, s, e, s')
  {
    assert Same(s, s);
    StepInv(cfg, s, e);
  }

  lemma GoodFits(cfg: Config, s: Sim)
    requires Good(cfg, s)
    ensures cfg.Valid() && WellFormed(cfg, s)
  {
    assert Same(s, s);
  }

  lemma GoodGrants(cfg: Config, s: Sim, t: nat)
    requires Good(cfg, s) && Enabled(s, Arbitrate(t)) && !s.busy && s.queue != []
    ensures WellFormed(cfg, s) && !GrantFaults(cfg, s, Winner(cfg.readPriority, s.queue))
  {
    assert Same(s, s);
    StepInv(cfg, s, Arbitrate(t));
  }

  /** A read, first in the order of the arbiter, is granted. */
  lemma GrantBest(cfg: Config, s: Sim, t: nat, i: nat) returns (s': Sim, u: nat)
    requires Good(cfg, s) && Enabled(s, Arbitrate(t)) && !s.busy && cfg.readPriority
    requires i < |s.queue| && i == Winner(true, s.queue) && s.queue[i].op == BusRd
    ensures Steps(cfg, s, Arbitrate(t), s') && Good(cfg, s') && ReadGranted(s, t, i, s', u)
    ensures HasRead(cfg, s.sys.caches, s.queue[i].core, s.queue[i].addr, s'.sys.caches)
  {
    GoodGrants(cfg, s, t);
    GrantIsStep(cfg, s, Arbitrate(t), i);
    s', u := GrantedRead(cfg, s, t, i);
    StepGood(cfg, s, Arbitrate(t), s');
  }

  lemma GrantedRead(cfg: Config, s: Sim, t: nat, i: nat) returns (s': Sim, u: nat)
    requires WellFormed(cfg, s) && i < |s.queue| && s.queue[i].op == BusRd && !GrantFaults(cfg, s, i)
    ensures s' == Grant(cfg, s, Arbitrate(t), i) && ReadGranted(s, t, i, s', u)
    ensures HasRead(cfg, s.sys.caches, s.queue[i].core, s.queue[i].addr, s'.sys.caches)
  {
    s' := Grant(cfg, s, Arbitrate(t), i);
    u := t + GrantLatency(cfg, s, i);
    GrantReads(cfg, s, t, i);
    GrantHolds(cfg, s, t, i, s', u);
  }

  lemma GrantReads(cfg: Config, s: Sim, t: nat, i: nat)
    requires WellFormed(cfg, s) && i < |s.queue| && s.queue[i].op == BusRd && !GrantFaults(cfg, s, i)
    ensures HasRead(cfg, s.sys.caches, s.queue[i].core, s.queue[i].addr,
                    Grant(cfg, s, Arbitrate(t), i).sys.caches)
  {
    GrantCaches(cfg, s, Arbitrate(t), i);
  }

  lemma GrantHolds(cfg: Config, s: Sim, t: nat, i: nat, s': Sim, u: nat)
    requires WellFormed(cfg, s) && i < |s.queue| && s.queue[i].op == BusRd && !GrantFaults(cfg, s, i)
    requires s' == Grant(cfg, s, Arbitrate(t), i) && u == t + GrantLatency(cfg, s, i)
    ensures ReadGranted(s, t, i, s', u)
  {
    ReadTakesTime(cfg, s, i);
    GrantedShape(s, Arbitrate(t), i, GrantLatency(cfg, s, i), GrantSystem(cfg, s, i));
  }

  /** The bus is held until `t` for core `c`, which then goes on; all else waits. */
  ghost predicate Serving(cfg: Config, s: Sim, c: nat, t: nat) {
    Good(cfg, s) && s.busy && c < cfg.cores && s.events == multiset{Release(t), Unblock(t, c)}
  }

  /** From the release of the bus to the grant of the best read, request `i` of the queue. */
  lemma Serve(cfg: Config, s: Sim, c: nat, t: nat, i: nat) returns (s1: Sim, s2: Sim, u: nat)
    requires Serving(cfg, s, c, t) && cfg.readPriority
    requires i < |s.queue| && i == Winner(true, s.queue) && s.queue[i].op == BusRd
    ensures Steps(cfg, s, Release(t), s1) && s1.queue == s.queue && !s1.busy && s1.now == t
    ensures Steps(cfg, s1, Arbitrate(t), s2) && Good(cfg, s2) && s2.busy && u > t
    ensures s2.queue == s.queue[..i] + s.queue[i + 1..] && s2.traces == s.traces
    ensures s2.events == multiset{Unblock(t, c), Release(u), Unblock(u, s.queue[i].core)}
    ensures HasRead(cfg, s.sys.caches, s.queue[i].core, s.queue[i].addr, s2.sys.caches)
  {
    GoodFits(cfg, s);
    s1 := ReleaseTwo(cfg, s, t, c);
    StepGood(cfg, s, Release(t), s1);
    s2, u := GrantBest(cfg, s1, t, i);
    EventsServed(t, c, u, s.queue[i].core);
  }

  lemma EventsServed(t: nat, c: nat, u: nat, d: nat)
    ensures multiset{Unblock(t, c), Arbitrate(t)} - multiset{Arbitrate(t)}
            + multiset{Release(u)} + multiset{Unblock(u, d)}
            == multiset{Unblock(t, c), Release(u), Unblock(u, d)}
  {
  }

  /** Core `c` fetches an entry that misses. */
  lemma MissFetched(cfg: Config, s: Sim, t: nat, c: nat) returns (s': Sim)
    requires Good(cfg, s) && WellFormed(cfg, s) && Enabled(s, Fetch(t, c)) && c < cfg.cores && !s.blocked[c]
    requires s.traces[c] != [] && s.traces[c][0].kind != 2 && NextOp(cfg, s, c) != NoOp
    ensures Steps(cfg, s, Fetch(t, c), s') && Good(cfg, s') && s'.busy == s.busy && s'.now == t
    ensures s'.queue == s.queue + [BusRequest(c, NextOp(cfg, s, c), s.traces[c][0].val, t)]
    ensures s'.traces == s.traces[c := s.traces[c][1..]] && s'.blocked == s.blocked[c := true]
    ensures s'.events == s.events - multiset{Fetch(t, c)} + (if s.busy then multiset{} else multiset{Arbitrate(t)})
    ensures SameStates(s.sys.caches, s'.sys.caches)
  {
    var entry := s.traces[c][0];
    MissFired(cfg, s, c, t);
    FetchIsStep(cfg, s, Fetch(t, c));
    s' := FireFetch(cfg, s, Fetch(t, c));
    MissStates(cfg, s.sys.caches, c, cfg.SetIndex(entry.val), cfg.Tag(entry.val), entry.kind == 1);
    StepGood(cfg, s, Fetch(t, c), s');
  }

  /** Core `c` goes on, and its next entry misses. */
  lemma GoOn(cfg: Config, s: Sim, c: nat, t: nat, u: nat, d: nat) returns (s3: Sim, s4: Sim)
    requires Good(cfg, s) && WellFormed(cfg, s) && s.busy && c < cfg.cores && t < u
    requires s.events == multiset{Unblock(t, c), Release(u), Unblock(u, d)}
    requires s.traces[c] != [] && s.traces[c][0].kind != 2 && NextOp(cfg, s, c) != NoOp
    ensures Steps(cfg, s, Unblock(t, c), s3) && s3.queue == s.queue && s3.busy
    ensures Steps(cfg, s3, Fetch(t, c), s4) && Good(cfg, s4) && s4.busy
    ensures s4.queue == s.queue + [BusRequest(c, NextOp(cfg, s, c), s.traces[c][0].val, t)]
    ensures s4.traces == s.traces[c := s.traces[c][1..]] && s4.events == multiset{Release(u), Unblock(u, d)}
    ensures SameStates(s.sys.caches, s4.sys.caches)
  {
    var rest := multiset{Release(u), Unblock(u, d)};
    s3 := UnblockFirst(cfg, s, rest, t, c);
    StepGood(cfg, s, Unblock(t, c), s3);
    s4 := MissFetched(cfg, s3, t, c);
    assert s3.events - multiset{Fetch(t, c)} == rest;
  }

  // ----- rounds -----

  lemma PassQuiet(cfg: Config, traces: seq<seq<TraceEntry>>, s: Sim, e: Event, s': Sim, w: BusRequest, n: nat)
    requires Passed(cfg, traces, s, w, n) && Steps(cfg, s, e, s') && w in s'.queue && !IsGrant(s, s')
    ensures Passed(cfg, traces, s', w, n)
  {
    assert Same(s, s);
    PassStep(cfg, traces, s, e, s', w, n);
  }

  lemma PassGrant(cfg: Config, traces: seq<seq<TraceEntry>>, s: Sim, e: Event, s': Sim, w: BusRequest, n: nat)
    requires Passed(cfg, traces, s, w, n) && Steps(cfg, s, e, s') && w in s'.queue && IsGrant(s, s')
    requires w.arrival < s.now
    ensures Passed(cfg, traces, s', w, n + 1)
  {
    assert Same(s, s);
    PassStep(cfg, traces, s, e, s', w, n);
  }

  lemma StaysIn(q: seq<BusRequest>, i: nat, w: BusRequest)
    requires i < |q| && w in q && w != q[i]
    ensures w in q[..i] + q[i + 1..]
  {
    var j :| 0 <= j < |q| && q[j] == w;
    var cut := q[..i] + q[i + 1..];
    assert cut[if j < i then j else j - 1] == w;
  }

  /** The bus is released and the best read granted, past `w`. */
  lemma PassOnce(cfg: Config, traces: seq<seq<TraceEntry>>, s: Sim, w: BusRequest, n: nat, c: nat, t: nat, i: nat)
    returns (s': Sim, u: nat)
    requires Serving(cfg, s, c, t) && cfg.readPriority && Passed(cfg, traces, s, w, n)
    requires w in s.queue && w.op != BusRd && w.arrival < t
    requires i < |s.queue| && i == Winner(true, s.queue) && s.queue[i].op == BusRd
    ensures Passed(cfg, traces, s', w, n + 1) && Good(cfg, s') && s'.busy && u > t
    ensures s'.queue == s.queue[..i] + s.queue[i + 1..] && w in s'.queue && s'.traces == s.traces
    ensures s'.events == multiset{Unblock(t, c), Release(u), Unblock(u, s.queue[i].core)}
    ensures HasRead(cfg, s.sys.caches, s.queue[i].core, s.queue[i].addr, s'.sys.caches)
  {
    var s1;
    s1, s', u := Serve(cfg, s, c, t, i);
    PassQuiet(cfg, traces, s, Release(t), s1, w, n);
    StaysIn(s.queue, i, w);
    PassGrant(cfg, traces, s1, Arbitrate(t), s', w, n);
  }

  lemma ColdMisses(cfg: Config, s: Sim, c: nat)
    requires WellFormed(cfg, s) && c < cfg.cores && s.traces[c] != [] && s.traces[c][0].kind == 0
    requires Cold(cfg, s.sys.caches, c, s.traces[c][0].val)
    ensures NextOp(cfg, s, c) == BusRd
  {
  }

  /** A round in which core `c`, about to load a block it does not hold, is overtaken by the best read and queues
      its own. */
  lemma Round(cfg: Config, traces: seq<seq<TraceEntry>>, s: Sim, w: BusRequest, n: nat, c: nat, t: nat, i: nat,
              b: Uint32) returns (s': Sim, u: nat, d: Caches)
    requires Serving(cfg, s, c, t) && cfg.readPriority && Passed(cfg, traces, s, w, n)
    requires w in s.queue && w.op != BusRd && w.arrival < t
    requires i < |s.queue| && i == Winner(true, s.queue) && s.queue[i].op == BusRd && s.queue[i].core != c
    requires c < |s.traces| && s.traces[c] == [Load(b)] && Cold(cfg, s.sys.caches, c, b)
    ensures Passed(cfg, traces, s', w, n + 1) && u > t && s.queue[i].core < cfg.cores
    ensures Serving(cfg, s', s.queue[i].core, u) && s'.traces == s.traces[c := []]
    ensures s'.queue == s.queue[..i] + s.queue[i + 1..] + [BusRequest(c, BusRd, b, t)]
    ensures HasRead(cfg, s.sys.caches, s.queue[i].core, s.queue[i].addr, d) && SameStates(d, s'.sys.caches)
  {
    var s2;
    s2, u := PassOnce(cfg, traces, s, w, n, c, t, i);
    d := s2.sys.caches;
    ColdKept(cfg, s.sys.caches, s.queue[i].core, s.queue[i].addr, d, c, b);
    s' := ReadNext(cfg, traces, s2, w, n + 1, c, t, u, s.queue[i].core, b);
  }

  /** Core `c` goes on and queues its read. */
  lemma ReadNext(cfg: Config, traces: seq<seq<TraceEntry>>, s: Sim, w: BusRequest, n: nat, c: nat, t: nat, u: nat,
                 d: nat, b: Uint32) returns (s': Sim)
    requires Good(cfg, s) && s.busy && c < cfg.cores && d < cfg.cores && t < u
    requires Passed(cfg, traces, s, w, n) && w in s.queue
    requires s.events == multiset{Unblock(t, c), Release(u), Unblock(u, d)}
    requires c < |s.traces| && s.traces[c] == [Load(b)] && Cold(cfg, s.sys.caches, c, b)
    ensures Passed(cfg, traces, s', w, n) && Serving(cfg, s', d, u) && s'.traces == s.traces[c := []]
    ensures s'.queue == s.queue + [BusRequest(c, BusRd, b, t)] && SameStates(s.sys.caches, s'.sys.caches)
  {
    GoodFits(cfg, s);
    ColdMisses(cfg, s, c);
    assert s.traces[c][1..] == [];
    var s3;
    s3, s' := GoOn(cfg, s, c, t, u, d);
    PassQuiet(cfg, traces, s, Unblock(t, c), s3, w, n);
    PassQuiet(cfg, traces, s3, Fetch(t, c), s', w, n);
  }

  // ----- the order of the queue -----

  /** The reads of block 0 by the cores from `k` on, which all arrived at time 0. */
  function FirstReads(k: nat, n: nat): (q: seq<BusRequest>)
    ensures |q| == if k < n then n - k else 0
    ensures forall i :: 0 <= i < |q| ==> q[i] == BusRequest(k + i, BusRd, 0, 0)
    decreases n - k
  {
    if k >= n then [] else [BusRequest(k, BusRd, 0, 0)] + FirstReads(k + 1, n)
  }

  lemma BestIsFirst(q: seq<BusRequest>)
    requires |q| > 0 && forall i :: 0 < i < |q| ==> !Wins(true, q[i], q[0])
    ensures Winner(true, q) == 0
  {
  }

  lemma BestIsRead(q: seq<BusRequest>, i: nat)
    requires i < |q| && q[i].op == BusRd
    ensures q[Winner(true, q)].op == BusRd
  {
    assert !Wins(true, q[i], q[Winner(true, q)]);
  }

  // ----- the first reads, in turn -----

  /** The read of block 0 by core `k` is being served; those of the later cores wait, then the upgrade, then the
      second reads of the earlier cores. */
  ghost predicate Phase(cfg: Config, s: Sim, w: BusRequest, k: nat, t: nat, rest: seq<BusRequest>) {
    && Serving(cfg, s, k, t) && cfg.Valid() && cfg.readPriority && 1 <= k < cfg.cores == |s.traces|
    && w.op != BusRd && 0 < w.arrival < t
    && s.queue == FirstReads(k + 1, cfg.cores) + [w] + rest && SecondReads(rest, k)
    && forall i: nat :: k <= i < cfg.cores ==> ReadsOn(cfg, s, i)
  }

  ghost predicate SecondReads(rest: seq<BusRequest>, k: nat) {
    |rest| == k - 1 && forall j :: 0 <= j < |rest| ==> rest[j].op == BusRd && rest[j].core < k && rest[j].arrival > 0
  }

  /** Core `i` has only the load of the second block left, and does not hold it. */
  ghost predicate ReadsOn(cfg: Config, s: Sim, i: nat) {
    cfg.Valid() && i < |s.traces| && s.traces[i] == [Load(Second(cfg))] && Cold(cfg, s.sys.caches, i, Second(cfg))
  }

  lemma FirstInQueue(k: nat, n: nat, w: BusRequest, rest: seq<BusRequest>)
    requires k + 1 < n && w.op != BusRd && SecondReads(rest, k)
    ensures var q := FirstReads(k + 1, n) + [w] + rest;
            && q[0] == BusRequest(k + 1, BusRd, 0, 0) && Winner(true, q) == 0 && w in q
            && q[1..] == FirstReads(k + 2, n) + [w] + rest
  {
    var first := FirstReads(k + 1, n);
    var q := first + [w] + rest;
    assert q[|first|] == w;
    forall i | 0 < i < |q|
      ensures !Wins(true, q[i], q[0])
    {
      if i > |first| {
        assert q[i] == rest[i - |first| - 1];
      }
    }
    BestIsFirst(q);
  }

  /** Another block than the one just read. */
  lemma ReadsOnKept(cfg: Config, s: Sim, d: Caches, req: nat, s': Sim, i: nat)
    requires ReadsOn(cfg, s, i) && HasRead(cfg, s.sys.caches, req, 0, d) && SameStates(d, s'.sys.caches)
    requires i < |s'.traces| && s'.traces[i] == s.traces[i]
    ensures ReadsOn(cfg, s', i)
  {
    TwoLines(cfg);
    ColdKept(cfg, s.sys.caches, req, 0, d, i, Second(cfg));
    StillCold(cfg, d, s'.sys.caches, i, Second(cfg));
  }

  lemma PhaseReady(cfg: Config, s: Sim, w: BusRequest, k: nat, t: nat, rest: seq<BusRequest>)
    requires Phase(cfg, s, w, k, t, rest) && k + 1 < cfg.cores
    ensures s.queue != [] && s.queue[0] == BusRequest(k + 1, BusRd, 0, 0) && Winner(true, s.queue) == 0
    ensures w in s.queue && ReadsOn(cfg, s, k)
    ensures s.queue[..0] + s.queue[0 + 1..] == FirstReads(k + 2, cfg.cores) + [w] + rest
  {
    FirstInQueue(k, cfg.cores, w, rest);
    assert s.queue[..0] + s.queue[1..] == s.queue[1..];
  }

  lemma AppendLast(a: seq<BusRequest>, b: seq<BusRequest>, r: BusRequest)
    ensures a + b + [r] == a + (b + [r])
  {
  }

  lemma NextPhase(cfg: Config, traces: seq<seq<TraceEntry>>, s: Sim, w: BusRequest, n: nat, k: nat, t: nat,
                  rest: seq<BusRequest>) returns (s': Sim, u: nat)
    requires Phase(cfg, s, w, k, t, rest) && Passed(cfg, traces, s, w, n) && k + 1 < cfg.cores
    ensures Phase(cfg, s', w, k + 1, u, rest + [BusRequest(k, BusRd, Second(cfg), t)])
    ensures Passed(cfg, traces, s', w, n + 1)
  {
    var d;
    PhaseReady(cfg, s, w, k, t, rest);
    s', u, d := Round(cfg, traces, s, w, n, k, t, 0, Second(cfg));
    PhaseAfter(cfg, s, w, k, t, rest, s', u, d);
  }

  lemma PhaseAfter(cfg: Config, s: Sim, w: BusRequest, k: nat, t: nat, rest: seq<BusRequest>,
                   s': Sim, u: nat, d: Caches)
    requires Phase(cfg, s, w, k, t, rest) && k + 1 < cfg.cores && u > t
    requires Serving(cfg, s', k + 1, u) && s'.traces == s.traces[k := []]
    requires s'.queue == s.queue[..0] + s.queue[0 + 1..] + [BusRequest(k, BusRd, Second(cfg), t)]
    requires HasRead(cfg, s.sys.caches, k + 1, 0, d) && SameStates(d, s'.sys.caches)
    ensures Phase(cfg, s', w, k + 1, u, rest + [BusRequest(k, BusRd, Second(cfg), t)])
  {
    PhaseReady(cfg, s, w, k, t, rest);
    AppendLast(FirstReads(k + 2, cfg.cores) + [w], rest, BusRequest(k, BusRd, Second(cfg), t));
    forall i: nat | k + 1 <= i < cfg.cores
      ensures ReadsOn(cfg, s', i)
    {
      assert ReadsOn(cfg, s, i);
      ReadsOnKept(cfg, s, d, k + 1, s', i);
    }
  }

  lemma {:induction false} Phases(cfg: Config, traces: seq<seq<TraceEntry>>, s: Sim, w: BusRequest, n: nat, k: nat,
                                  t: nat, rest: seq<BusRequest>)
    returns (s': Sim, u: nat, rest': seq<BusRequest>, m: nat)
    requires Phase(cfg, s, w, k, t, rest) && Passed(cfg, traces, s, w, n)
    ensures Phase(cfg, s', w, cfg.cores - 1, u, rest') && Passed(cfg, traces, s', w, m)
    ensures m == n + (cfg.cores - 1 - k)
    decreases cfg.cores - k
  {
    if k + 1 == cfg.cores {
      s', u, rest', m := s, t, rest, n;
    } else {
      var s1, t1 := NextPhase(cfg, traces, s, w, n, k, t, rest);
      s', u, rest', m := Phases(cfg, traces, s1, w, n + 1, k + 1, t1, rest + [BusRequest(k, BusRd, Second(cfg), t)]);
    }
  }

  // ----- two more -----

  /** After the first reads only the upgrade and second reads wait. */
  lemma SecondInQueue(cfg: Config, s: Sim, w: BusRequest, t: nat, rest: seq<BusRequest>) returns (i: nat)
    requires cfg.cores >= 3 && Phase(cfg, s, w, cfg.cores - 1, t, rest)
    ensures i < |s.queue| && i == Winner(true, s.queue) && s.queue[i].op == BusRd
    ensures s.queue[i].core < cfg.cores - 1 && w in s.queue && |s.queue| > 1
  {
    assert s.queue == [w] + rest;
    BestIsRead(s.queue, 1);
    i := Winner(true, s.queue);
    assert s.queue[i] == rest[i - 1];
  }

  lemma Last(cfg: Config, traces: seq<seq<TraceEntry>>, s: Sim, w: BusRequest, n: nat, t: nat, rest: seq<BusRequest>)
    returns (s': Sim)
    requires cfg.cores >= 3 && Phase(cfg, s, w, cfg.cores - 1, t, rest) && Passed(cfg, traces, s, w, n)
    ensures Passed(cfg, traces, s', w, n + 1 + 1)
  {
    var s1, d, u := SecondRound(cfg, traces, s, w, n, t, rest);
    BestIsRead(s1.queue, |s1.queue| - 1);
    var v;
    s', v := PassOnce(cfg, traces, s1, w, n + 1, d, u, Winner(true, s1.queue));
  }

  lemma SecondRound(cfg: Config, traces: seq<seq<TraceEntry>>, s: Sim, w: BusRequest, n: nat, t: nat,
                    rest: seq<BusRequest>) returns (s': Sim, c: nat, u: nat)
    requires cfg.cores >= 3 && Phase(cfg, s, w, cfg.cores - 1, t, rest) && Passed(cfg, traces, s, w, n)
    ensures Serving(cfg, s', c, u) && Passed(cfg, traces, s', w, n + 1) && w.arrival < u && w in s'.queue
    ensures s'.queue[|s'.queue| - 1].op == BusRd
  {
    var i := SecondInQueue(cfg, s, w, t, rest);
    assert ReadsOn(cfg, s, cfg.cores - 1);
    var d;
    s', u, d := Round(cfg, traces, s, w, n, cfg.cores - 1, t, i, Second(cfg));
    c := s.queue[i].core;
    StaysIn(s.queue, i, w);
  }

  // ----- the beginning -----

  function Script(cfg: Config): (traces: seq<seq<TraceEntry>>)
    requires cfg.Valid()
    ensures |traces| == cfg.cores && traces[0] == [Load(0), Store(0)]
    ensures forall i :: 1 <= i < cfg.cores ==> traces[i] == [Load(0), Load(Second(cfg))]
  {
    seq(cfg.cores, i => if i == 0 then [Load(0), Store(0)] else [Load(0), Load(Second(cfg))])
  }

  /** The first fetches of the cores from `k` on. */
  ghost function Due(k: nat, n: nat): multiset<Event> {
    StartEvents(n) - StartEvents(k)
  }

  lemma DueNext(k: nat, n: nat)
    requires k < n
    ensures Fetch(0, k) in Due(k, n) && Due(k, n) - multiset{Fetch(0, k)} == Due(k + 1, n)
    ensures forall e :: e in Due(k, n) ==> e.Fetch? && e.time == 0
  {
    assert StartEvents(k + 1) == StartEvents(k) + multiset{Fetch(0, k)};
    assert StartEvents(k)[Fetch(0, k)] == 0;
  }

  lemma DueAll(n: nat)
    ensures Due(0, n) == StartEvents(n) && Due(n, n) == multiset{}
  {
  }

  /** Core `i` has not begun, and holds neither block. */
  ghost predicate Fresh(cfg: Config, s: Sim, i: nat) {
    && cfg.Valid() && i < |s.traces| && s.traces[i] == [Load(0), Load(Second(cfg))] && i < |s.blocked| && !s.blocked[i]
    && Cold(cfg, s.sys.caches, i, 0) && Cold(cfg, s.sys.caches, i, Second(cfg))
  }

  lemma StartGood(cfg: Config)
    requires cfg.Valid()
    ensures Good(cfg, Start(cfg, Script(cfg))) && Reachable(cfg, Script(cfg), Start(cfg, Script(cfg)))
  {
    StartInv(cfg, Script(cfg));
    ReachStart(cfg, Script(cfg));
  }

  lemma StartCold(cfg: Config, traces: seq<seq<TraceEntry>>, i: nat, a: Uint32)
    requires i < cfg.cores
    ensures Cold(cfg, Start(cfg, traces).sys.caches, i, a)
  {
    StartSet(cfg, traces, i, cfg.SetIndex(a));
  }

  lemma StartFresh(cfg: Config, i: nat)
    requires cfg.Valid() && 1 <= i < cfg.cores
    ensures Fresh(cfg, Start(cfg, Script(cfg)), i)
  {
    StartCold(cfg, Script(cfg), i, 0);
    StartCold(cfg, Script(cfg), i, Second(cfg));
  }

  lemma FreshKept(cfg: Config, s: Sim, s': Sim, i: nat)
    requires Fresh(cfg, s, i) && SameStates(s.sys.caches, s'.sys.caches)
    requires i < |s'.traces| && s'.traces[i] == s.traces[i] && i < |s'.blocked| && s'.blocked[i] == s.blocked[i]
    ensures Fresh(cfg, s', i)
  {
    StillCold(cfg, s.sys.caches, s'.sys.caches, i, 0);
    StillCold(cfg, s.sys.caches, s'.sys.caches, i, Second(cfg));
  }

  /** Core 0 alone has fetched. */
  ghost predicate Asked(cfg: Config, s: Sim) {
    && cfg.Valid() && Good(cfg, s) && !s.busy && s.queue == [BusRequest(0, BusRd, 0, 0)]
    && s.events == Due(1, cfg.cores) + multiset{Arbitrate(0)}
    && |s.traces| > 0 && s.traces[0] == [Store(0)]
    && forall i: nat :: 1 <= i < cfg.cores ==> Fresh(cfg, s, i)
  }

  lemma Ask(cfg: Config) returns (s: Sim)
    requires cfg.Valid()
    ensures Asked(cfg, s) && Reachable(cfg, Script(cfg), s)
  {
    var s0 := Start(cfg, Script(cfg));
    StartGood(cfg);
    StartCold(cfg, Script(cfg), 0, 0);
    StartUnstarted(cfg);
    s := AskFrom(cfg, s0);
    ReachNext(cfg, Script(cfg), s0, Fetch(0, 0), s);
    forall i: nat | 1 <= i < cfg.cores
      ensures Fresh(cfg, s, i)
    {
      StartFresh(cfg, i);
      FreshKept(cfg, s0, s, i);
    }
  }

  ghost predicate Unstarted(cfg: Config, s: Sim)
    requires cfg.Valid()
  {
    && s.events == Due(0, cfg.cores) && !s.busy && s.queue == [] && s.traces == Script(cfg)
    && |s.blocked| > 0 && !s.blocked[0]
  }

  lemma StartUnstarted(cfg: Config)
    requires cfg.Valid()
    ensures Unstarted(cfg, Start(cfg, Script(cfg)))
  {
    DueAll(cfg.cores);
  }

  lemma AskFrom(cfg: Config, s0: Sim) returns (s: Sim)
    requires cfg.Valid() && Good(cfg, s0) && Cold(cfg, s0.sys.caches, 0, 0) && Unstarted(cfg, s0)
    ensures Good(cfg, s) && Steps(cfg, s0, Fetch(0, 0), s) && !s.busy && s.queue == [BusRequest(0, BusRd, 0, 0)]
    ensures s.events == Due(1, cfg.cores) + multiset{Arbitrate(0)} && s.traces == Script(cfg)[0 := [Store(0)]]
    ensures s.blocked == s0.blocked[0 := true] && SameStates(s0.sys.caches, s.sys.caches)
  {
    GoodFits(cfg, s0);
    DueNext(0, cfg.cores);
    ColdMisses(cfg, s0, 0);
    s := MissFetched(cfg, s0, 0, 0);
    assert [Load(0), Store(0)][1..] == [Store(0)];
  }

  // ----- the other cores arrive -----

  /** The first fetches of the cores from `k` on are pending, and the end of the transaction of core 0 at `u`. */
  ghost predicate Pending(ev: multiset<Event>, k: nat, n: nat, u: nat) {
    forall z {:trigger Alike(ev, z)} :: Alike(ev, z) ==> z == Due(k, n) + multiset{Release(u), Unblock(u, 0)}
  }

  predicate Alike(ev: multiset<Event>, z: multiset<Event>) {
    ev == z
  }

  lemma PendingFirst(s: Sim, k: nat, n: nat, u: nat)
    requires Pending(s.events, k, n, u) && k < n && u > 0
    ensures Enabled(s, Fetch(0, k))
  {
    assert Alike(s.events, s.events);
    DueNext(k, n);
    FirstDue(s, Due(k, n), Fetch(0, k), u);
  }

  lemma FirstDue(s: Sim, due: multiset<Event>, e: Event, u: nat)
    requires s.events == due + multiset{Release(u), Unblock(u, 0)} && u > 0 && e in due
    requires forall f :: f in due ==> f.Fetch? && f.time == 0
    ensures Enabled(s, e)
  {
  }

  lemma PendingNext(ev: multiset<Event>, k: nat, n: nat, u: nat)
    requires Pending(ev, k, n, u) && k < n
    ensures Pending(ev - multiset{Fetch(0, k)} + multiset{}, k + 1, n, u)
  {
    assert Alike(ev, ev);
    DueNext(k, n);
    TakeOut(Due(k, n), multiset{Release(u), Unblock(u, 0)}, Fetch(0, k));
  }

  lemma TakeOut(a: multiset<Event>, b: multiset<Event>, e: Event)
    requires e in a
    ensures a + b - multiset{e} + multiset{} == (a - multiset{e}) + b
  {
  }

  lemma PendingNone(ev: multiset<Event>, n: nat, u: nat)
    requires Pending(ev, n, n, u)
    ensures ev == multiset{Release(u), Unblock(u, 0)}
  {
    assert Alike(ev, ev);
    DueAll(n);
  }

  /** The arbitration that core 0 asked for is due before all else. */
  lemma PendingGrant(ev: multiset<Event>, n: nat, u: nat)
    requires ev == Due(1, n) + multiset{Arbitrate(0)}
    ensures Pending(ev - multiset{Arbitrate(0)} + multiset{Release(u)} + multiset{Unblock(u, 0)}, 1, n, u)
  {
    assert ev - multiset{Arbitrate(0)} == Due(1, n);
    assert Due(1, n) + multiset{Release(u)} + multiset{Unblock(u, 0)}
        == Due(1, n) + multiset{Release(u), Unblock(u, 0)};
  }

  lemma ArbitrateFirst(s: Sim, n: nat)
    requires s.events == Due(1, n) + multiset{Arbitrate(0)}
    ensures Enabled(s, Arbitrate(0))
  {
    DueTimes(1, n);
  }

  /** Core 0 is being served its first read; the reads of cores 1 to `k - 1` wait, and the later cores are about to
      fetch. */
  ghost predicate Arrived(cfg: Config, s: Sim, k: nat, u: nat) {
    && cfg.Valid() && Good(cfg, s) && s.busy && u > 0 && 1 <= k <= cfg.cores == |s.traces|
    && Pending(s.events, k, cfg.cores, u)
    && s.queue == FirstReads(1, k) && s.traces[0] == [Store(0)] && Owns(cfg, s.sys.caches)
    && InPlace(cfg, s, k)
  }

  ghost predicate InPlace(cfg: Config, s: Sim, k: nat) {
    && (forall i: nat :: 1 <= i < k ==> ReadsOn(cfg, s, i))
    && (forall i: nat :: k <= i < cfg.cores ==> Fresh(cfg, s, i))
  }

  /** Core 0 holds block 0 Exclusive. */
  ghost predicate Owns(cfg: Config, c: Caches) {
    At(c, 0, cfg.SetIndex(0)) && StateAt(c, 0, cfg.SetIndex(0), cfg.Tag(0)) == Exclusive
  }

  lemma StillOwns(cfg: Config, c: Caches, d: Caches)
    requires Owns(cfg, c) && SameStates(c, d)
    ensures Owns(cfg, d)
  {
  }

  lemma FirstGrant(cfg: Config) returns (s: Sim, u: nat)
    requires cfg.Valid() && cfg.readPriority
    ensures Arrived(cfg, s, 1, u) && Reachable(cfg, Script(cfg), s)
  {
    var s0 := Ask(cfg);
    s, u := GrantAsked(cfg, s0);
    ReachNext(cfg, Script(cfg), s0, Arbitrate(0), s);
  }

  lemma GrantAsked(cfg: Config, s: Sim) returns (s': Sim, u: nat)
    requires Asked(cfg, s) && cfg.readPriority
    ensures Steps(cfg, s, Arbitrate(0), s') && Arrived(cfg, s', 1, u)
  {
    ArbitrateFirst(s, cfg.cores);
    BestIsFirst(s.queue);
    s', u := GrantBest(cfg, s, 0, 0);
    AskedAfter(cfg, s, s', u);
  }

  lemma AskedAfter(cfg: Config, s: Sim, s': Sim, u: nat)
    requires Asked(cfg, s) && Good(cfg, s') && ReadGranted(s, 0, 0, s', u)
    requires HasRead(cfg, s.sys.caches, 0, 0, s'.sys.caches)
    ensures Arrived(cfg, s', 1, u)
  {
    PendingGrant(s.events, cfg.cores, u);
    GoodFits(cfg, s');
    AskedOwns(cfg, s, s'.sys.caches);
    AskedFresh(cfg, s, s');
  }

  lemma AskedFresh(cfg: Config, s: Sim, s': Sim)
    requires Asked(cfg, s) && HasRead(cfg, s.sys.caches, 0, 0, s'.sys.caches)
    requires s'.traces == s.traces && s'.blocked == s.blocked
    ensures InPlace(cfg, s', 1)
  {
    forall i: nat | 1 <= i < cfg.cores
      ensures Fresh(cfg, s', i)
    {
      assert Fresh(cfg, s, i);
      ColdKept(cfg, s.sys.caches, 0, 0, s'.sys.caches, i, 0);
      ColdKept(cfg, s.sys.caches, 0, 0, s'.sys.caches, i, Second(cfg));
    }
  }

  lemma AskedOwns(cfg: Config, s: Sim, d: Caches)
    requires Asked(cfg, s) && HasRead(cfg, s.sys.caches, 0, 0, d)
    ensures Owns(cfg, d)
  {
    forall i: nat | i < cfg.cores && i != 0
      ensures Cold(cfg, s.sys.caches, i, 0)
    {
      assert Fresh(cfg, s, i);
    }
    FirstReader(cfg, s.sys.caches, 0, 0, d);
  }

  lemma DueTimes(k: nat, n: nat)
    ensures forall e :: e in Due(k, n) ==> e.Fetch? && e.time == 0
  {
  }

  lemma Arrive(cfg: Config, s: Sim, k: nat, u: nat) returns (s': Sim)
    requires Arrived(cfg, s, k, u) && k < cfg.cores
    ensures Steps(cfg, s, Fetch(0, k), s') && Arrived(cfg, s', k + 1, u)
  {
    ArriveReady(cfg, s, k, u);
    s' := MissFetched(cfg, s, 0, k);
    ArriveAfter(cfg, s, k, u, s');
  }

  lemma ArriveReady(cfg: Config, s: Sim, k: nat, u: nat)
    requires Arrived(cfg, s, k, u) && k < cfg.cores
    ensures WellFormed(cfg, s) && Enabled(s, Fetch(0, k)) && !s.blocked[k] && NextRead(cfg, s, k)
  {
    GoodFits(cfg, s);
    assert Fresh(cfg, s, k);
    PendingFirst(s, k, cfg.cores, u);
    ColdMisses(cfg, s, k);
  }

  /** The next entry of core `k` is a load of block 0 that misses. */
  ghost predicate NextRead(cfg: Config, s: Sim, k: nat)
    requires WellFormed(cfg, s) && k < cfg.cores
  {
    s.traces[k] != [] && s.traces[k][0] == Load(0) && NextOp(cfg, s, k) == BusRd
  }

  lemma ArriveAfter(cfg: Config, s: Sim, k: nat, u: nat, s': Sim)
    requires Arrived(cfg, s, k, u) && k < cfg.cores && Good(cfg, s') && s'.busy && s.traces[k] != []
    requires s'.queue == s.queue + [BusRequest(k, BusRd, 0, 0)] && s'.traces == s.traces[k := s.traces[k][1..]]
    requires k < |s.blocked| && s'.blocked == s.blocked[k := true] && SameStates(s.sys.caches, s'.sys.caches)
    requires s'.events == s.events - multiset{Fetch(0, k)} + multiset{}
    ensures Arrived(cfg, s', k + 1, u)
  {
    PendingNext(s.events, k, cfg.cores, u);
    assert s'.queue == FirstReads(1, k + 1);
    StillOwns(cfg, s.sys.caches, s'.sys.caches);
    ArriveInPlace(cfg, s, k, s');
  }

  lemma ArriveInPlace(cfg: Config, s: Sim, k: nat, s': Sim)
    requires InPlace(cfg, s, k) && 1 <= k < cfg.cores == |s.traces| && s.traces[k] != []
    requires s'.traces == s.traces[k := s.traces[k][1..]] && SameStates(s.sys.caches, s'.sys.caches)
    requires k < |s.blocked| && s'.blocked == s.blocked[k := true]
    ensures InPlace(cfg, s', k + 1)
  {
    forall i: nat | 1 <= i < k + 1
      ensures ReadsOn(cfg, s', i)
    {
      assert if i < k then ReadsOn(cfg, s, i) else Fresh(cfg, s, i);
      assert [Load(0), Load(Second(cfg))][1..] == [Load(Second(cfg))];
      StillCold(cfg, s.sys.caches, s'.sys.caches, i, Second(cfg));
    }
    forall i: nat | k + 1 <= i < cfg.cores
      ensures Fresh(cfg, s', i)
    {
      assert Fresh(cfg, s, i);
      FreshKept(cfg, s, s', i);
    }
  }

  lemma {:induction false} ArriveAll(cfg: Config, s: Sim, k: nat, u: nat) returns (s': Sim)
    requires Arrived(cfg, s, k, u) && Reachable(cfg, Script(cfg), s)
    ensures Arrived(cfg, s', cfg.cores, u) && Reachable(cfg, Script(cfg), s')
    decreases cfg.cores - k
  {
    if k == cfg.cores {
      s' := s;
    } else {
      var s1 := Arrive(cfg, s, k, u);
      ReachNext(cfg, Script(cfg), s, Fetch(0, k), s1);
      s' := ArriveAll(cfg, s1, k + 1, u);
    }
  }

  // ----- the upgrade -----

  /** Core 1 is granted its read, and core 0 asks for its block back. */
  lemma Upgrade(cfg: Config, s: Sim, u: nat) returns (s': Sim, w: BusRequest, t: nat)
    requires Arrived(cfg, s, cfg.cores, u) && Reachable(cfg, Script(cfg), s) && cfg.readPriority && cfg.cores >= 3
    ensures Phase(cfg, s', w, 1, t, []) && Reachable(cfg, Script(cfg), s') && w in s'.queue && w.op == BusUpgr
  {
    var s2, s3;
    s2, t := ServeFirst(cfg, s, u);
    s3, s' := AskBack(cfg, s, s2, u, t);
    ReachNext(cfg, Script(cfg), s2, Unblock(u, 0), s3);
    ReachNext(cfg, Script(cfg), s3, Fetch(u, 0), s');
    w := BusRequest(0, BusUpgr, 0, u);
  }

  lemma ServeFirst(cfg: Config, s: Sim, u: nat) returns (s': Sim, t: nat)
    requires Arrived(cfg, s, cfg.cores, u) && Reachable(cfg, Script(cfg), s) && cfg.readPriority && cfg.cores >= 3
    ensures Reachable(cfg, Script(cfg), s') && Good(cfg, s') && s'.busy && t > u && s'.traces == s.traces
    ensures s'.queue == FirstReads(2, cfg.cores) && s'.events == multiset{Unblock(u, 0), Release(t), Unblock(t, 1)}
    ensures HasRead(cfg, s.sys.caches, 1, 0, s'.sys.caches)
  {
    PendingNone(s.events, cfg.cores, u);
    FirstOfAll(cfg.cores);
    s', t := ServeNext(cfg, s, u);
  }

  lemma ServeNext(cfg: Config, s: Sim, u: nat) returns (s': Sim, t: nat)
    requires cfg.Valid() && Serving(cfg, s, 0, u) && Reachable(cfg, Script(cfg), s) && cfg.readPriority
    requires |s.queue| > 0 && s.queue[0] == BusRequest(1, BusRd, 0, 0) && Winner(true, s.queue) == 0
    ensures Reachable(cfg, Script(cfg), s') && Good(cfg, s') && s'.busy && t > u && s'.traces == s.traces
    ensures s'.queue == s.queue[..0] + s.queue[1..] && s'.events == multiset{Unblock(u, 0), Release(t), Unblock(t, 1)}
    ensures HasRead(cfg, s.sys.caches, 1, 0, s'.sys.caches)
  {
    var s1;
    s1, s', t := Serve(cfg, s, 0, u, 0);
    ReachTwice(cfg, Script(cfg), s, Release(u), s1, Arbitrate(u), s');
  }

  lemma FirstOfAll(n: nat)
    requires n >= 2
    ensures var q := FirstReads(1, n);
            q != [] && q[0] == BusRequest(1, BusRd, 0, 0) && Winner(true, q) == 0
            && q[..0] + q[0 + 1..] == FirstReads(2, n)
  {
    var q := FirstReads(1, n);
    BestIsFirst(q);
    assert q[..0] + q[1..] == q[1..];
  }

  lemma AskBack(cfg: Config, s: Sim, s2: Sim, u: nat, t: nat) returns (s3: Sim, s': Sim)
    requires Arrived(cfg, s, cfg.cores, u) && cfg.readPriority && cfg.cores >= 3 && u < t
    requires Good(cfg, s2) && s2.busy && s2.traces == s.traces && s2.queue == FirstReads(2, cfg.cores)
    requires s2.events == multiset{Unblock(u, 0), Release(t), Unblock(t, 1)}
    requires HasRead(cfg, s.sys.caches, 1, 0, s2.sys.caches)
    ensures Steps(cfg, s2, Unblock(u, 0), s3) && Steps(cfg, s3, Fetch(u, 0), s')
    ensures Phase(cfg, s', BusRequest(0, BusUpgr, 0, u), 1, t, [])
  {
    GoodFits(cfg, s2);
    SecondReader(cfg, s.sys.caches, 1, 0, s2.sys.caches, 0);
    StoreUpgrades(cfg, s2);
    s3, s' := GoOn(cfg, s2, 0, u, t, 1);
    UpgradePhase(cfg, s, s2.sys.caches, u, t, s');
  }

  lemma StoreUpgrades(cfg: Config, s: Sim)
    requires WellFormed(cfg, s) && cfg.cores > 0 && s.traces[0] == [Store(0)]
    requires At(s.sys.caches, 0, cfg.SetIndex(0))
    requires IsShared(cfg.protocol, StateAt(s.sys.caches, 0, cfg.SetIndex(0), cfg.Tag(0)))
    ensures NextOp(cfg, s, 0) == BusUpgr
  {
  }

  lemma UpgradePhase(cfg: Config, s: Sim, d: Caches, u: nat, t: nat, s': Sim)
    requires Arrived(cfg, s, cfg.cores, u) && cfg.readPriority && cfg.cores >= 3 && u < t
    requires Serving(cfg, s', 1, t) && HasRead(cfg, s.sys.caches, 1, 0, d) && SameStates(d, s'.sys.caches)
    requires s'.traces == s.traces[0 := s.traces[0][1..]]
    requires s'.queue == FirstReads(2, cfg.cores) + [BusRequest(0, BusUpgr, 0, u)]
    ensures Phase(cfg, s', BusRequest(0, BusUpgr, 0, u), 1, t, [])
  {
    assert s'.queue == FirstReads(2, cfg.cores) + [BusRequest(0, BusUpgr, 0, u)] + [];
    forall i: nat | 1 <= i < cfg.cores
      ensures ReadsOn(cfg, s', i)
    {
      assert ReadsOn(cfg, s, i);
      ReadsOnKept(cfg, s, d, 1, s', i);
    }
  }

  /** In every machine with read priority and at least three cores there is a run in which an upgrade, its arrival
      passed by the clock, waits for as many grants to others as there are cores. */
  lemma UpgradePassed(cfg: Config)
    returns (traces: seq<seq<TraceEntry>>, states: seq<Sim>, fired: seq<Event>, m: nat, w: BusRequest)
    requires cfg.Valid() && cfg.readPriority && cfg.cores >= 3
    ensures IsRun(cfg, traces, states, fired) && m <= |fired| && w.op == BusUpgr
    ensures (forall j :: m <= j <= |fired| ==> w in states[j].queue) && w.arrival < states[m].now
    ensures Grants(states, m, |fired|) == cfg.cores
  {
    traces := Script(cfg);
    var s, n;
    s, w, n := Waiting(cfg);
    assert n == cfg.cores;
    states, fired, m := PassedRun(cfg, traces, s, w, n);
  }

  lemma Waiting(cfg: Config) returns (s: Sim, w: BusRequest, n: nat)
    requires cfg.Valid() && cfg.readPriority && cfg.cores >= 3
    ensures Passed(cfg, Script(cfg), s, w, n) && n == cfg.cores && w.op == BusUpgr
  {
    var s0, u, s1, t, s2, rest, m;
    s0, u := FirstGrant(cfg);
    s0 := ArriveAll(cfg, s0, 1, u);
    s1, w, t := Upgrade(cfg, s0, u);
    PassStart(cfg, Script(cfg), s1, w);
    s2, t, rest, m := Phases(cfg, Script(cfg), s1, w, 0, 1, t, []);
    s := Last(cfg, Script(cfg), s2, w, m, t, rest);
    n := m + 1 + 1;
  }
}
