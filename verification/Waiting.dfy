/**
 How many grants can precede the one a request waits for, once the clock has passed
 its arrival: fewer than there are cores in every run, exactly if the arbiter does not
 let reads pass or there are at most two cores.
 */
module Waiting {
  import opened Defs
  import opened Simulation
  import opened Tokens
  import opened Progress
  import opened Fairness
  import opened Runs
  import opened UpgradeWaits

  /** Request `r` waits from state `m` to state `n`, and the clock has passed its arrival. */
  ghost predicate Waits(states: seq<Sim>, m: nat, n: nat, r: BusRequest) {
    m <= n < |states| && (forall j :: m <= j <= n ==> r in states[j].queue) && r.arrival < states[m].now
  }

  /** In every run, every request waits for fewer than `bound` grants to others. */
  ghost predicate WaitBound(cfg: Config, bound: nat) {
    forall traces: seq<seq<TraceEntry>>, states: seq<Sim>, fired: seq<Event>, m: nat, n: nat, r: BusRequest ::
      IsRun(cfg, traces, states, fired) && Waits(states, m, n, r) ==> Grants(states, m, n) < bound
  }

  // ----- the queue is short -----

  /** The core the bus is held for is not in the queue. */
  lemma HeldQueue(cfg: Config, s: Sim, tok: seq<CoreToken>, bus: BusToken)
    requires TokenInv(cfg, s, tok, bus) && s.busy
    ensures |s.queue| < cfg.cores
  {
    var c: nat :| c < cfg.cores && tok[c].AtUnblock?;
    var cores := seq(|s.queue|, i requires 0 <= i < |s.queue| => s.queue[i].core) + [c];
    Pigeonhole(cores, cfg.cores);
  }

  /** The queue grows only while the bus is held, or from nothing. */
  lemma QueueGrows(cfg: Config, s: Sim, e: Event, s': Sim, tok: seq<CoreToken>, bus: BusToken)
    requires TokenInv(cfg, s, tok, bus) && IsStep(cfg, s, e, s')
    ensures |s'.queue| <= |s.queue| || s'.busy || |s'.queue| == 1
  {
    match e
    case Release(_) =>
    case Arbitrate(_) =>
    case Unblock(_, _) =>
    case Fetch(_, _) =>
      ClockWaitsForBus(cfg, s, e, tok, bus);
      if !s.blocked[e.core] && s.traces[e.core] != [] {
        FetchShape(cfg, s, e);
      }
  }

  function Waiters(cfg: Config): nat {
    if cfg.cores <= 2 then 1 else cfg.cores - 1
  }

  lemma {:induction false} ShortQueue(cfg: Config, traces: seq<seq<TraceEntry>>, states: seq<Sim>, fired: seq<Event>,
                                      n: nat)
    requires IsRun(cfg, traces, states, fired) && n <= |fired|
    ensures |states[n].queue| <= Waiters(cfg)
  {
    if n > 0 {
      ShortQueue(cfg, traces, states, fired, n - 1);
      ShortAfter(cfg, traces, states, fired, n - 1);
    }
  }

  lemma ShortAfter(cfg: Config, traces: seq<seq<TraceEntry>>, states: seq<Sim>, fired: seq<Event>, n: nat)
    requires IsRun(cfg, traces, states, fired) && n < |fired| && |states[n].queue| <= Waiters(cfg)
    ensures |states[n + 1].queue| <= Waiters(cfg)
  {
    RunStep(cfg, traces, states, fired, n);
    ShortNext(cfg, states[n], fired[n], states[n + 1]);
  }

  lemma HeldShort(cfg: Config, s: Sim)
    requires Inv(cfg, s) && s.busy
    ensures |s.queue| <= Waiters(cfg)
  {
    var tok: seq<CoreToken>, bus: BusToken :| TokenInv(cfg, s, tok, bus);
    HeldQueue(cfg, s, tok, bus);
  }

  lemma ShortNext(cfg: Config, s: Sim, e: Event, s': Sim)
    requires Inv(cfg, s) && IsStep(cfg, s, e, s') && |s.queue| <= Waiters(cfg)
    ensures |s'.queue| <= Waiters(cfg)
  {
    var tok: seq<CoreToken>, bus: BusToken :| TokenInv(cfg, s, tok, bus);
    QueueGrows(cfg, s, e, s', tok, bus);
    if s'.busy {
      StepInv(cfg, s, e);
      HeldShort(cfg, s');
    }
  }

  // ----- when the bound holds -----

  /** With at most two cores nothing is granted while a request waits. */
  lemma {:induction false} NoGrants(cfg: Config, traces: seq<seq<TraceEntry>>, states: seq<Sim>, fired: seq<Event>,
                                    m: nat, n: nat, r: BusRequest)
    requires IsRun(cfg, traces, states, fired) && cfg.cores <= 2
    requires m <= n <= |fired| && forall j :: m <= j <= n ==> r in states[j].queue
    ensures Grants(states, m, n) == 0
  {
    if m < n {
      NoGrants(cfg, traces, states, fired, m, n - 1, r);
      ShortQueue(cfg, traces, states, fired, n - 1);
      NoGrantAt(cfg, traces, states, fired, n - 1);
    }
  }

  lemma NoGrantAt(cfg: Config, traces: seq<seq<TraceEntry>>, states: seq<Sim>, fired: seq<Event>, n: nat)
    requires IsRun(cfg, traces, states, fired) && n < |fired|
    requires |states[n].queue| <= 1 && |states[n + 1].queue| > 0
    ensures !IsGrant(states[n], states[n + 1])
  {
    RunStep(cfg, traces, states, fired, n);
    if IsGrant(states[n], states[n + 1]) {
      GrantShortens(cfg, states[n], fired[n], states[n + 1]);
    }
  }

  lemma GrantShortens(cfg: Config, s: Sim, e: Event, s': Sim)
    requires IsStep(cfg, s, e, s') && IsGrant(s, s')
    ensures |s'.queue| + 1 == |s.queue|
  {
    if e.Fetch? {
      NoGrantByFetch(cfg, s, e);
    }
  }

  /** First come, first served. */
  lemma InTurn(cfg: Config, traces: seq<seq<TraceEntry>>, states: seq<Sim>, fired: seq<Event>,
               m: nat, n: nat, r: BusRequest)
    requires IsRun(cfg, traces, states, fired) && Waits(states, m, n, r) && !cfg.readPriority
    ensures Grants(states, m, n) < Waiters(cfg)
  {
    FcfsBound(cfg, traces, states, fired, m, n, r);
    ShortQueue(cfg, traces, states, fired, m);
    AheadBound(cfg.readPriority, states[m].queue, r);
  }

  lemma Bounded(cfg: Config)
    requires !cfg.readPriority || cfg.cores <= 2
    ensures WaitBound(cfg, Waiters(cfg))
  {
    forall traces: seq<seq<TraceEntry>>, states: seq<Sim>, fired: seq<Event>, m: nat, n: nat, r: BusRequest |
      IsRun(cfg, traces, states, fired) && Waits(states, m, n, r)
      ensures Grants(states, m, n) < Waiters(cfg)
    {
      if cfg.cores <= 2 {
        NoGrants(cfg, traces, states, fired, m, n, r);
      } else {
        InTurn(cfg, traces, states, fired, m, n, r);
      }
    }
  }

  /** The bound holds exactly if reads do not pass, or there are at most two cores; and where it holds, no more than
      `cores - 2` grants (none for a single core) precede the one waited for. */
  lemma WaitBoundExact(cfg: Config)
    requires cfg.Valid()
    ensures WaitBound(cfg, cfg.cores) <==> !cfg.readPriority || cfg.cores <= 2
    ensures WaitBound(cfg, cfg.cores) <==> WaitBound(cfg, Waiters(cfg))
  {
    if !cfg.readPriority || cfg.cores <= 2 {
      Bounded(cfg);
      Relax(cfg);
    } else {
      Unbounded(cfg);
      Relax(cfg);
    }
  }

  lemma Relax(cfg: Config)
    requires cfg.Valid()
    ensures WaitBound(cfg, Waiters(cfg)) ==> WaitBound(cfg, cfg.cores)
  {
    if WaitBound(cfg, Waiters(cfg)) {
      forall traces: seq<seq<TraceEntry>>, states: seq<Sim>, fired: seq<Event>, m: nat, n: nat, r: BusRequest |
        IsRun(cfg, traces, states, fired) && Waits(states, m, n, r)
        ensures Grants(states, m, n) < cfg.cores
      {
        assert Grants(states, m, n) < Waiters(cfg);
      }
    }
  }

  lemma Unbounded(cfg: Config)
    requires cfg.Valid() && cfg.readPriority && cfg.cores >= 3
    ensures !WaitBound(cfg, cfg.cores)
  {
    var traces, states, fired, m, w := UpgradePassed(cfg);
    assert Waits(states, m, |fired|, w);
  }
}
