/**
 The life of a line between two transactions on its block, and what it means for
 the forwarder of MESIF.
 */
module Lines {
  import opened Defs
  import opened Protocols
  import opened Simulation
  import opened Tables
  import opened Runs
  import opened RunTables

  /** The step from `s` to `s'` grants a request for block (k, t). */
  ghost predicate OnBlock(cfg: Config, s: Sim, s': Sim, k: nat, t: nat) {
    exists r: BusRequest :: r in s.queue && r !in s'.queue && cfg.SetIndex(r.addr) == k && cfg.Tag(r.addr) == t
  }

  /** It grants a request of core `i` that fills a full set, where the line (k, t) makes room. */
  ghost predicate Evicts(cfg: Config, s: Sim, s': Sim, i: nat, k: nat, t: nat) {
    exists r: BusRequest :: r in s.queue && r !in s'.queue && EvictsFor(cfg, s, r, i, k, t)
  }

  ghost predicate EvictsFor(cfg: Config, s: Sim, r: BusRequest, i: nat, k: nat, t: nat) {
    && At(s.sys.caches, i, k) && r.core == i && cfg.SetIndex(r.addr) == k && r.op != BusUpgr
    && var cs := s.sys.caches[i][k];
    |cs.lines| >= cfg.assoc && exists v: nat :: MakesRoom(cfg.protocol, cs, v) && cs.lru[v] == t
  }

  /** It fetches a store of core `i` to block (k, t). */
  ghost predicate Stores(cfg: Config, s: Sim, e: Event, i: nat, k: nat, t: nat) {
    && e.Fetch? && e.core == i && i < |s.traces| && s.traces[i] != []
    && Accesses(s, e, s.traces[i][0]) && s.traces[i][0].kind == 1
    && cfg.SetIndex(s.traces[i][0].val) == k && cfg.Tag(s.traces[i][0].val) == t
  }

  /** The line after one step without a transaction on its block. */
  function Next(st: LineState, evicted: bool, stored: bool): LineState {
    if evicted then Invalid else if stored && st in {Exclusive, Modified} then Modified else st
  }

  lemma LineStep(cfg: Config, traces: seq<seq<TraceEntry>>, states: seq<Sim>, fired: seq<Event>, n: nat,
                 i: nat, k: nat, t: nat)
    requires IsRun(cfg, traces, states, fired) && n < |fired| && i < cfg.cores && k < cfg.NumSets()
    requires !OnBlock(cfg, states[n], states[n + 1], k, t)
    ensures At(states[n].sys.caches, i, k) && At(states[n + 1].sys.caches, i, k)
    ensures StateAt(states[n + 1].sys.caches, i, k, t)
            == Next(StateAt(states[n].sys.caches, i, k, t), Evicts(cfg, states[n], states[n + 1], i, k, t),
                    Stores(cfg, states[n], fired[n], i, k, t))
  {
    var s, s', e := states[n], states[n + 1], fired[n];
    OtherSteps(cfg, traces, states, fired, n);
    if r: BusRequest :| r in s.queue && r !in s'.queue && EvictsFor(cfg, s, r, i, k, t) {
      GrantKeeps(cfg, traces, states, fired, n, r, i, k, t);
    } else if e.Arbitrate? && !s.busy && s.queue != [] {
      var r := ArbitrationGrants(cfg, traces, states, fired, n);
      GrantKeeps(cfg, traces, states, fired, n, r, i, k, t);
      assert !EvictsFor(cfg, s, r, i, k, t);
    } else if e.Fetch? && s.traces[e.core] != [] {
      var entry := s.traces[e.core][0];
      if entry.kind == 2 {
        ComputeSteps(cfg, traces, states, fired, n, entry.val);
      } else {
        AccessStates(cfg, traces, states, fired, n, entry, i, k, t);
      }
    }
  }

  ghost predicate OnBlockAt(cfg: Config, states: seq<Sim>, k: nat, t: nat, j: nat) {
    j + 1 < |states| && OnBlock(cfg, states[j], states[j + 1], k, t)
  }

  ghost predicate EvictsAt(cfg: Config, states: seq<Sim>, i: nat, k: nat, t: nat, j: nat) {
    j + 1 < |states| && Evicts(cfg, states[j], states[j + 1], i, k, t)
  }

  ghost predicate StoresAt(cfg: Config, states: seq<Sim>, fired: seq<Event>, i: nat, k: nat, t: nat, j: nat) {
    j < |fired| && j < |states| && Stores(cfg, states[j], fired[j], i, k, t)
  }

  ghost predicate EvictedIn(cfg: Config, states: seq<Sim>, i: nat, k: nat, t: nat, a: nat, m: nat) {
    exists j: nat :: a <= j < m && EvictsAt(cfg, states, i, k, t, j)
  }

  ghost predicate StoredIn(cfg: Config, states: seq<Sim>, fired: seq<Event>, i: nat, k: nat, t: nat, a: nat, m: nat) {
    exists j: nat :: a <= j < m && StoresAt(cfg, states, fired, i, k, t, j)
  }

  lemma EvictedNext(cfg: Config, states: seq<Sim>, i: nat, k: nat, t: nat, a: nat, m: nat)
    requires a <= m
    ensures EvictedIn(cfg, states, i, k, t, a, m + 1)
            <==> EvictedIn(cfg, states, i, k, t, a, m) || EvictsAt(cfg, states, i, k, t, m)
  {
  }

  lemma StoredNext(cfg: Config, states: seq<Sim>, fired: seq<Event>, i: nat, k: nat, t: nat, a: nat, m: nat)
    requires a <= m
    ensures StoredIn(cfg, states, fired, i, k, t, a, m + 1)
            <==> StoredIn(cfg, states, fired, i, k, t, a, m) || StoresAt(cfg, states, fired, i, k, t, m)
  {
  }

  lemma RunShaped(cfg: Config, traces: seq<seq<TraceEntry>>, states: seq<Sim>, fired: seq<Event>, n: nat, i: nat,
                  k: nat)
    requires IsRun(cfg, traces, states, fired) && n <= |fired| && i < cfg.cores && k < cfg.NumSets()
    ensures At(states[n].sys.caches, i, k)
  {
    RunInv(cfg, traces, states, fired, n);
  }

  /** What has become at step `m` of a line as it was at step `a`. */
  ghost predicate Persists(cfg: Config, states: seq<Sim>, fired: seq<Event>, a: nat, m: nat, i: nat, k: nat, t: nat) {
    && a < |states| && m < |states| && At(states[a].sys.caches, i, k) && At(states[m].sys.caches, i, k)
    && StateAt(states[m].sys.caches, i, k, t)
       == Next(StateAt(states[a].sys.caches, i, k, t), EvictedIn(cfg, states, i, k, t, a, m),
               StoredIn(cfg, states, fired, i, k, t, a, m))
  }

  lemma PersistsNext(cfg: Config, traces: seq<seq<TraceEntry>>, states: seq<Sim>, fired: seq<Event>,
                     a: nat, m: nat, i: nat, k: nat, t: nat)
    requires IsRun(cfg, traces, states, fired) && a <= m < |fired| && i < cfg.cores && k < cfg.NumSets()
    requires !OnBlockAt(cfg, states, k, t, m) && Persists(cfg, states, fired, a, m, i, k, t)
    ensures Persists(cfg, states, fired, a, m + 1, i, k, t)
  {
    LineStep(cfg, traces, states, fired, m, i, k, t);
    EvictedNext(cfg, states, i, k, t, a, m);
    StoredNext(cfg, states, fired, i, k, t, a, m);
    NextTwice(StateAt(states[a].sys.caches, i, k, t), EvictedIn(cfg, states, i, k, t, a, m),
              StoredIn(cfg, states, fired, i, k, t, a, m), EvictsAt(cfg, states, i, k, t, m),
              StoresAt(cfg, states, fired, i, k, t, m));
  }

  lemma NextTwice(st: LineState, evicted: bool, stored: bool, evicts: bool, stores: bool)
    ensures Next(Next(st, evicted, stored), evicts, stores) == Next(st, evicted || evicts, stored || stores)
  {
  }

  /** Between transactions on its block a line changes only by making room, which leaves it Invalid, and by a store of
      its own core to an Exclusive line, which leaves it Modified. */
  lemma {:induction false} LinePersists(cfg: Config, traces: seq<seq<TraceEntry>>, states: seq<Sim>, fired: seq<Event>,
                                        a: nat, m: nat, i: nat, k: nat, t: nat)
    requires IsRun(cfg, traces, states, fired) && a <= m <= |fired| && i < cfg.cores && k < cfg.NumSets()
    requires forall j: nat :: a <= j < m ==> !OnBlockAt(cfg, states, k, t, j)
    ensures Persists(cfg, states, fired, a, m, i, k, t)
    decreases m
  {
    if a == m {
      RunShaped(cfg, traces, states, fired, m, i, k);
    } else {
      var before: nat := m - 1;
      LinePersists(cfg, traces, states, fired, a, before, i, k, t);
      PersistsNext(cfg, traces, states, fired, a, before, i, k, t);
      assert before + 1 == m;
    }
  }

  /** MESIF: the core that last filled a block by a read while another core held it is its forwarder, until the next
      transaction on the block or the eviction of its own line. */
  lemma ForwarderIsLastReader(cfg: Config, traces: seq<seq<TraceEntry>>, states: seq<Sim>, fired: seq<Event>,
                              n: nat, m: nat, r: BusRequest)
    requires IsRun(cfg, traces, states, fired) && n < m <= |fired| && cfg.protocol == Mesif
    requires r in states[n].queue && r !in states[n + 1].queue && r.op == BusRd
    requires forall j: nat :: n < j < m ==> !OnBlockAt(cfg, states, cfg.SetIndex(r.addr), cfg.Tag(r.addr), j)
    ensures WellFormed(cfg, states[n]) && r.core < cfg.cores
    ensures var k, t := cfg.SetIndex(r.addr), cfg.Tag(r.addr);
            && At(states[m].sys.caches, r.core, k)
            && (HeldElsewhere(states[n].sys.caches, r.core, k, t) ==>
                 StateAt(states[m].sys.caches, r.core, k, t)
                 == if EvictedIn(cfg, states, r.core, k, t, n + 1, m) then Invalid else Forward)
  {
    FillsForward(cfg, traces, states, fired, n, r);
    LinePersists(cfg, traces, states, fired, n + 1, m, r.core, cfg.SetIndex(r.addr), cfg.Tag(r.addr));
  }

  lemma FillsForward(cfg: Config, traces: seq<seq<TraceEntry>>, states: seq<Sim>, fired: seq<Event>, n: nat,
                     r: BusRequest)
    requires IsRun(cfg, traces, states, fired) && n < |fired| && cfg.protocol == Mesif
    requires r in states[n].queue && r !in states[n + 1].queue && r.op == BusRd
    ensures WellFormed(cfg, states[n]) && r.core < cfg.cores
    ensures var k, t := cfg.SetIndex(r.addr), cfg.Tag(r.addr);
            && At(states[n + 1].sys.caches, r.core, k)
            && (HeldElsewhere(states[n].sys.caches, r.core, k, t) ==>
                 StateAt(states[n + 1].sys.caches, r.core, k, t) == Forward)
  {
    var w := RunGrants(cfg, traces, states, fired, n, r);
    GrantStates(cfg, traces, states, fired, n, r, r.core);
  }
}
