/**
 Termination and absence of deadlock.  Every event lowers a weight that starts at
 five per trace entry plus one per core, and the heap never runs dry before every
 trace is exhausted, every core is unblocked, and the bus and its queue are idle.
 */
module Progress {
  import opened Defs
  import opened Simulation
  import opened Tokens

  ghost function TraceLength(t: seq<TraceEntry>): int {
    |t|
  }

  ghost function Indicator(b: bool): int {
    if b then 1 else 0
  }

  ghost function Entries(traces: seq<seq<TraceEntry>>): (n: nat) {
    SumNonneg(traces, TraceLength);
    SumBy(traces, TraceLength)
  }

  ghost function CountTrue(b: seq<bool>): (n: nat) {
    SumNonneg(b, Indicator);
    SumBy(b, Indicator)
  }

  /** An upper bound on the number of events still to be fired. */
  ghost function Weight(s: Sim): nat {
    5 * Entries(s.traces) + |s.events| + (if s.busy then 1 else 0) + CountTrue(s.blocked) + 3 * |s.queue|
  }

  /** The condition under which the run loop stops. */
  ghost predicate Finished(s: Sim) {
    && (forall c :: 0 <= c < |s.exhausted| ==> s.exhausted[c])
    && (forall c :: 0 <= c < |s.blocked| ==> !s.blocked[c])
    && !s.busy && s.queue == []
  }

  lemma NoneTrue(b: seq<bool>)
    requires forall i :: 0 <= i < |b| ==> !b[i]
    ensures CountTrue(b) == 0
  {
    if b != [] {
      NoneTrue(b[..|b| - 1]);
    }
  }

  /** A run over traces of E entries on n cores starts with weight 5 E + n. */
  lemma StartWeight(cfg: Config, traces: seq<seq<TraceEntry>>)
    requires cfg.Valid() && |traces| == cfg.cores
    ensures Weight(Start(cfg, traces)) == 5 * Entries(traces) + cfg.cores
  {
    NoneTrue(Start(cfg, traces).blocked);
  }

  lemma GrantWeight(cfg: Config, s: Sim, e: Event, w: nat, tok: seq<CoreToken>, bus: BusToken)
    requires TokenInv(cfg, s, tok, bus) && Enabled(s, e) && e.Arbitrate?
    requires !s.busy && w < |s.queue| && !GrantFaults(cfg, s, w)
    ensures Weight(Grant(cfg, s, e, w)) == Weight(s) - 1
  {
    GrantShape(cfg, s, e, w);
    var s', end := Grant(cfg, s, e, w), e.time + GrantLatency(cfg, s, w);
    assert |s.events - multiset{e}| == |s.events| - 1;
  }

  lemma FetchWeight(cfg: Config, s: Sim, e: Event, tok: seq<CoreToken>, bus: BusToken)
    requires TokenInv(cfg, s, tok, bus) && Enabled(s, e) && e.Fetch?
    ensures Weight(FireFetch(cfg, s, e)) < Weight(s)
  {
    assert |s.events - multiset{e}| == |s.events| - 1;
    assert EventOk(s, tok, bus, e) && CoreOk(s, e.core, tok[e.core]);
    if s.traces[e.core] != [] {
      FetchShape(cfg, s, e);
      SumUpdate(s.traces, TraceLength, e.core, s.traces[e.core][1..]);
      SumUpdate(s.blocked, Indicator, e.core, true);
    }
  }

  /** Every step lowers the weight. */
  lemma StepWeight(cfg: Config, s: Sim, e: Event, tok: seq<CoreToken>, bus: BusToken)
    requires TokenInv(cfg, s, tok, bus) && Enabled(s, e) && Step(cfg, s, e).Some?
    ensures Weight(Step(cfg, s, e).value) < Weight(s)
  {
    assert |s.events - multiset{e}| == |s.events| - 1;
    assert EventOk(s, tok, bus, e);
    match e
    case Release(_) =>
    case Arbitrate(_) =>
      if !s.busy && s.queue != [] {
        GrantWeight(cfg, s, e, Winner(cfg.readPriority, s.queue), tok, bus);
      }
    case Unblock(_, c) =>
      assert CoreOk(s, c, tok[c]);
      SumUpdate(s.blocked, Indicator, c, false);
    case Fetch(_, _) =>
      FetchWeight(cfg, s, e, tok, bus);
  }

  /** The heap is empty only in a finished state. */
  lemma EmptyHeapFinished(cfg: Config, s: Sim, tok: seq<CoreToken>, bus: BusToken)
    requires TokenInv(cfg, s, tok, bus) && s.events == multiset{}
    ensures Finished(s)
  {
    forall c: nat | c < |tok|
      ensures tok[c] == Done && s.exhausted[c] && !s.blocked[c]
    {
      assert CoreOk(s, c, tok[c]);
    }
  }

  /** The clock never passes over an idle bus with waiting requests, and never goes back. */
  lemma ClockWaitsForBus(cfg: Config, s: Sim, e: Event, tok: seq<CoreToken>, bus: BusToken)
    requires TokenInv(cfg, s, tok, bus) && Enabled(s, e)
    ensures s.now <= e.time
    ensures !s.busy && s.queue != [] ==> e.time == s.now && Priority(e) <= Priority(Arbitrate(s.now))
  {
    assert EventOk(s, tok, bus, e);
  }

  /** A non-empty heap has an event that no other precedes. */
  lemma {:induction false} SomeEnabled(ev: multiset<Event>) returns (e: Event)
    requires |ev| > 0
    ensures e in ev && forall f :: f in ev ==> !Earlier(f, e)
    decreases |ev|
  {
    e :| e in ev;
    var rest := ev - multiset{e};
    assert |rest| == |ev| - 1;
    assert ev == rest + multiset{e};
    if |rest| == 0 {
      assert rest == multiset{};
    } else {
      var m := SomeEnabled(rest);
      if !Earlier(e, m) {
        forall f | f in ev
          ensures !Earlier(f, m)
        {
          assert f == e || f in rest;
        }
        e := m;
      } else {
        forall f | f in ev
          ensures !Earlier(f, e)
        {
          assert f == e || f in rest;
        }
      }
    }
  }
}
