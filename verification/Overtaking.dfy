/**
 Runs built step by step in which a request waits: how many grants have passed it,
 and the single steps that such runs are made of.
 */
module Overtaking {
  import opened Defs
  import opened CacheSets
  import opened Protocols
  import opened Simulation
  import opened Fairness
  import opened Witness

  /** `w` has been waiting for `n` grants of some run that ends in `s`, all made after its arrival. */
  ghost predicate Passed(cfg: Config, traces: seq<seq<TraceEntry>>, s: Sim, w: BusRequest, n: nat) {
    forall z {:trigger Same(s, z)} :: Same(s, z) ==> PassedTo(cfg, traces, z, w, n)
  }

  ghost predicate PassedTo(cfg: Config, traces: seq<seq<TraceEntry>>, s: Sim, w: BusRequest, n: nat) {
    exists states: seq<Sim>, fired: seq<Event>, m: nat ::
      IsRun(cfg, traces, states, fired) && states[|fired|] == s && WaitsFrom(states, m, w, n)
  }

  ghost predicate WaitsFrom(states: seq<Sim>, m: nat, w: BusRequest, n: nat) {
    && m < |states| && (forall j :: m <= j < |states| ==> w in states[j].queue)
    && Grants(states, m, |states| - 1) == n && (n > 0 ==> w.arrival < states[m].now)
  }

  lemma PassStart(cfg: Config, traces: seq<seq<TraceEntry>>, s: Sim, w: BusRequest)
    requires Reachable(cfg, traces, s) && w in s.queue
    ensures Passed(cfg, traces, s, w, 0)
  {
    var states, fired := PathTo(cfg, traces, s);
    assert WaitsFrom(states, |fired|, w, 0);
  }

  lemma PassStep(cfg: Config, traces: seq<seq<TraceEntry>>, s: Sim, e: Event, s': Sim, w: BusRequest, n: nat)
    requires Passed(cfg, traces, s, w, n) && IsStep(cfg, s, e, s') && w in s'.queue
    requires IsGrant(s, s') ==> w.arrival < s.now
    ensures Passed(cfg, traces, s', w, n + if IsGrant(s, s') then 1 else 0)
  {
    assert Same(s, s);
    PassStepTo(cfg, traces, s, e, s', w, n);
  }

  lemma PassStepTo(cfg: Config, traces: seq<seq<TraceEntry>>, s: Sim, e: Event, s': Sim, w: BusRequest, n: nat)
    requires PassedTo(cfg, traces, s, w, n) && IsStep(cfg, s, e, s') && w in s'.queue
    requires IsGrant(s, s') ==> w.arrival < s.now
    ensures PassedTo(cfg, traces, s', w, n + if IsGrant(s, s') then 1 else 0)
  {
    var states: seq<Sim>, fired: seq<Event>, m: nat :|
      IsRun(cfg, traces, states, fired) && states[|fired|] == s && WaitsFrom(states, m, w, n);
    PassMore(cfg, traces, states, fired, m, s, e, s', w, n);
  }

  lemma PassMore(cfg: Config, traces: seq<seq<TraceEntry>>, states: seq<Sim>, fired: seq<Event>, m: nat,
                 s: Sim, e: Event, s': Sim, w: BusRequest, n: nat)
    requires IsRun(cfg, traces, states, fired) && states[|fired|] == s && WaitsFrom(states, m, w, n)
    requires IsStep(cfg, s, e, s') && w in s'.queue && (IsGrant(s, s') ==> w.arrival < s.now)
    ensures PassedTo(cfg, traces, s', w, n + if IsGrant(s, s') then 1 else 0)
  {
    Extend(cfg, traces, states, fired, e, s');
    var from := WaitsOn(states, s', m, w, n);
    PassEnd(cfg, traces, states + [s'], fired + [e], from, w, n + if IsGrant(s, s') then 1 else 0);
  }

  lemma PassEnd(cfg: Config, traces: seq<seq<TraceEntry>>, states: seq<Sim>, fired: seq<Event>,
                m: nat, w: BusRequest, n: nat)
    requires IsRun(cfg, traces, states, fired) && WaitsFrom(states, m, w, n)
    ensures PassedTo(cfg, traces, states[|fired|], w, n)
  {
  }

  lemma WaitsOn(states: seq<Sim>, s: Sim, m: nat, w: BusRequest, n: nat) returns (from: nat)
    requires WaitsFrom(states, m, w, n) && w in s.queue
    requires IsGrant(states[|states| - 1], s) ==> w.arrival < states[|states| - 1].now
    ensures WaitsFrom(states + [s], from, w, n + if IsGrant(states[|states| - 1], s) then 1 else 0)
  {
    from := if n == 0 then |states| - 1 else m;
    GrantsPrefix(states, s, from, |states| - 1);
  }

  lemma {:induction false} GrantsPrefix(states: seq<Sim>, s: Sim, m: nat, n: nat)
    requires m <= n < |states|
    ensures Grants(states + [s], m, n) == Grants(states, m, n)
  {
    if m < n {
      GrantsPrefix(states, s, m, n - 1);
    }
  }

  lemma FetchIsStep(cfg: Config, s: Sim, e: Event)
    requires WellFormed(cfg, s) && Enabled(s, e) && e.Fetch?
    ensures IsStep(cfg, s, e, FireFetch(cfg, s, e)) && WellFormed(cfg, FireFetch(cfg, s, e))
  {
    StepWellFormed(cfg, s, e);
  }

  lemma ReadTakesTime(cfg: Config, s: Sim, w: nat)
    requires WellFormed(cfg, s) && w < |s.queue| && s.queue[w].op == BusRd && !GrantFaults(cfg, s, w)
    ensures GrantLatency(cfg, s, w) > 0
  {
  }

  /** Request `i` of the queue, a read, is granted the bus until `u`. */
  ghost predicate ReadGranted(s: Sim, t: nat, i: nat, s': Sim, u: nat) {
    && i < |s.queue| && u > t && s'.now == t && s'.busy && s'.queue == s.queue[..i] + s.queue[i + 1..]
    && s'.blocked == s.blocked && s'.traces == s.traces
    && s'.events == s.events - multiset{Arbitrate(t)} + multiset{Release(u)} + multiset{Unblock(u, s.queue[i].core)}
  }

  lemma ReleaseTwo(cfg: Config, s: Sim, t: nat, c: nat) returns (s': Sim)
    requires WellFormed(cfg, s) && s.queue != [] && s.events == multiset{Release(t), Unblock(t, c)}
    ensures IsStep(cfg, s, Release(t), s') && WellFormed(cfg, s')
    ensures s' == s.(now := t, busy := false, events := multiset{Unblock(t, c), Arbitrate(t)})
  {
    s' := FireRelease(s, Release(t));
    StepWellFormed(cfg, s, Release(t));
    assert s.events - multiset{Release(t)} == multiset{Unblock(t, c)};
  }

  lemma PassedRun(cfg: Config, traces: seq<seq<TraceEntry>>, s: Sim, w: BusRequest, n: nat)
    returns (states: seq<Sim>, fired: seq<Event>, m: nat)
    requires Passed(cfg, traces, s, w, n)
    ensures IsRun(cfg, traces, states, fired) && WaitsFrom(states, m, w, n)
  {
    assert Same(s, s);
    states, fired, m :| IsRun(cfg, traces, states, fired) && states[|fired|] == s && WaitsFrom(states, m, w, n);
  }

  lemma StartSet(cfg: Config, traces: seq<seq<TraceEntry>>, i: nat, k: nat)
    requires i < cfg.cores && k < cfg.NumSets()
    ensures var c := Start(cfg, traces).sys.caches; At(c, i, k) && c[i][k] == EMPTY
  {
  }
}
