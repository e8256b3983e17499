/**
 The discrete-event simulator as a transition system on values.  A step fires one
 pending event that no other pending event precedes; among events with equal time
 and priority the heap may return any.
 */
module Simulation {
  import opened Defs
  import opened CacheSets
  import opened Protocols

  datatype BusRequest = BusRequest(core: nat, op: BusOp, addr: Uint32, arrival: nat)

  datatype TraceEntry = TraceEntry(kind: int, val: Uint32)

  datatype Event =
    | Release(time: nat)
    | Arbitrate(time: nat)
    | Unblock(time: nat, core: nat)
    | Fetch(time: nat, core: nat)

  function Priority(e: Event): nat {
    match e
    case Release(_) => 0
    case Arbitrate(_) => 1
    case Unblock(_, _) => 2
    case Fetch(_, _) => 3
  }

  predicate Earlier(a: Event, b: Event) {
    if a.time != b.time then a.time < b.time else Priority(a) < Priority(b)
  }

  datatype Sim = Sim(
    now: nat, events: multiset<Event>, queue: seq<BusRequest>, busy: bool,
    blocked: seq<bool>, exhausted: seq<bool>, traces: seq<seq<TraceEntry>>, sys: System)

  ghost predicate WellFormed(cfg: Config, s: Sim) {
    && |s.blocked| == |s.exhausted| == |s.traces| == |s.sys.cores| == cfg.cores
    && Shaped(cfg, s.sys.caches)
    && (forall i :: 0 <= i < |s.queue| ==> s.queue[i].core < cfg.cores)
    && (forall e :: e in s.events && (e.Unblock? || e.Fetch?) ==> e.core < cfg.cores)
  }

  // ----- arbitration order -----

  /** The comparator of the arbiter: reads first if so configured, then arrival, then core number. */
  predicate Wins(readPriority: bool, a: BusRequest, b: BusRequest) {
    if readPriority && (a.op == BusRd) != (b.op == BusRd) then a.op == BusRd
    else if a.arrival != b.arrival then a.arrival < b.arrival
    else a.core < b.core
  }

  /** std::min_element: the first of the least requests. */
  function Winner(readPriority: bool, q: seq<BusRequest>): (w: nat)
    requires |q| > 0
    ensures w < |q|
    ensures forall i :: 0 <= i < |q| ==> !Wins(readPriority, q[i], q[w])
    ensures forall i :: 0 <= i < w ==> Wins(readPriority, q[w], q[i])
  {
    var last := |q| - 1;
    if last == 0 then 0
    else
      var w := Winner(readPriority, q[..last]);
      assert forall i :: 0 <= i < last ==> q[..last][i] == q[i];
      if Wins(readPriority, q[last], q[w]) then last else w
  }

  // ----- the four events -----

  ghost function Pop(s: Sim, e: Event): Sim {
    s.(now := e.time, events := s.events - multiset{e})
  }

  ghost function Schedule(s: Sim, e: Event): Sim {
    s.(events := s.events + multiset{e})
  }

  ghost function FireRelease(s: Sim, e: Event): Sim
    requires e.Release?
  {
    var s1 := Pop(s, e).(busy := false);
    if s.queue == [] then s1 else Schedule(s1, Arbitrate(e.time))
  }

  ghost predicate GrantFaults(cfg: Config, s: Sim, w: nat)
    requires WellFormed(cfg, s) && w < |s.queue|
  {
    var r := s.queue[w];
    BusFaults(cfg, s.sys.caches, r.core, r.op, cfg.SetIndex(r.addr), cfg.Tag(r.addr))
  }

  ghost function GrantLatency(cfg: Config, s: Sim, w: nat): nat
    requires WellFormed(cfg, s) && w < |s.queue| && !GrantFaults(cfg, s, w)
  {
    var r := s.queue[w];
    Latency(cfg, s.sys.caches, r.core, r.op, cfg.SetIndex(r.addr), cfg.Tag(r.addr))
  }

  ghost function GrantSystem(cfg: Config, s: Sim, w: nat): System
    requires WellFormed(cfg, s) && w < |s.queue| && !GrantFaults(cfg, s, w)
  {
    var r := s.queue[w];
    BusTransaction(cfg, s.sys, r.core, r.op, r.addr)
  }

  /** Request `w` leaves the queue and holds the bus for `latency` cycles; `sys` is the system after its transaction. */
  ghost function Granted(s: Sim, e: Event, w: nat, latency: nat, sys: System): Sim
    requires w < |s.queue|
  {
    var r := s.queue[w];
    var end := e.time + latency;
    s.(now := e.time, busy := true,
       queue := s.queue[..w] + s.queue[w + 1..],
       sys := sys,
       events := s.events - multiset{e} + multiset{Release(end)}
                 + (if r.op == Writeback then multiset{} else multiset{Unblock(end, r.core)}))
  }

  /** Grant the bus to request `w` of the queue. */
  ghost function Grant(cfg: Config, s: Sim, e: Event, w: nat): Sim
    requires WellFormed(cfg, s) && w < |s.queue| && !GrantFaults(cfg, s, w)
  {
    Granted(s, e, w, GrantLatency(cfg, s, w), GrantSystem(cfg, s, w))
  }

  /** None: the transaction faulted. */
  ghost function FireArbitrate(cfg: Config, s: Sim, e: Event): Option<Sim>
    requires WellFormed(cfg, s)
  {
    if s.busy || s.queue == [] then Some(Pop(s, e))
    else
      var w := Winner(cfg.readPriority, s.queue);
      if GrantFaults(cfg, s, w) then None else Some(Grant(cfg, s, e, w))
  }

  ghost function FireUnblock(cfg: Config, s: Sim, e: Event): Sim
    requires e.Unblock? && WellFormed(cfg, s) && e in s.events
  {
    Schedule(Pop(s, e).(blocked := s.blocked[e.core := false]), Fetch(e.time, e.core))
  }

  ghost function CountIssue(cs: CoreStats, isWrite: bool): CoreStats {
    if isWrite then cs.(stores := cs.stores + 1) else cs.(loads := cs.loads + 1)
  }

  ghost function FireFetch(cfg: Config, s: Sim, e: Event): Sim
    requires e.Fetch? && WellFormed(cfg, s) && e in s.events
  {
    var s1, c := Pop(s, e), e.core;
    if s.blocked[c] then s1
    else if s.traces[c] == [] then s1.(exhausted := s.exhausted[c := true])
    else
      var entry := s.traces[c][0];
      var s2 := s1.(traces := s.traces[c := s.traces[c][1..]]);
      if entry.kind == 2 then FetchCompute(s2, e, entry.val)
      else FetchMemory(cfg, s2, e, entry.val, entry.kind == 1)
  }

  ghost function FetchCompute(s: Sim, e: Event, cycles: nat): Sim
    requires e.Fetch? && e.core < |s.sys.cores|
  {
    var cs := s.sys.cores[e.core];
    Schedule(s.(sys := s.sys.(cores := s.sys.cores[e.core := cs.(computeCycles := cs.computeCycles + cycles)])),
             Fetch(e.time + cycles, e.core))
  }

  ghost function FetchMemory(cfg: Config, s: Sim, e: Event, addr: Uint32, isWrite: bool): Sim
    requires e.Fetch? && e.core < cfg.cores && |s.blocked| == cfg.cores
    requires Shaped(cfg, s.sys.caches) && |s.sys.cores| == cfg.cores
  {
    var c := e.core;
    var op := RequestOp(cfg, s.sys.caches, c, cfg.SetIndex(addr), cfg.Tag(addr), isWrite);
    var issued := s.sys.(cores := s.sys.cores[c := CountIssue(s.sys.cores[c], isWrite)]);
    var sys := ProcessorRequest(cfg, issued, c, addr, isWrite);
    var cs := sys.cores[c];
    if op == NoOp then
      Schedule(s.(sys := sys.(cores := sys.cores[c := cs.(hits := cs.hits + 1)])), Fetch(e.time + 1, c))
    else
      var s1 := s.(sys := sys.(cores := sys.cores[c := cs.(misses := cs.misses + 1)]),
                   blocked := s.blocked[c := true],
                   queue := s.queue + [BusRequest(c, op, addr, e.time)]);
      if s.busy then s1 else Schedule(s1, Arbitrate(e.time))
  }

  // ----- runs -----

  ghost predicate Enabled(s: Sim, e: Event) {
    e in s.events && forall f :: f in s.events ==> !Earlier(f, e)
  }

  ghost function Step(cfg: Config, s: Sim, e: Event): Option<Sim>
    requires WellFormed(cfg, s) && e in s.events
  {
    match e
    case Release(_) => Some(FireRelease(s, e))
    case Arbitrate(_) => FireArbitrate(cfg, s, e)
    case Unblock(_, _) => Some(FireUnblock(cfg, s, e))
    case Fetch(_, _) => Some(FireFetch(cfg, s, e))
  }

  ghost predicate IsStep(cfg: Config, s: Sim, e: Event, s': Sim) {
    WellFormed(cfg, s) && Enabled(s, e) && Step(cfg, s, e) == Some(s')
  }

  ghost predicate StepAt(cfg: Config, states: seq<Sim>, fired: seq<Event>, j: nat) {
    j < |fired| && j + 1 < |states| && IsStep(cfg, states[j], fired[j], states[j + 1])
  }

  ghost function StartEvents(n: nat): (ev: multiset<Event>)
    ensures |ev| == n
    ensures forall e :: e in ev <==> e.Fetch? && e.time == 0 && e.core < n
    ensures forall c: nat :: c < n ==> ev[Fetch(0, c)] == 1
  {
    if n == 0 then multiset{} else StartEvents(n - 1) + multiset{Fetch(0, n - 1)}
  }

  ghost function Start(cfg: Config, traces: seq<seq<TraceEntry>>): Sim {
    Sim(0, StartEvents(cfg.cores), [], false,
        seq(cfg.cores, _ => false), seq(cfg.cores, _ => false), traces,
        System(seq(cfg.cores, _ => seq(cfg.NumSets(), _ => EMPTY)),
               seq(cfg.cores, _ => ZERO_CORE), ZERO_GLOBAL))
  }

  /** `fired` are the events of a run through `states`, from the start state on the given traces. */
  ghost predicate IsRun(cfg: Config, traces: seq<seq<TraceEntry>>, states: seq<Sim>, fired: seq<Event>) {
    && cfg.Valid() && |traces| == cfg.cores
    && |states| == |fired| + 1
    && states[0] == Start(cfg, traces)
    && (forall j: nat :: j < |fired| ==> StepAt(cfg, states, fired, j))
  }

  lemma StartWellFormed(cfg: Config, traces: seq<seq<TraceEntry>>)
    requires cfg.Valid() && |traces| == cfg.cores
    ensures WellFormed(cfg, Start(cfg, traces))
  {
  }

  lemma GrantWellFormed(cfg: Config, s: Sim, e: Event, w: nat)
    requires WellFormed(cfg, s) && w < |s.queue| && !GrantFaults(cfg, s, w)
    ensures WellFormed(cfg, Grant(cfg, s, e, w))
  {
    var r := s.queue[w];
    BusEffect(cfg, s.sys.caches, r.core, r.op, cfg.SetIndex(r.addr), cfg.Tag(r.addr));
  }

  /** What a grant does outside caches and statistics. */
  lemma GrantShape(cfg: Config, s: Sim, e: Event, w: nat)
    requires WellFormed(cfg, s) && w < |s.queue| && !GrantFaults(cfg, s, w) && s.queue[w].op != Writeback
    ensures var s', end := Grant(cfg, s, e, w), e.time + GrantLatency(cfg, s, w);
            && s'.now == e.time && s'.busy && s'.queue == s.queue[..w] + s.queue[w + 1..]
            && s'.blocked == s.blocked && s'.exhausted == s.exhausted && s'.traces == s.traces
            && s'.events == s.events - multiset{e} + multiset{Release(end)} + multiset{Unblock(end, s.queue[w].core)}
  {
    GrantedShape(s, e, w, GrantLatency(cfg, s, w), GrantSystem(cfg, s, w));
  }

  lemma GrantedShape(s: Sim, e: Event, w: nat, latency: nat, sys: System)
    requires w < |s.queue| && s.queue[w].op != Writeback
    ensures var s', end := Granted(s, e, w, latency, sys), e.time + latency;
            && s'.now == e.time && s'.busy && s'.queue == s.queue[..w] + s.queue[w + 1..]
            && s'.blocked == s.blocked && s'.exhausted == s.exhausted && s'.traces == s.traces
            && s'.events == s.events - multiset{e} + multiset{Release(end)} + multiset{Unblock(end, s.queue[w].core)}
  {
  }

  ghost predicate Refetches(s: Sim, e: Event, s': Sim, t: nat)
    requires e.Fetch?
  {
    && s'.events == s.events - multiset{e} + multiset{Fetch(t, e.core)}
    && s'.queue == s.queue && s'.busy == s.busy && s'.blocked == s.blocked
  }

  ghost predicate Misses(cfg: Config, s: Sim, e: Event, s': Sim)
    requires e.Fetch? && WellFormed(cfg, s) && e.core < cfg.cores && s.traces[e.core] != []
  {
    var entry := s.traces[e.core][0];
    var r := BusRequest(e.core, RequestOp(cfg, s.sys.caches, e.core, cfg.SetIndex(entry.val), cfg.Tag(entry.val),
                                          entry.kind == 1),
                        entry.val, e.time);
    && entry.kind != 2 && r.op != NoOp
    && s'.events == s.events - multiset{e} + (if s.busy then multiset{} else multiset{Arbitrate(e.time)})
    && s'.queue == s.queue + [r] && s'.busy == s.busy && s'.blocked == s.blocked[e.core := true]
  }

  /** What a memory access does outside caches and statistics. */
  lemma MemoryShape(cfg: Config, s: Sim, e: Event, addr: Uint32, isWrite: bool)
    requires WellFormed(cfg, s) && e.Fetch? && e.core < cfg.cores
    ensures var s' := FetchMemory(cfg, s, e, addr, isWrite);
            var op := RequestOp(cfg, s.sys.caches, e.core, cfg.SetIndex(addr), cfg.Tag(addr), isWrite);
            && s'.now == s.now && s'.exhausted == s.exhausted && s'.traces == s.traces && s'.busy == s.busy
            && (op == NoOp ==>
                 s'.queue == s.queue && s'.blocked == s.blocked
                     && s'.events == s.events + multiset{Fetch(e.time + 1, e.core)})
            && (op != NoOp ==>
                 && s'.queue == s.queue + [BusRequest(e.core, op, addr, e.time)]
                 && s'.blocked == s.blocked[e.core := true]
                 && s'.events == s.events + (if s.busy then multiset{} else multiset{Arbitrate(e.time)}))
  {
  }

  /** What a fetch that finds a trace entry does outside caches and statistics. */
  lemma FetchShape(cfg: Config, s: Sim, e: Event)
    requires WellFormed(cfg, s) && e in s.events && e.Fetch? && !s.blocked[e.core] && s.traces[e.core] != []
    ensures var s', entry := FireFetch(cfg, s, e), s.traces[e.core][0];
            && s'.now == e.time && s'.exhausted == s.exhausted
            && s'.traces == s.traces[e.core := s.traces[e.core][1..]]
            && (Misses(cfg, s, e, s') || Refetches(s, e, s', e.time + (if entry.kind == 2 then entry.val else 1)))
  {
    var s', entry := FireFetch(cfg, s, e), s.traces[e.core][0];
    if entry.kind == 2 {
      ComputeFetch(cfg, s, e);
      assert Refetches(s, e, s', e.time + entry.val);
    } else {
      MemoryFetch(cfg, s, e);
      assert Misses(cfg, s, e, s') || Refetches(s, e, s', e.time + 1);
    }
  }

  lemma ComputeFetch(cfg: Config, s: Sim, e: Event)
    requires WellFormed(cfg, s) && e in s.events && e.Fetch? && !s.blocked[e.core]
    requires s.traces[e.core] != [] && s.traces[e.core][0].kind == 2
    ensures var s', entry := FireFetch(cfg, s, e), s.traces[e.core][0];
            && s'.now == e.time && s'.exhausted == s.exhausted
            && s'.traces == s.traces[e.core := s.traces[e.core][1..]]
            && Refetches(s, e, s', e.time + entry.val)
  {
  }

  lemma MemoryFetch(cfg: Config, s: Sim, e: Event)
    requires WellFormed(cfg, s) && e in s.events && e.Fetch? && !s.blocked[e.core]
    requires s.traces[e.core] != [] && s.traces[e.core][0].kind != 2
    ensures var s' := FireFetch(cfg, s, e);
            && s'.now == e.time && s'.exhausted == s.exhausted
            && s'.traces == s.traces[e.core := s.traces[e.core][1..]]
            && (Misses(cfg, s, e, s') || Refetches(s, e, s', e.time + 1))
  {
    var entry := s.traces[e.core][0];
    var s2 := Pop(s, e).(traces := s.traces[e.core := s.traces[e.core][1..]]);
    MemoryShape(cfg, s2, e, entry.val, entry.kind == 1);
  }

  lemma FetchMemoryWellFormed(cfg: Config, s: Sim, e: Event, addr: Uint32, isWrite: bool)
    requires WellFormed(cfg, s) && e.Fetch? && e.core < cfg.cores
    ensures WellFormed(cfg, FetchMemory(cfg, s, e, addr, isWrite))
  {
    RequestEffect(cfg, s.sys.caches, e.core, cfg.SetIndex(addr), cfg.Tag(addr), isWrite);
  }

  lemma StepWellFormed(cfg: Config, s: Sim, e: Event)
    requires WellFormed(cfg, s) && e in s.events && Step(cfg, s, e).Some?
    ensures WellFormed(cfg, Step(cfg, s, e).value)
  {
    if e.Arbitrate? && !s.busy && s.queue != [] {
      GrantWellFormed(cfg, s, e, Winner(cfg.readPriority, s.queue));
    } else if e.Fetch? && !s.blocked[e.core] && s.traces[e.core] != [] {
      var entry := s.traces[e.core][0];
      var s2 := Pop(s, e).(traces := s.traces[e.core := s.traces[e.core][1..]]);
      if entry.kind != 2 {
        FetchMemoryWellFormed(cfg, s2, e, entry.val, entry.kind == 1);
      }
    }
  }
}
