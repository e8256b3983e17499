/**
 The simulator as an object: its event heap, bus, cores and traces, and the run loop.
 Every event it executes is a step of `Simulation`, so its run is a run in the sense
 of `Runs`, and all that is proved there holds of it.
 */
module SimulatorObject {
  import opened Defs
  import opened Protocols
  import opened ProtocolObject
  import opened Simulation
  import opened Progress
  import opened Runs
  import opened RunTables

  class Simulator {
    const cfg: Config
    const protocol: CoherenceProtocol
    var now: nat
    var events: multiset<Event>
    var busQueue: seq<BusRequest>
    var busBusy: bool
    var blocked: seq<bool>
    var exhausted: seq<bool>
    var traces: seq<seq<TraceEntry>>

    ghost function State(): Sim
      reads this, protocol
    {
      Sim(now, events, busQueue, busBusy, blocked, exhausted, traces, protocol.Value())
    }

    ghost predicate Valid()
      reads protocol, protocol.Footprint()
    {
      protocol.cfg == cfg && protocol.Valid()
    }

    constructor (cfg: Config, traces: seq<seq<TraceEntry>>)
      requires cfg.Valid() && |traces| == cfg.cores
      ensures Valid() && this.cfg == cfg && fresh(protocol) && fresh(protocol.Footprint())
      ensures State() == Start(cfg, traces).(events := multiset{})
    {
      this.cfg := cfg;
      protocol := new CoherenceProtocol(cfg);
      now := 0;
      events := multiset{};
      busQueue := [];
      busBusy := false;
      blocked := seq(cfg.cores, _ => false);
      exhausted := seq(cfg.cores, _ => false);
      this.traces := traces;
    }

    method Schedule(e: Event)
      modifies this`events
      ensures events == old(events) + multiset{e}
    {
      events := events + multiset{e};
    }

    /** The bus is free again; if anyone is waiting, arbitrate now. */
    method ExecuteRelease(e: Event, ghost s: Sim)
      requires Valid() && e.Release? && State() == Pop(s, e)
      modifies this
      ensures Valid() && State() == FireRelease(s, e)
    {
      busBusy := false;
      if busQueue != [] {
        Schedule(Arbitrate(e.time));
      }
    }

    /** std::min_element over the queue. */
    method PickRequest() returns (w: nat)
      requires |busQueue| > 0
      ensures w < |busQueue| && w == Winner(cfg.readPriority, busQueue)
    {
      w := 0;
      var i := 1;
      assert busQueue[..1] == [busQueue[0]];
      while i < |busQueue|
        invariant 1 <= i <= |busQueue| && w < i
        invariant w == Winner(cfg.readPriority, busQueue[..i])
      {
        assert busQueue[..i + 1][..i] == busQueue[..i];
        if Wins(cfg.readPriority, busQueue[i], busQueue[w]) {
          w := i;
        }
        i := i + 1;
      }
      assert busQueue[..i] == busQueue;
    }

    /** Grant the free bus to the best waiting request. */
    method ExecuteArbitrate(e: Event, ghost s: Sim)
      requires Valid() && e.Arbitrate? && WellFormed(cfg, s) && State() == Pop(s, e)
      requires FireArbitrate(cfg, s, e).Some?
      modifies this, protocol, protocol.Footprint()
      ensures Valid() && Some(State()) == FireArbitrate(cfg, s, e)
    {
      if !busBusy && busQueue != [] {
        var w := PickRequest();
        GrantBus(w, e, s);
      }
    }

    method GrantBus(w: nat, e: Event, ghost s: Sim)
      requires Valid() && WellFormed(cfg, s) && State() == Pop(s, e)
      requires w < |s.queue| && !GrantFaults(cfg, s, w)
      modifies this, protocol, protocol.Footprint()
      ensures Valid() && State() == Grant(cfg, s, e, w)
    {
      var r, latency := Serve(w, s);
      GrantedIs(cfg, s, e, w, State());
      ScheduleEnd(r, e.time + latency, Grant(cfg, s, e, w));
    }

    /** The transaction of the request taken off the queue. */
    method Serve(w: nat, ghost s: Sim) returns (r: BusRequest, latency: nat)
      requires Valid() && WellFormed(cfg, s) && busQueue == s.queue && protocol.Value() == s.sys
      requires w < |s.queue| && !GrantFaults(cfg, s, w)
      modifies this`busQueue, this`busBusy, protocol, protocol.Footprint()
      ensures Valid() && r == s.queue[w] && latency == GrantLatency(cfg, s, w)
      ensures State() == old(State()).(busy := true, queue := s.queue[..w] + s.queue[w + 1..],
                                       sys := GrantSystem(cfg, s, w))
    {
      r := Dequeue(w);
      latency := Transact(r, s, w);
    }

    method Transact(r: BusRequest, ghost s: Sim, ghost w: nat) returns (latency: nat)
      requires Valid() && WellFormed(cfg, s) && protocol.Value() == s.sys
      requires w < |s.queue| && r == s.queue[w] && !GrantFaults(cfg, s, w)
      modifies protocol, protocol.Footprint()
      ensures Valid() && protocol.Value() == GrantSystem(cfg, s, w) && unchanged(this)
      ensures latency == GrantLatency(cfg, s, w)
    {
      latency := protocol.HandleBusTransaction(r.core, r.op, r.addr);
    }

    /** Take a request off the queue and occupy the bus. */
    method Dequeue(w: nat) returns (r: BusRequest)
      requires w < |busQueue|
      modifies this`busQueue, this`busBusy
      ensures r == old(busQueue)[w] && busBusy
      ensures busQueue == old(busQueue)[..w] + old(busQueue)[w + 1..]
    {
      r := busQueue[w];
      busQueue := busQueue[..w] + busQueue[w + 1..];
      busBusy := true;
    }

    method ScheduleEnd(r: BusRequest, end: nat, ghost target: Sim)
      requires Valid() && AddEnd(State(), r, end) == target
      modifies this`events
      ensures Valid() && State() == target
    {
      Schedule(Release(end));
      if r.op != Writeback {
        Schedule(Unblock(end, r.core));
      }
    }

    method ExecuteUnblock(e: Event, ghost s: Sim)
      requires Valid() && e.Unblock? && WellFormed(cfg, s) && e in s.events && State() == Pop(s, e)
      modifies this
      ensures Valid() && State() == FireUnblock(cfg, s, e)
    {
      blocked := blocked[e.core := false];
      Schedule(Fetch(e.time, e.core));
    }

    /** Consume the next trace entry of a core that is not blocked. */
    method ExecuteFetch(e: Event, ghost s: Sim)
      requires Valid() && e.Fetch? && WellFormed(cfg, s) && e in s.events && State() == Pop(s, e)
      modifies this, protocol, protocol.Footprint()
      ensures Valid() && State() == FireFetch(cfg, s, e)
    {
      var c := e.core;
      if blocked[c] {
        return;
      }
      if traces[c] == [] {
        exhausted := exhausted[c := true];
        return;
      }
      var entry := traces[c][0];
      traces := traces[c := traces[c][1..]];
      if entry.kind == 2 {
        Compute(e, entry.val);
      } else {
        AccessMemory(e, entry.val, entry.kind == 1);
      }
    }

    method Compute(e: Event, cycles: nat)
      requires Valid() && e.Fetch? && e.core < cfg.cores
      modifies this, protocol, protocol.Footprint()
      ensures Valid() && State() == FetchCompute(old(State()), e, cycles)
    {
      var c := e.core;
      var cs := protocol.coreStats[c];
      protocol.StoreStats(c, cs.(computeCycles := cs.computeCycles + cycles));
      Schedule(Fetch(e.time + cycles, c));
    }

    method AccessMemory(e: Event, addr: Uint32, isWrite: bool)
      requires Valid() && e.Fetch? && e.core < cfg.cores && |blocked| == cfg.cores
      modifies this, protocol, protocol.Footprint()
      ensures Valid() && State() == FetchMemory(cfg, old(State()), e, addr, isWrite)
    {
      var c := e.core;
      ghost var s := State();
      var op := IssueRequest(c, addr, isWrite);
      ghost var sys := protocol.Value();
      if op == NoOp {
        CountHit(e);
      } else {
        QueueMiss(e, op, addr);
      }
      AccessIs(cfg, s, e, addr, isWrite, sys, State());
    }

    method CountHit(e: Event)
      requires Valid() && e.Fetch? && e.core < cfg.cores
      modifies this, protocol, protocol.Footprint()
      ensures Valid() && State() == Hit(old(State()), e)
    {
      var cs := protocol.coreStats[e.core];
      protocol.StoreStats(e.core, cs.(hits := cs.hits + 1));
      Schedule(Fetch(e.time + 1, e.core));
    }

    method QueueMiss(e: Event, op: BusOp, addr: Uint32)
      requires Valid() && e.Fetch? && e.core < cfg.cores && |blocked| == cfg.cores
      modifies this, protocol, protocol.Footprint()
      ensures Valid() && State() == Miss(old(State()), e, op, addr)
    {
      var cs := protocol.coreStats[e.core];
      protocol.StoreStats(e.core, cs.(misses := cs.misses + 1));
      blocked := blocked[e.core := true];
      Enqueue(BusRequest(e.core, op, addr, e.time));
    }

    /** Queue a request; if the bus is free, arbitrate now. */
    method Enqueue(r: BusRequest)
      modifies this`busQueue, this`events
      ensures busQueue == old(busQueue) + [r]
      ensures events == old(events) + (if busBusy then multiset{} else multiset{Arbitrate(r.arrival)})
    {
      busQueue := busQueue + [r];
      if !busBusy {
        Schedule(Arbitrate(r.arrival));
      }
    }

    /** Count the access and ask the protocol. */
    method IssueRequest(c: nat, addr: Uint32, isWrite: bool) returns (op: BusOp)
      requires Valid() && c < cfg.cores
      modifies protocol, protocol.Footprint()
      ensures Valid()
      ensures op == RequestOp(cfg, old(protocol.caches), c, cfg.SetIndex(addr), cfg.Tag(addr), isWrite)
      ensures var issued := old(protocol.Value()).(cores := old(protocol.coreStats)[c :=
                CountIssue(old(protocol.coreStats)[c], isWrite)]);
              && Shaped(cfg, issued.caches) && |issued.cores| == cfg.cores
              && protocol.Value() == ProcessorRequest(cfg, issued, c, addr, isWrite)
    {
      var cs := protocol.coreStats[c];
      protocol.StoreStats(c, if isWrite then cs.(stores := cs.stores + 1) else cs.(loads := cs.loads + 1));
      op := protocol.HandleProcessorRequest(c, addr, isWrite);
    }

    /** Take an event that no other precedes off the heap, move the clock to it, and execute it. */
    method ProcessNext() returns (e: Event)
      requires Valid() && |events| > 0 && Inv(cfg, State())
      modifies this, protocol, protocol.Footprint()
      ensures Valid() && IsStep(cfg, old(State()), e, State())
    {
      ghost var s := State();
      e := Earliest();
      StepDefined(cfg, s, e);
      events := events - multiset{e};
      now := e.time;
      Execute(e, s);
    }

    method Execute(e: Event, ghost s: Sim)
      requires Valid() && WellFormed(cfg, s) && e in s.events && State() == Pop(s, e) && Step(cfg, s, e).Some?
      modifies this, protocol, protocol.Footprint()
      ensures Valid() && Step(cfg, s, e) == Some(State())
    {
      match e
      case Release(_) => ExecuteRelease(e, s);
      case Arbitrate(_) => ExecuteArbitrate(e, s);
      case Unblock(_, _) => ExecuteUnblock(e, s);
      case Fetch(_, _) => ExecuteFetch(e, s);
    }

    /** The top of the heap: any of the least events. */
    method Earliest() returns (e: Event)
      requires |events| > 0
      ensures Enabled(State(), e)
    {
      ghost var least := SomeEnabled(events);
      e :| e in events && forall f :: f in events ==> !Earlier(f, e);
    }

    method ScheduleFetches()
      requires events == multiset{}
      modifies this`events
      ensures events == StartEvents(cfg.cores)
    {
      var i := 0;
      while i < cfg.cores
        invariant i <= cfg.cores && events == StartEvents(i)
      {
        Schedule(Fetch(0, i));
        i := i + 1;
      }
    }

    method IsFinished() returns (finished: bool)
      ensures finished == Finished(State())
    {
      var done := forall c :: 0 <= c < |exhausted| ==> exhausted[c];
      var idle := forall c :: 0 <= c < |blocked| ==> !blocked[c];
      finished := done && idle && !busBusy && busQueue == [];
    }

    /** The run loop.  It stops -- after at most five events per trace entry and one per core -- with
        every trace exhausted, no core blocked and the bus idle; `states` and `fired` are its run. */
    method Run(ghost initial: seq<seq<TraceEntry>>)
      returns (count: nat, ghost states: seq<Sim>, ghost fired: seq<Event>)
      requires Valid() && cfg.Valid() && |initial| == cfg.cores
      requires State() == Start(cfg, initial).(events := multiset{})
      modifies this, protocol, protocol.Footprint()
      ensures Valid() && |exhausted| == |blocked| == |traces| == |protocol.coreStats| == cfg.cores
      ensures !busBusy && busQueue == []
      ensures forall c :: 0 <= c < cfg.cores ==>
                exhausted[c] && !blocked[c] && traces[c] == [] && Executed(initial[c], protocol.coreStats[c])
      ensures IsRun(cfg, initial, states, fired) && states[|fired|] == State()
      ensures count == |fired| <= 5 * Entries(initial) + cfg.cores
    {
      ScheduleFetches();
      states, fired, count := [State()], [], 0;
      var stop := false;
      while |events| > 0 && !stop
        invariant Valid() && RunTo(cfg, initial, states, fired, State()) && count == |fired|
        invariant stop ==> Finished(State())
        decreases Weight(State())
      {
        states, fired := NextOfRun(initial, states, fired);
        count := count + 1;
        stop := IsFinished();
      }
      RunEnd(cfg, initial, states, fired, State());
      AllExecuted(cfg, initial, states, fired, State());
    }

    /** One turn of the run loop. */
    method NextOfRun(ghost initial: seq<seq<TraceEntry>>, ghost states: seq<Sim>, ghost fired: seq<Event>)
      returns (ghost states': seq<Sim>, ghost fired': seq<Event>)
      requires Valid() && |events| > 0 && RunTo(cfg, initial, states, fired, State())
      modifies this, protocol, protocol.Footprint()
      ensures Valid() && RunTo(cfg, initial, states', fired', State()) && |fired'| == |fired| + 1
      ensures Weight(State()) < Weight(old(State()))
    {
      ghost var s := State();
      RunInv(cfg, initial, states, fired, |fired|);
      var e := ProcessNext();
      states', fired' := states + [State()], fired + [e];
      ExtendRun(cfg, initial, states, fired, s, e, State());
    }
  }

  /** The counters of a core that has executed its trace. */
  ghost predicate Executed(trace: seq<TraceEntry>, cs: CoreStats) {
    && cs.loads == SumBy(trace, IsLoad) && cs.stores == SumBy(trace, IsStore)
    && cs.computeCycles == SumBy(trace, CyclesOf)
    && cs.hits + cs.misses == cs.loads + cs.stores
  }

  /** A finished run has executed every trace. */
  lemma AllExecuted(cfg: Config, traces: seq<seq<TraceEntry>>, states: seq<Sim>, fired: seq<Event>, s: Sim)
    requires RunTo(cfg, traces, states, fired, s) && Finished(s)
    ensures |s.exhausted| == |s.blocked| == |s.traces| == |s.sys.cores| == cfg.cores
    ensures !s.busy && s.queue == []
    ensures forall c :: 0 <= c < cfg.cores ==>
              s.exhausted[c] && !s.blocked[c] && s.traces[c] == [] && Executed(traces[c], s.sys.cores[c])
  {
    EndShaped(cfg, traces, states, fired);
    CountersConserved(cfg, traces, states, fired, |fired|);
    forall c: nat | c < cfg.cores
      ensures s.exhausted[c] && !s.blocked[c] && s.traces[c] == [] && Executed(traces[c], s.sys.cores[c])
    {
      var m := TraceCounted(cfg, traces, states, fired, |fired|, c);
      assert traces[c][..m] == traces[c];
    }
  }

  lemma EndShaped(cfg: Config, traces: seq<seq<TraceEntry>>, states: seq<Sim>, fired: seq<Event>)
    requires IsRun(cfg, traces, states, fired)
    ensures WellFormed(cfg, states[|fired|])
  {
    RunInv(cfg, traces, states, fired, |fired|);
  }

  /** The events `fired` lead through `states` from the start to `s`. */
  ghost predicate RunTo(cfg: Config, traces: seq<seq<TraceEntry>>, states: seq<Sim>, fired: seq<Event>, s: Sim) {
    IsRun(cfg, traces, states, fired) && states[|fired|] == s
  }

  lemma RunEnd(cfg: Config, traces: seq<seq<TraceEntry>>, states: seq<Sim>, fired: seq<Event>, s: Sim)
    requires RunTo(cfg, traces, states, fired, s)
    ensures |fired| <= 5 * Entries(traces) + cfg.cores
    ensures |s.events| == 0 ==> Finished(s)
  {
    RunTerminates(cfg, traces, states, fired);
    RunNeverStuck(cfg, traces, states, fired, |fired|);
  }

  lemma StepDefined(cfg: Config, s: Sim, e: Event)
    requires Inv(cfg, s) && Enabled(s, e)
    ensures WellFormed(cfg, s) && Step(cfg, s, e).Some?
  {
    StepInv(cfg, s, e);
  }

  lemma ExtendRun(cfg: Config, traces: seq<seq<TraceEntry>>, states: seq<Sim>, fired: seq<Event>, s: Sim, e: Event,
                  s': Sim)
    requires RunTo(cfg, traces, states, fired, s) && IsStep(cfg, s, e, s') && Inv(cfg, s)
    ensures RunTo(cfg, traces, states + [s'], fired + [e], s')
    ensures Weight(s') < Weight(s)
  {
    StepInv(cfg, s, e);
    RunLonger(cfg, traces, states, fired, e, s');
  }

  lemma RunLonger(cfg: Config, traces: seq<seq<TraceEntry>>, states: seq<Sim>, fired: seq<Event>, e: Event, s': Sim)
    requires IsRun(cfg, traces, states, fired) && IsStep(cfg, states[|fired|], e, s')
    ensures RunTo(cfg, traces, states + [s'], fired + [e], s')
  {
    var states', fired' := states + [s'], fired + [e];
    forall j: nat | j < |fired'|
      ensures StepAt(cfg, states', fired', j)
    {
      if j < |fired| {
        assert StepAt(cfg, states, fired, j);
      }
    }
  }

  /** A hit schedules the next fetch one cycle later. */
  ghost function Hit(s: Sim, e: Event): Sim
    requires e.Fetch? && e.core < |s.sys.cores|
  {
    var cs := s.sys.cores[e.core];
    s.(sys := s.sys.(cores := s.sys.cores[e.core := cs.(hits := cs.hits + 1)]),
       events := s.events + multiset{Fetch(e.time + 1, e.core)})
  }

  /** A miss blocks the core and queues its request. */
  ghost function Miss(s: Sim, e: Event, op: BusOp, addr: Uint32): Sim
    requires e.Fetch? && e.core < |s.sys.cores| && e.core < |s.blocked|
  {
    var cs := s.sys.cores[e.core];
    s.(sys := s.sys.(cores := s.sys.cores[e.core := cs.(misses := cs.misses + 1)]),
       blocked := s.blocked[e.core := true],
       queue := s.queue + [BusRequest(e.core, op, addr, e.time)],
       events := s.events + (if s.busy then multiset{} else multiset{Arbitrate(e.time)}))
  }

  lemma AccessIs(cfg: Config, s: Sim, e: Event, addr: Uint32, isWrite: bool, sys: System, s': Sim)
    requires e.Fetch? && e.core < cfg.cores && |s.blocked| == cfg.cores
    requires Shaped(cfg, s.sys.caches) && |s.sys.cores| == cfg.cores && |sys.cores| == cfg.cores
    requires sys == ProcessorRequest(cfg,
                                     s.sys.(cores := s.sys.cores[e.core := CountIssue(s.sys.cores[e.core], isWrite)]),
                                     e.core, addr, isWrite)
    requires var op := RequestOp(cfg, s.sys.caches, e.core, cfg.SetIndex(addr), cfg.Tag(addr), isWrite);
             s' == if op == NoOp then Hit(s.(sys := sys), e) else Miss(s.(sys := sys), e, op, addr)
    ensures s' == FetchMemory(cfg, s, e, addr, isWrite)
  {
  }

  /** The end of the transaction of `r` is scheduled. */
  ghost function AddEnd(s: Sim, r: BusRequest, end: nat): Sim {
    s.(events := s.events + multiset{Release(end)}
                 + (if r.op == Writeback then multiset{} else multiset{Unblock(end, r.core)}))
  }

  lemma GrantedIs(cfg: Config, s: Sim, e: Event, w: nat, served: Sim)
    requires WellFormed(cfg, s) && w < |s.queue| && !GrantFaults(cfg, s, w)
    requires served == Pop(s, e).(busy := true, queue := s.queue[..w] + s.queue[w + 1..],
                                  sys := GrantSystem(cfg, s, w))
    ensures AddEnd(served, s.queue[w], e.time + GrantLatency(cfg, s, w)) == Grant(cfg, s, e, w)
  {
    EndAdded(s, e, w, GrantLatency(cfg, s, w), GrantSystem(cfg, s, w));
  }

  lemma EndAdded(s: Sim, e: Event, w: nat, latency: nat, sys: System)
    requires w < |s.queue|
    ensures AddEnd(Pop(s, e).(busy := true, queue := s.queue[..w] + s.queue[w + 1..], sys := sys), s.queue[w],
                   e.time + latency)
            == Granted(s, e, w, latency, sys)
  {
  }
}
