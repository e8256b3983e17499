/**
 The scheduling invariant.  Each core holds one token -- a pending fetch, a queued
 bus request, a pending unblock, or an exhausted trace -- and the bus holds one:
 free, or held until a pending release.
 */
module Tokens {
  import opened Defs
  import opened Simulation

  datatype CoreToken = AtFetch(time: nat) | AtBus(request: BusRequest) | AtUnblock(time: nat) | Done

  datatype BusToken = Free | Held(time: nat, core: nat)

  /** A pending event is due now or later and is accounted for by a token. */
  ghost predicate EventOk(s: Sim, tok: seq<CoreToken>, bus: BusToken, e: Event) {
    && s.now <= e.time
    && match e
       case Release(t) => bus.Held? && bus.time == t
       case Arbitrate(t) => t == s.now
       case Unblock(t, c) => c < |tok| && tok[c] == AtUnblock(t)
       case Fetch(t, c) => c < |tok| && tok[c] == AtFetch(t)
  }

  ghost predicate EventsOk(s: Sim, tok: seq<CoreToken>, bus: BusToken) {
    forall e :: e in s.events ==> EventOk(s, tok, bus, e)
  }

  /** A token has its one event or request, and agrees with the flags of its core. */
  ghost predicate CoreOk(s: Sim, c: nat, token: CoreToken)
    requires c < |s.blocked| && c < |s.exhausted| && c < |s.traces|
  {
    && s.blocked[c] == (token.AtBus? || token.AtUnblock?)
    && s.exhausted[c] == token.Done?
    && match token
       case AtFetch(t) => s.events[Fetch(t, c)] == 1
       case AtBus(r) => r in s.queue && r.core == c
       case AtUnblock(t) => s.events[Unblock(t, c)] == 1
       case Done => s.traces[c] == []
  }

  ghost predicate CoresOk(s: Sim, tok: seq<CoreToken>)
    requires |tok| == |s.blocked| == |s.exhausted| == |s.traces|
  {
    forall c: nat :: c < |tok| ==> CoreOk(s, c, tok[c])
  }

  ghost predicate QueueOk(s: Sim, tok: seq<CoreToken>) {
    && (forall i: nat :: i < |s.queue| ==>
         && s.queue[i].core < |tok| && tok[s.queue[i].core] == AtBus(s.queue[i])
         && s.queue[i].arrival <= s.now
         && s.queue[i].op in {BusRd, BusRdX, BusUpgr})
    && (forall i: nat, j: nat :: i < j < |s.queue| ==> s.queue[i].core != s.queue[j].core)
  }

  /** A held bus has one pending release, with an unblock due at the same time; a free bus
      with waiting requests has an arbitration due now. */
  ghost predicate BusOk(s: Sim, tok: seq<CoreToken>, bus: BusToken) {
    && s.busy == bus.Held?
    && (bus.Held? ==>
         s.events[Release(bus.time)] == 1 && bus.core < |tok| && tok[bus.core] == AtUnblock(bus.time))
    && (!s.busy && s.queue != [] ==> Arbitrate(s.now) in s.events)
  }

  ghost predicate TokenInv(cfg: Config, s: Sim, tok: seq<CoreToken>, bus: BusToken) {
    && WellFormed(cfg, s) && |tok| == cfg.cores
    && EventsOk(s, tok, bus) && CoresOk(s, tok) && QueueOk(s, tok) && BusOk(s, tok, bus)
  }

  lemma StartTokens(cfg: Config, traces: seq<seq<TraceEntry>>) returns (tok: seq<CoreToken>, bus: BusToken)
    requires cfg.Valid() && |traces| == cfg.cores
    ensures TokenInv(cfg, Start(cfg, traces), tok, bus)
  {
    tok, bus := seq(cfg.cores, _ => AtFetch(0)), Free;
    StartWellFormed(cfg, traces);
  }

  lemma ReleaseTokens(cfg: Config, s: Sim, e: Event, tok: seq<CoreToken>, bus: BusToken)
    requires TokenInv(cfg, s, tok, bus) && Enabled(s, e) && e.Release?
    ensures TokenInv(cfg, FireRelease(s, e), tok, Free)
  {
    assert EventOk(s, tok, bus, e);
    var s' := FireRelease(s, e);
    forall f | f in s'.events
      ensures EventOk(s', tok, Free, f)
    {
      if f in s.events {
        assert EventOk(s, tok, bus, f);
      }
    }
    SameCores(s, s', tok);
  }

  lemma SameCores(s: Sim, s': Sim, tok: seq<CoreToken>)
    requires |tok| == |s.blocked| == |s.exhausted| == |s.traces| && CoresOk(s, tok)
    requires s'.blocked == s.blocked && s'.exhausted == s.exhausted && s'.traces == s.traces && s'.queue == s.queue
    requires forall f: Event :: (f.Fetch? || f.Unblock?) && f in s.events ==> s'.events[f] == s.events[f]
    ensures CoresOk(s', tok)
  {
    forall d: nat | d < |tok|
      ensures CoreOk(s', d, tok[d])
    {
      assert CoreOk(s, d, tok[d]);
    }
  }

  lemma IdleArbitrateTokens(cfg: Config, s: Sim, e: Event, tok: seq<CoreToken>, bus: BusToken)
    requires TokenInv(cfg, s, tok, bus) && Enabled(s, e) && e.Arbitrate? && (s.busy || s.queue == [])
    ensures TokenInv(cfg, Pop(s, e), tok, bus)
  {
  }

  lemma UnblockTokens(cfg: Config, s: Sim, e: Event, tok: seq<CoreToken>, bus: BusToken)
    requires TokenInv(cfg, s, tok, bus) && Enabled(s, e) && e.Unblock?
    ensures TokenInv(cfg, FireUnblock(cfg, s, e), tok[e.core := AtFetch(e.time)], bus)
  {
    assert EventOk(s, tok, bus, e) && CoreOk(s, e.core, tok[e.core]);
    UnblockedTokens(cfg, s, FireUnblock(cfg, s, e), e, tok, bus);
  }

  lemma UnblockedTokens(cfg: Config, s: Sim, s': Sim, e: Event, tok: seq<CoreToken>, bus: BusToken)
    requires TokenInv(cfg, s, tok, bus) && Enabled(s, e) && e.Unblock? && tok[e.core] == AtUnblock(e.time)
    requires s.events[e] == 1
    requires s' == s.(now := e.time, blocked := s.blocked[e.core := false],
                      events := s.events - multiset{e} + multiset{Fetch(e.time, e.core)})
    ensures TokenInv(cfg, s', tok[e.core := AtFetch(e.time)], bus)
  {
    var tok' := tok[e.core := AtFetch(e.time)];
    forall f | f in s.events
      ensures EventOk(s, tok, bus, f)
    {
    }
    assert Fetch(e.time, e.core) !in s.events;
    assert bus.Held? ==> bus.core != e.core;
    forall f | f in s'.events
      ensures EventOk(s', tok', bus, f)
    {
    }
    forall d: nat | d < |tok|
      ensures CoreOk(s', d, tok'[d])
    {
      assert CoreOk(s, d, tok[d]);
    }
  }

  lemma GrantTokens(cfg: Config, s: Sim, e: Event, w: nat, tok: seq<CoreToken>, bus: BusToken)
    returns (tok': seq<CoreToken>, bus': BusToken)
    requires TokenInv(cfg, s, tok, bus) && Enabled(s, e) && e.Arbitrate?
    requires !s.busy && w < |s.queue| && !GrantFaults(cfg, s, w)
    ensures TokenInv(cfg, Grant(cfg, s, e, w), tok', bus')
  {
    var c, end := s.queue[w].core, e.time + GrantLatency(cfg, s, w);
    tok', bus' := tok[c := AtUnblock(end)], Held(end, c);
    GrantGives(cfg, s, e, w, end);
    GrantedTokens(cfg, s, Grant(cfg, s, e, w), e, w, end, tok, bus);
  }

  lemma GrantGives(cfg: Config, s: Sim, e: Event, w: nat, end: nat)
    requires WellFormed(cfg, s) && w < |s.queue| && !GrantFaults(cfg, s, w) && s.queue[w].op != Writeback
    requires end == e.time + GrantLatency(cfg, s, w)
    ensures var s' := Grant(cfg, s, e, w);
            && WellFormed(cfg, s') && s'.now == e.time <= end && s'.busy
            && s'.blocked == s.blocked && s'.exhausted == s.exhausted && s'.traces == s.traces
            && s'.queue == s.queue[..w] + s.queue[w + 1..]
            && s'.events == s.events - multiset{e} + multiset{Release(end)} + multiset{Unblock(end, s.queue[w].core)}
  {
    GrantWellFormed(cfg, s, e, w);
    GrantedShape(s, e, w, GrantLatency(cfg, s, w), GrantSystem(cfg, s, w));
  }

  lemma GrantedTokens(cfg: Config, s: Sim, s': Sim, e: Event, w: nat, end: nat, tok: seq<CoreToken>, bus: BusToken)
    requires TokenInv(cfg, s, tok, bus) && Enabled(s, e) && e.Arbitrate? && !s.busy && w < |s.queue|
    requires WellFormed(cfg, s') && s'.now == e.time <= end && s'.busy
    requires s'.blocked == s.blocked && s'.exhausted == s.exhausted && s'.traces == s.traces
    requires s'.queue == s.queue[..w] + s.queue[w + 1..]
    requires s'.events == s.events - multiset{e} + multiset{Release(end)} + multiset{Unblock(end, s.queue[w].core)}
    ensures TokenInv(cfg, s', tok[s.queue[w].core := AtUnblock(end)], Held(end, s.queue[w].core))
  {
    var c := s.queue[w].core;
    GrantQueueTokens(s, s', w, end, tok);
    GrantEventTokens(s, s', e, end, c, tok, bus);
    var tok' := tok[c := AtUnblock(end)];
    forall d: nat | d < |tok|
      ensures CoreOk(s', d, tok'[d])
    {
      assert CoreOk(s, d, tok[d]);
    }
  }

  lemma GrantQueueTokens(s: Sim, s': Sim, w: nat, end: nat, tok: seq<CoreToken>)
    requires QueueOk(s, tok) && w < |s.queue| && s.now <= s'.now
    requires s'.queue == s.queue[..w] + s.queue[w + 1..]
    ensures QueueOk(s', tok[s.queue[w].core := AtUnblock(end)])
    ensures forall r :: r in s.queue && r != s.queue[w] ==> r in s'.queue
  {
    assert forall i: nat :: i < |s'.queue| ==> s'.queue[i] == s.queue[if i < w then i else i + 1];
    forall r | r in s.queue && r != s.queue[w]
      ensures r in s'.queue
    {
      var i :| 0 <= i < |s.queue| && s.queue[i] == r;
      assert s'.queue[if i < w then i else i - 1] == r;
    }
  }

  lemma GrantEventTokens(s: Sim, s': Sim, e: Event, end: nat, c: nat, tok: seq<CoreToken>, bus: BusToken)
    requires EventsOk(s, tok, bus) && Enabled(s, e) && e.Arbitrate? && bus == Free
    requires c < |tok| && tok[c].AtBus? && s'.now == e.time <= end
    requires s'.events == s.events - multiset{e} + multiset{Release(end)} + multiset{Unblock(end, c)}
    ensures EventsOk(s', tok[c := AtUnblock(end)], Held(end, c))
    ensures s'.events[Release(end)] == 1 && s'.events[Unblock(end, c)] == 1
    ensures forall f :: f != e && f in s.events ==> s'.events[f] == s.events[f]
  {
    assert Release(end) !in s.events;
    assert Unblock(end, c) !in s.events;
    forall f | f in s'.events
      ensures EventOk(s', tok[c := AtUnblock(end)], Held(end, c), f)
    {
      if f in s.events {
        assert EventOk(s, tok, bus, f);
      }
    }
  }

  lemma FetchTokens(cfg: Config, s: Sim, e: Event, tok: seq<CoreToken>, bus: BusToken) returns (tok': seq<CoreToken>)
    requires TokenInv(cfg, s, tok, bus) && Enabled(s, e) && e.Fetch?
    ensures TokenInv(cfg, FireFetch(cfg, s, e), tok', bus)
  {
    var c := e.core;
    assert EventOk(s, tok, bus, e) && CoreOk(s, c, tok[c]);
    if s.traces[c] == [] {
      tok' := tok[c := Done];
      ExhaustTokens(cfg, s, e, tok, bus);
    } else {
      tok' := EntryTokens(cfg, s, FireFetch(cfg, s, e), e, tok, bus) by {
        StepWellFormed(cfg, s, e);
        FetchShape(cfg, s, e);
      }
    }
  }

  lemma EntryTokens(cfg: Config, s: Sim, s': Sim, e: Event, tok: seq<CoreToken>, bus: BusToken)
    returns (tok': seq<CoreToken>)
    requires TokenInv(cfg, s, tok, bus) && Enabled(s, e) && e.Fetch? && s.traces[e.core] != [] && WellFormed(cfg, s')
    requires s'.now == e.time && s'.exhausted == s.exhausted && s'.traces == s.traces[e.core := s.traces[e.core][1..]]
    requires Misses(cfg, s, e, s')
             || Refetches(s, e, s', e.time + (if s.traces[e.core][0].kind == 2 then s.traces[e.core][0].val else 1))
    ensures TokenInv(cfg, s', tok', bus)
  {
    var c := e.core;
    if Misses(cfg, s, e, s') {
      var r := s'.queue[|s.queue|];
      tok' := tok[c := AtBus(r)];
      MissTokens(cfg, s, s', e, r, tok, bus);
    } else {
      var t := e.time + (if s.traces[c][0].kind == 2 then s.traces[c][0].val else 1);
      tok' := tok[c := AtFetch(t)];
      RefetchTokens(cfg, s, s', e, t, tok, bus);
    }
  }

  lemma ExhaustTokens(cfg: Config, s: Sim, e: Event, tok: seq<CoreToken>, bus: BusToken)
    requires TokenInv(cfg, s, tok, bus) && Enabled(s, e) && e.Fetch? && s.traces[e.core] == []
    ensures TokenInv(cfg, FireFetch(cfg, s, e), tok[e.core := Done], bus)
  {
    assert EventOk(s, tok, bus, e) && CoreOk(s, e.core, tok[e.core]);
    ExhaustedTokens(cfg, s, FireFetch(cfg, s, e), e, tok, bus);
  }

  lemma ExhaustedTokens(cfg: Config, s: Sim, s': Sim, e: Event, tok: seq<CoreToken>, bus: BusToken)
    requires TokenInv(cfg, s, tok, bus) && Enabled(s, e) && e.Fetch? && s.traces[e.core] == []
    requires s' == Pop(s, e).(exhausted := s.exhausted[e.core := true])
    ensures TokenInv(cfg, s', tok[e.core := Done], bus)
  {
    assert EventOk(s, tok, bus, e) && CoreOk(s, e.core, tok[e.core]);
    OneEventLess(s, s', e, Done, tok, bus);
    CoresLess(s, s', e, Done, tok);
  }

  /** Firing a fetch leaves the other pending events accounted for. */
  lemma OneEventLess(s: Sim, s': Sim, e: Event, token: CoreToken, tok: seq<CoreToken>, bus: BusToken)
    requires EventsOk(s, tok, bus) && Enabled(s, e) && e.Fetch? && e.core < |tok| && s.events[e] == 1
    requires s'.now == e.time && s'.events == s.events - multiset{e}
    ensures EventsOk(s', tok[e.core := token], bus)
  {
    var tok' := tok[e.core := token];
    assert EventOk(s, tok, bus, e);
    forall f | f in s'.events
      ensures EventOk(s', tok', bus, f)
    {
      assert EventOk(s, tok, bus, f);
    }
  }

  lemma CoresLess(s: Sim, s': Sim, e: Event, token: CoreToken, tok: seq<CoreToken>)
    requires |tok| == |s.blocked| == |s.exhausted| == |s.traces| && CoresOk(s, tok)
    requires |s'.blocked| == |s'.exhausted| == |s'.traces| == |tok| && s'.queue == s.queue
    requires e.Fetch? && e.core < |tok| && tok[e.core] == AtFetch(e.time)
    requires forall d: nat :: d < |tok| && d != e.core ==>
      s'.blocked[d] == s.blocked[d] && s'.exhausted[d] == s.exhausted[d] && s'.traces[d] == s.traces[d]
    requires forall f :: f != e && f in s.events ==> s'.events[f] == s.events[f]
    requires CoreOk(s', e.core, token)
    ensures CoresOk(s', tok[e.core := token])
  {
    var tok' := tok[e.core := token];
    forall d: nat | d < |tok|
      ensures CoreOk(s', d, tok'[d])
    {
      assert CoreOk(s, d, tok[d]);
    }
  }

  /** The fetch of a compute entry or of a hit schedules the next fetch of its core. */
  lemma RefetchTokens(cfg: Config, s: Sim, s': Sim, e: Event, t: nat, tok: seq<CoreToken>, bus: BusToken)
    requires TokenInv(cfg, s, tok, bus) && Enabled(s, e) && e.Fetch? && WellFormed(cfg, s') && e.time <= t
    requires s'.now == e.time && s'.queue == s.queue && s'.busy == s.busy
    requires s'.blocked == s.blocked && s'.exhausted == s.exhausted
    requires forall i :: 0 <= i < |s.traces| && i != e.core ==> s'.traces[i] == s.traces[i]
    requires s'.events == s.events - multiset{e} + multiset{Fetch(t, e.core)}
    ensures TokenInv(cfg, s', tok[e.core := AtFetch(t)], bus)
  {
    assert EventOk(s, tok, bus, e) && CoreOk(s, e.core, tok[e.core]);
    var mid := Pop(s, e);
    OneEventLess(s, mid, e, AtFetch(t), tok, bus);
    assert Fetch(t, e.core) !in mid.events;
    RefetchEvents(mid, s', e.core, t, tok[e.core := AtFetch(t)], bus);
    CoresLess(s, s', e, AtFetch(t), tok);
  }

  lemma RefetchEvents(s: Sim, s': Sim, c: nat, t: nat, tok: seq<CoreToken>, bus: BusToken)
    requires EventsOk(s, tok, bus) && c < |tok| && tok[c] == AtFetch(t) && s.now <= t
    requires s'.now == s.now && s'.events == s.events + multiset{Fetch(t, c)}
    ensures EventsOk(s', tok, bus)
  {
    forall f | f in s'.events
      ensures EventOk(s', tok, bus, f)
    {
      if f in s.events {
        assert EventOk(s, tok, bus, f);
      }
    }
  }

  /** The fetch of a miss queues a request and asks for arbitration unless the bus is held. */
  lemma MissTokens(cfg: Config, s: Sim, s': Sim, e: Event, r: BusRequest, tok: seq<CoreToken>, bus: BusToken)
    requires TokenInv(cfg, s, tok, bus) && Enabled(s, e) && e.Fetch? && WellFormed(cfg, s')
    requires s'.queue == s.queue + [r]
    requires r.core == e.core && r.arrival == e.time && r.op in {BusRd, BusRdX, BusUpgr}
    requires s'.now == e.time && s'.busy == s.busy
    requires s'.blocked == s.blocked[e.core := true] && s'.exhausted == s.exhausted
    requires forall i :: 0 <= i < |s.traces| && i != e.core ==> s'.traces[i] == s.traces[i]
    requires s'.events == s.events - multiset{e} + (if s.busy then multiset{} else multiset{Arbitrate(e.time)})
    ensures TokenInv(cfg, s', tok[e.core := AtBus(r)], bus)
  {
    assert EventOk(s, tok, bus, e) && CoreOk(s, e.core, tok[e.core]);
    MissEventTokens(s, s', e, r, tok, bus);
    MissCoreTokens(s, s', e, r, tok);
    MissQueueTokens(s, s', e.core, r, tok);
  }

  lemma MissEventTokens(s: Sim, s': Sim, e: Event, r: BusRequest, tok: seq<CoreToken>, bus: BusToken)
    requires EventsOk(s, tok, bus) && Enabled(s, e) && e.Fetch? && e.core < |tok| && tok[e.core] == AtFetch(e.time)
    requires s.events[e] == 1 && s'.now == e.time
    requires s'.events == s.events - multiset{e} + (if s.busy then multiset{} else multiset{Arbitrate(e.time)})
    ensures EventsOk(s', tok[e.core := AtBus(r)], bus)
  {
    var tok' := tok[e.core := AtBus(r)];
    forall f | f in s'.events
      ensures EventOk(s', tok', bus, f)
    {
      if f in s.events {
        assert EventOk(s, tok, bus, f);
      }
    }
  }

  lemma MissCoreTokens(s: Sim, s': Sim, e: Event, r: BusRequest, tok: seq<CoreToken>)
    requires |tok| == |s.blocked| == |s.exhausted| == |s.traces| && CoresOk(s, tok)
    requires e.Fetch? && e.core < |tok| && tok[e.core] == AtFetch(e.time) && r.core == e.core
    requires s'.blocked == s.blocked[e.core := true] && s'.exhausted == s.exhausted
    requires |s'.traces| == |s.traces| && forall i :: 0 <= i < |s.traces| && i != e.core ==> s'.traces[i] == s.traces[i]
    requires s'.queue == s.queue + [r]
    requires s'.events == s.events - multiset{e} + (if s.busy then multiset{} else multiset{Arbitrate(e.time)})
    ensures CoresOk(s', tok[e.core := AtBus(r)])
  {
    assert CoreOk(s, e.core, tok[e.core]);
    var tok' := tok[e.core := AtBus(r)];
    forall d: nat | d < |tok|
      ensures CoreOk(s', d, tok'[d])
    {
      assert CoreOk(s, d, tok[d]);
      if d != e.core {
        match tok[d]
        case AtFetch(t) => assert s'.events[Fetch(t, d)] == s.events[Fetch(t, d)];
        case AtUnblock(t) => assert s'.events[Unblock(t, d)] == s.events[Unblock(t, d)];
        case _ =>
      }
    }
  }

  lemma MissQueueTokens(s: Sim, s': Sim, c: nat, r: BusRequest, tok: seq<CoreToken>)
    requires QueueOk(s, tok) && c < |tok| && !tok[c].AtBus? && s'.queue == s.queue + [r] && r.core == c
    requires s.now <= s'.now && r.arrival <= s'.now && r.op in {BusRd, BusRdX, BusUpgr}
    ensures QueueOk(s', tok[c := AtBus(r)])
  {
    assert forall i: nat :: i < |s.queue| ==> s'.queue[i] == s.queue[i] && s.queue[i].core != c;
  }

  lemma StepTokens(cfg: Config, s: Sim, e: Event, tok: seq<CoreToken>, bus: BusToken)
    returns (tok': seq<CoreToken>, bus': BusToken)
    requires TokenInv(cfg, s, tok, bus) && Enabled(s, e) && Step(cfg, s, e).Some?
    ensures TokenInv(cfg, Step(cfg, s, e).value, tok', bus')
  {
    tok', bus' := tok, bus;
    match e
    case Release(_) =>
      ReleaseTokens(cfg, s, e, tok, bus);
      bus' := Free;
    case Arbitrate(_) =>
      if s.busy || s.queue == [] {
        IdleArbitrateTokens(cfg, s, e, tok, bus);
      } else {
        var w := Winner(cfg.readPriority, s.queue);
        tok', bus' := GrantTokens(cfg, s, e, w, tok, bus);
      }
    case Unblock(_, _) =>
      UnblockTokens(cfg, s, e, tok, bus);
      tok' := tok[e.core := AtFetch(e.time)];
    case Fetch(_, _) =>
      tok' := FetchTokens(cfg, s, e, tok, bus);
  }
}
