/**
 The order of the list of a set, under every protocol: tags come in the order of
 their last touches.  A list may hold a tag twice, except in Dragon; its place is
 then that of its first occurrence.
 */
module TouchOrder {
  import opened Defs
  import opened Sequences
  import opened CacheSets
  import opened Protocols
  import opened Simulation
  import opened Safety
  import opened DragonLru
  import opened Tables
  import opened Runs

  /** The position of the first occurrence, or the length if there is none. */
  function First(s: seq<nat>, x: nat): (i: nat)
    ensures i <= |s| && (i < |s| <==> x in s) && (i < |s| ==> s[i] == x && x !in s[..i])
  {
    if s == [] || s[0] == x then 0 else
      var i := First(s[1..], x);
      assert i + 1 <= |s| ==> s[..i + 1] == [s[0]] + s[1..][..i];
      i + 1
  }

  ghost predicate InTouchOrder(s: seq<nat>, log: seq<nat>) {
    forall x: nat, y: nat :: x in s && y in s && First(s, x) < First(s, y) ==> LastTouch(log, x) > LastTouch(log, y)
  }

  lemma FirstFront(t: nat, s: seq<nat>, x: nat)
    ensures First([t] + s, x) == if x == t then 0 else First(s, x) + 1
  {
    assert ([t] + s)[1..] == s;
  }

  lemma {:induction false} FirstAppend(a: seq<nat>, b: seq<nat>, x: nat)
    ensures First(a + b, x) == if x in a then First(a, x) else |a| + First(b, x)
  {
    if a == [] {
      assert a + b == b;
    } else {
      FirstAppend(a[1..], b, x);
      assert (a + b)[1..] == a[1..] + b;
    }
  }

  lemma {:induction false} RemoveFirst(s: seq<nat>, t: nat, x: nat, y: nat)
    requires x in s && y in s && x != t && y != t
    ensures First(Remove(s, t), x) < First(Remove(s, t), y) <==> First(s, x) < First(s, y)
  {
    var tail := s[1..];
    assert forall z :: z in s && z != s[0] ==> z in tail;
    if s[0] != t {
      FirstFront(s[0], Remove(tail, t), x);
      FirstFront(s[0], Remove(tail, t), y);
    }
    if s[0] != x && s[0] != y {
      RemoveFirst(tail, t, x, y);
    }
  }

  lemma TouchedLast(log: seq<nat>, t: nat, x: nat)
    ensures LastTouch(log + [t], x) == if x == t then |log| + 1 else LastTouch(log, x)
    ensures LastTouch(log, x) <= |log|
  {
    assert (log + [t])[..|log|] == log;
    LastTouchBound(log, x);
  }

  lemma TouchFront(s: seq<nat>, t: nat, log: seq<nat>)
    requires InTouchOrder(s, log)
    ensures InTouchOrder(ToFront(s, t), log + [t])
  {
    var front := ToFront(s, t);
    forall x: nat, y: nat | x in front && y in front && First(front, x) < First(front, y)
      ensures LastTouch(log + [t], x) > LastTouch(log + [t], y)
    {
      TouchedLast(log, t, x);
      TouchedLast(log, t, y);
      FirstFront(t, Remove(s, t), x);
      FirstFront(t, Remove(s, t), y);
      if x != t {
        RemoveFirst(s, t, x, y);
      }
    }
  }

  lemma PushFront(s: seq<nat>, t: nat, log: seq<nat>)
    requires InTouchOrder(s, log)
    ensures InTouchOrder([t] + s, log + [t])
  {
    var front := [t] + s;
    forall x: nat, y: nat | x in front && y in front && First(front, x) < First(front, y)
      ensures LastTouch(log + [t], x) > LastTouch(log + [t], y)
    {
      TouchedLast(log, t, x);
      TouchedLast(log, t, y);
      FirstFront(t, s, x);
      FirstFront(t, s, y);
    }
  }

  lemma CutFirst(s: seq<nat>, i: nat, x: nat)
    requires i < |s| && s[i] !in s[i + 1..] && x in Cut(s, i)
    ensures x in s && First(s, x) == (if x in s[..i] then First(Cut(s, i), x) else First(Cut(s, i), x) + 1)
    ensures x in s[..i] <==> First(Cut(s, i), x) < i
  {
    assert s == s[..i] + ([s[i]] + s[i + 1..]);
    FirstAppend(s[..i], [s[i]] + s[i + 1..], x);
    FirstAppend(s[..i], s[i + 1..], x);
    FirstFront(s[i], s[i + 1..], x);
  }

  /** Taking out the last occurrence of a tag keeps the order. */
  lemma CutLast(s: seq<nat>, i: nat, log: seq<nat>)
    requires InTouchOrder(s, log) && i < |s| && s[i] !in s[i + 1..]
    ensures InTouchOrder(Cut(s, i), log)
  {
    var cut := Cut(s, i);
    forall x: nat, y: nat | x in cut && y in cut && First(cut, x) < First(cut, y)
      ensures LastTouch(log, x) > LastTouch(log, y)
    {
      CutFirst(s, i, x);
      CutFirst(s, i, y);
    }
  }

  /** The entry that makes room is the last occurrence of its tag. */
  lemma VictimIsLast(p: Protocol, cs: CacheSet)
    requires |cs.lru| > 0
    ensures var i := VictimAt(p, cs); cs.lru[i] !in cs.lru[i + 1..]
  {
    VictimMakesRoom(p, cs, VictimAt(p, cs));
  }

  lemma AllocateInOrder(p: Protocol, assoc: nat, cs: CacheSet, t: nat, st: LineState, log: seq<nat>)
    requires InTouchOrder(cs.lru, log) && (Full(assoc, cs) ==> |cs.lru| > 0)
    ensures InTouchOrder(Allocate(p, assoc, cs, t, st).lru, log + [t])
  {
    if Full(assoc, cs) {
      VictimIsLast(p, cs);
      CutLast(cs.lru, VictimAt(p, cs), log);
    }
    PushFront(EvictedList(p, assoc, cs), t, log);
  }

  // ----- over runs -----

  lemma BusInOrder(cfg: Config, c: Caches, r: BusRequest, i: nat, k: nat, log: seq<nat>)
    requires Shaped(cfg, c) && r.core < cfg.cores && Matches(cfg, c, r) && i < cfg.cores && k < cfg.NumSets()
    requires !BusFaults(cfg, c, r.core, r.op, cfg.SetIndex(r.addr), cfg.Tag(r.addr))
    requires InTouchOrder(c[i][k].lru, log)
    ensures var d := BusCaches(cfg, c, r.core, r.op, cfg.SetIndex(r.addr), cfg.Tag(r.addr));
            && Shaped(cfg, d)
            && InTouchOrder(d[i][k].lru, log + GrantTouch(cfg, c, r, i, k))
  {
    var cs, t := c[i][k], cfg.Tag(r.addr);
    var shared := SharedSignal(c, r.core, cfg.SetIndex(r.addr), t);
    BusEffect(cfg, c, r.core, r.op, cfg.SetIndex(r.addr), t);
    assert log + [] == log;
    if k == cfg.SetIndex(r.addr) {
      if i == r.core && r.op != BusUpgr {
        AllocateInOrder(cfg.protocol, cfg.assoc, cs, t, Fill(cfg.protocol, r.op, shared), log);
      } else if t in cs.lines {
        TouchFront(cs.lru, t, log);
      }
    }
  }

  lemma RequestInOrder(cfg: Config, c: Caches, id: nat, addr: Uint32, isWrite: bool, i: nat, k: nat, log: seq<nat>)
    requires Shaped(cfg, c) && id < cfg.cores && i < cfg.cores && k < cfg.NumSets()
    requires InTouchOrder(c[i][k].lru, log)
    ensures var d := RequestCaches(cfg, c, id, cfg.SetIndex(addr), cfg.Tag(addr), isWrite);
            && Shaped(cfg, d)
            && InTouchOrder(d[i][k].lru, if i == id then log + AccessTouch(cfg, c, addr, i, k) else log)
  {
    var cs, t := c[i][k], cfg.Tag(addr);
    RequestEffect(cfg, c, id, cfg.SetIndex(addr), t, isWrite);
    assert log + [] == log;
    if i == id && k == cfg.SetIndex(addr) && t in cs.lines {
      TouchFront(cs.lru, t, log);
    }
  }

  lemma FetchCaches(cfg: Config, s: Sim, e: Event)
    requires WellFormed(cfg, s) && e in s.events && e.Fetch?
    ensures FireFetch(cfg, s, e).sys.caches
            == if !s.blocked[e.core] && s.traces[e.core] != [] && s.traces[e.core][0].kind != 2 then
                 var entry := s.traces[e.core][0];
                 RequestCaches(cfg, s.sys.caches, e.core, cfg.SetIndex(entry.val), cfg.Tag(entry.val), entry.kind == 1)
               else s.sys.caches
  {
  }

  lemma FetchInOrder(cfg: Config, s: Sim, e: Event, caches: Caches, i: nat, k: nat, log: seq<nat>)
    requires WellFormed(cfg, s) && e in s.events && e.Fetch? && caches == FireFetch(cfg, s, e).sys.caches
    requires i < cfg.cores && k < cfg.NumSets() && InTouchOrder(s.sys.caches[i][k].lru, log)
    ensures Shaped(cfg, caches) && InTouchOrder(caches[i][k].lru, log + Touched(cfg, s, e, i, k))
  {
    assert log + [] == log;
    var c := e.core;
    FetchCaches(cfg, s, e);
    if !s.blocked[c] && s.traces[c] != [] && s.traces[c][0].kind != 2 {
      RequestInOrder(cfg, s.sys.caches, c, s.traces[c][0].val, s.traces[c][0].kind == 1, i, k, log);
    }
  }

  lemma StepInOrder(cfg: Config, s: Sim, e: Event, s': Sim, i: nat, k: nat, log: seq<nat>)
    requires cfg.Valid() && IsStep(cfg, s, e, s') && MemoryInv(cfg, s)
    requires i < cfg.cores && k < cfg.NumSets() && InTouchOrder(s.sys.caches[i][k].lru, log)
    ensures Shaped(cfg, s'.sys.caches)
    ensures InTouchOrder(s'.sys.caches[i][k].lru, log + Touched(cfg, s, e, i, k))
  {
    assert log + [] == log;
    if e.Fetch? {
      FetchInOrder(cfg, s, e, s'.sys.caches, i, k, log);
    } else if e.Arbitrate? && !s.busy && s.queue != [] {
      var r := s.queue[Winner(cfg.readPriority, s.queue)];
      assert Matches(cfg, s.sys.caches, r);
      BusInOrder(cfg, s.sys.caches, r, i, k, log);
    }
  }

  ghost predicate OrderedAt(cfg: Config, states: seq<Sim>, fired: seq<Event>, i: nat, k: nat, n: nat)
    requires n <= |fired| && |states| == |fired| + 1 && i < cfg.cores && k < cfg.NumSets()
  {
    At(states[n].sys.caches, i, k)
    && InTouchOrder(states[n].sys.caches[i][k].lru, TouchLog(cfg, states, fired, i, k, n))
  }

  lemma OrderedNext(cfg: Config, traces: seq<seq<TraceEntry>>, states: seq<Sim>, fired: seq<Event>, i: nat, k: nat,
                    n: nat)
    requires IsRun(cfg, traces, states, fired) && n < |fired| && i < cfg.cores && k < cfg.NumSets()
    requires OrderedAt(cfg, states, fired, i, k, n)
    ensures OrderedAt(cfg, states, fired, i, k, n + 1)
  {
    RunInv(cfg, traces, states, fired, n);
    assert StepAt(cfg, states, fired, n);
    StepInOrder(cfg, states[n], fired[n], states[n + 1], i, k, TouchLog(cfg, states, fired, i, k, n));
  }

  /** In every state of every run, under every protocol, the first occurrences of the tags in the list of a set are in
      the order of their last touches by access, snoop or fill. */
  lemma {:induction false} ListsInTouchOrder(cfg: Config, traces: seq<seq<TraceEntry>>, states: seq<Sim>,
                                             fired: seq<Event>, i: nat, k: nat, n: nat)
    requires IsRun(cfg, traces, states, fired) && n <= |fired| && i < cfg.cores && k < cfg.NumSets()
    ensures OrderedAt(cfg, states, fired, i, k, n)
  {
    if n == 0 {
      StartWellFormed(cfg, traces);
    } else {
      ListsInTouchOrder(cfg, traces, states, fired, i, k, n - 1);
      OrderedNext(cfg, traces, states, fired, i, k, n - 1);
    }
  }

  /** The entry that makes room, unless it occurs again further in front, was touched before every entry in front of it:
      before all others in MESI, MESIF, MOESI and Dragon, and in SMART before all but
      the Modified ones behind it. */
  lemma RoomLeastRecent(cfg: Config, traces: seq<seq<TraceEntry>>, states: seq<Sim>, fired: seq<Event>,
                        i: nat, k: nat, n: nat, v: nat, j: nat)
    requires IsRun(cfg, traces, states, fired) && n <= |fired| && i < cfg.cores && k < cfg.NumSets()
    ensures At(states[n].sys.caches, i, k)
    ensures var cs, log := states[n].sys.caches[i][k], TouchLog(cfg, states, fired, i, k, n);
            MakesRoom(cfg.protocol, cs, v) && cs.lru[v] !in cs.lru[..v] && j < v ==>
              LastTouch(log, cs.lru[v]) < LastTouch(log, cs.lru[j])
  {
    ListsInTouchOrder(cfg, traces, states, fired, i, k, n);
    var cs := states[n].sys.caches[i][k];
    if v < |cs.lru| && cs.lru[v] !in cs.lru[..v] && j < v {
      FirstIs(cs.lru, v);
      FirstBefore(cs.lru, j);
    }
  }

  lemma NotBefore(s: seq<nat>, i: nat, x: nat)
    requires i <= |s| && x !in s[..i]
    ensures forall j :: 0 <= j < i ==> s[j] != x
  {
    assert forall j :: 0 <= j < i ==> s[..i][j] == s[j];
  }

  lemma FirstIs(s: seq<nat>, v: nat)
    requires v < |s| && s[v] !in s[..v]
    ensures First(s, s[v]) == v
  {
    NotBefore(s, v, s[v]);
    NotBefore(s, First(s, s[v]), s[v]);
  }

  lemma FirstBefore(s: seq<nat>, j: nat)
    requires j < |s|
    ensures First(s, s[j]) <= j
  {
    NotBefore(s, First(s, s[j]), s[j]);
  }
}
