/**
 Exact LRU in Dragon.  The list of a set is the recency order of the tags touched in
 it, restricted to the resident ones, so the victim is the resident line whose last
 touch (access, snoop or fill) lies furthest back.
 */
module DragonLru {
  import opened Defs
  import opened Sequences
  import opened CacheSets
  import opened Protocols
  import opened Simulation
  import opened Safety

  /** The tags of a log of touches, each once, the most recently touched first. */
  ghost function Recency(log: seq<nat>): seq<nat> {
    if log == [] then [] else ToFront(Recency(log[..|log| - 1]), log[|log| - 1])
  }

  ghost function Keep(s: seq<nat>, keys: set<nat>): seq<nat> {
    if s == [] then []
    else if s[0] in keys then [s[0]] + Keep(s[1..], keys)
    else Keep(s[1..], keys)
  }

  /** One past the position of the last touch of `t`; 0 if it was never touched. */
  ghost function LastTouch(log: seq<nat>, t: nat): nat {
    if log == [] then 0 else if log[|log| - 1] == t then |log| else LastTouch(log[..|log| - 1], t)
  }

  // ----- list lemmas -----

  lemma {:induction false} KeepRemove(s: seq<nat>, keys: set<nat>, t: nat)
    ensures Keep(Remove(s, t), keys) == Remove(Keep(s, keys), t)
  {
    if s != [] {
      KeepRemove(s[1..], keys, t);
      if s[0] != t {
        assert ([s[0]] + Remove(s[1..], t))[1..] == Remove(s[1..], t);
      }
      if s[0] in keys {
        assert ([s[0]] + Keep(s[1..], keys))[1..] == Keep(s[1..], keys);
      }
    }
  }

  lemma {:induction false} RemoveAbsent(s: seq<nat>, t: nat)
    requires t !in s
    ensures Remove(s, t) == s
  {
    if s != [] {
      RemoveAbsent(s[1..], t);
    }
  }

  lemma {:induction false} KeepMembers(s: seq<nat>, keys: set<nat>)
    ensures forall x :: x in Keep(s, keys) <==> x in s && x in keys
  {
    if s != [] {
      KeepMembers(s[1..], keys);
    }
  }

  /** Dropping one key drops its occurrences. */
  lemma {:induction false} KeepFewer(s: seq<nat>, keys: set<nat>, v: nat)
    ensures Keep(s, keys - {v}) == Remove(Keep(s, keys), v)
  {
    if s != [] {
      KeepFewer(s[1..], keys, v);
      if s[0] in keys {
        assert ([s[0]] + Keep(s[1..], keys))[1..] == Keep(s[1..], keys);
      }
    }
  }

  /** A key that does not occur makes no difference. */
  lemma {:induction false} KeepMore(s: seq<nat>, keys: set<nat>, t: nat)
    requires t !in s
    ensures Keep(s, keys + {t}) == Keep(s, keys)
  {
    if s != [] {
      KeepMore(s[1..], keys, t);
    }
  }

  lemma {:induction false} RemoveLast(s: seq<nat>)
    requires Distinct(s) && s != []
    ensures Remove(s, s[|s| - 1]) == s[..|s| - 1]
  {
    var v := s[|s| - 1];
    if |s| > 1 {
      assert s[1..][|s| - 2] == v;
      assert Distinct(s[1..]) by { assert forall i :: 0 <= i < |s| - 1 ==> s[1..][i] == s[i + 1]; }
      RemoveLast(s[1..]);
      assert s[..|s| - 1] == [s[0]] + s[1..][..|s| - 2];
    }
  }

  // ----- the order is the order of last touches -----

  ghost predicate ByLastTouch(s: seq<nat>, log: seq<nat>) {
    forall i: nat, j: nat :: i < j < |s| ==> LastTouch(log, s[i]) > LastTouch(log, s[j])
  }

  lemma LastTouchBound(log: seq<nat>, t: nat)
    ensures LastTouch(log, t) <= |log|
  {
  }

  lemma {:induction false} RemoveKeepsOrder(s: seq<nat>, t: nat, log: seq<nat>)
    requires ByLastTouch(s, log)
    ensures ByLastTouch(Remove(s, t), log)
  {
    if s != [] {
      var tail := s[1..];
      assert forall i: nat :: i < |tail| ==> tail[i] == s[i + 1];
      RemoveKeepsOrder(tail, t, log);
      assert forall x :: x in tail ==> LastTouch(log, s[0]) > LastTouch(log, x);
    }
  }

  lemma {:induction false} KeepKeepsOrder(s: seq<nat>, keys: set<nat>, log: seq<nat>)
    requires ByLastTouch(s, log)
    ensures ByLastTouch(Keep(s, keys), log)
  {
    if s != [] {
      var tail := s[1..];
      assert forall i: nat :: i < |tail| ==> tail[i] == s[i + 1];
      KeepKeepsOrder(tail, keys, log);
      KeepMembers(tail, keys);
      assert forall x :: x in tail ==> LastTouch(log, s[0]) > LastTouch(log, x);
    }
  }

  /** The recency order is strictly descending in the time of the last touch. */
  lemma {:induction false} RecencyByLastTouch(log: seq<nat>)
    ensures ByLastTouch(Recency(log), log)
  {
    if log != [] {
      var n := |log| - 1;
      var before, t := log[..n], log[n];
      RecencyByLastTouch(before);
      RemoveKeepsOrder(Recency(before), t, before);
      var rest, all := Remove(Recency(before), t), Recency(log);
      forall i: nat, j: nat | i < j < |all|
        ensures LastTouch(log, all[i]) > LastTouch(log, all[j])
      {
        assert all[j] == rest[j - 1] && rest[j - 1] in rest;
        LastTouchBound(before, all[j]);
        if i > 0 {
          assert all[i] == rest[i - 1] && rest[i - 1] in rest;
        }
      }
    }
  }

  // ----- one set -----

  /** The list of `cs` is exact, within capacity, and in the recency order of `log`. */
  ghost predicate LruSet(assoc: nat, cs: CacheSet, log: seq<nat>) {
    cs.Exact() && |cs.lines| <= assoc && cs.lru == Keep(Recency(log), cs.lines.Keys)
  }

  lemma TouchLru(assoc: nat, cs: CacheSet, log: seq<nat>, t: nat)
    requires LruSet(assoc, cs, log) && t in cs.lines
    ensures LruSet(assoc, Find(cs, t), log + [t])
  {
    FindExact(cs, t);
    assert (log + [t])[..|log|] == log;
    KeepRemove(Recency(log), cs.lines.Keys, t);
    assert ([t] + Remove(Recency(log), t))[1..] == Remove(Recency(log), t);
  }

  lemma RestateLru(assoc: nat, cs: CacheSet, log: seq<nat>, t: nat, st: LineState)
    requires LruSet(assoc, cs, log) && t in cs.lines
    ensures LruSet(assoc, SetState(cs, t, st), log)
  {
    var cs' := SetState(cs, t, st);
    assert cs'.lines.Keys == cs.lines.Keys;
    assert |cs'.lines| == |cs'.lines.Keys| && |cs.lines| == |cs.lines.Keys|;
  }

  /** Touching a tag that is not kept puts it in front of the kept ones. */
  lemma PushRecency(log: seq<nat>, kept: set<nat>, t: nat)
    requires t !in kept
    ensures Keep(Recency(log + [t]), kept + {t}) == [t] + Keep(Recency(log), kept)
  {
    var rest := Remove(Recency(log), t);
    assert (log + [t])[..|log|] == log;
    assert ([t] + rest)[1..] == rest;
    KeepMore(rest, kept, t);
    KeepRemove(Recency(log), kept, t);
    KeepMembers(Recency(log), kept);
    RemoveAbsent(Keep(Recency(log), kept), t);
  }

  /** Evicting the back of the list leaves the rest in recency order. */
  lemma EvictedInOrder(assoc: nat, cs: CacheSet, log: seq<nat>)
    requires LruSet(assoc, cs, log) && (Full(assoc, cs) ==> |cs.lru| > 0)
    ensures EvictedList(Dragon, assoc, cs) == Keep(Recency(log), cs.lines.Keys - Evicted(Dragon, assoc, cs))
  {
    if Full(assoc, cs) {
      KeepFewer(Recency(log), cs.lines.Keys, cs.lru[|cs.lru| - 1]);
      RemoveLast(cs.lru);
      assert EvictedList(Dragon, assoc, cs) == cs.lru[..|cs.lru| - 1];
    } else {
      assert cs.lines.Keys - {} == cs.lines.Keys;
    }
  }

  lemma AllocateLru(assoc: nat, cs: CacheSet, log: seq<nat>, t: nat, st: LineState)
    requires LruSet(assoc, cs, log) && t !in cs.lines && assoc >= 1
    ensures Full(assoc, cs) ==> |cs.lru| > 0
    ensures LruSet(assoc, Allocate(Dragon, assoc, cs, t, st), log + [t])
  {
    AllocateExact(Dragon, assoc, cs, t, st);
    EvictedInOrder(assoc, cs, log);
    var kept := cs.lines.Keys - Evicted(Dragon, assoc, cs);
    PushRecency(log, kept, t);
    AllocateKeys(assoc, cs, t, st);
  }

  lemma AllocateKeys(assoc: nat, cs: CacheSet, t: nat, st: LineState)
    requires Full(assoc, cs) ==> |cs.lru| > 0
    ensures Allocate(Dragon, assoc, cs, t, st).lines.Keys == cs.lines.Keys - Evicted(Dragon, assoc, cs) + {t}
  {
  }

  /** The victim of a full set is the resident tag whose last touch is the furthest back. */
  lemma VictimLeastRecent(assoc: nat, cs: CacheSet, log: seq<nat>, t: nat)
    requires LruSet(assoc, cs, log) && Full(assoc, cs) && assoc >= 1 && |cs.lru| > 0
    requires t in cs.lines && t != cs.lru[VictimAt(Dragon, cs)]
    ensures LastTouch(log, cs.lru[VictimAt(Dragon, cs)]) < LastTouch(log, t)
  {
    RecencyByLastTouch(log);
    KeepKeepsOrder(Recency(log), cs.lines.Keys, log);
    var i: nat :| i < |cs.lru| && cs.lru[i] == t;
  }

  // ----- all sets, over runs -----

  /** The tag that firing `e` touches in set `k` of core `i`, if any. */
  ghost function Touched(cfg: Config, s: Sim, e: Event, i: nat, k: nat): seq<nat>
    requires i < cfg.cores && k < cfg.NumSets()
  {
    if !WellFormed(cfg, s) then []
    else if e.Arbitrate? && !s.busy && s.queue != [] then
      GrantTouch(cfg, s.sys.caches, s.queue[Winner(cfg.readPriority, s.queue)], i, k)
    else if e.Fetch? && e.core == i && !s.blocked[i] && s.traces[i] != [] && s.traces[i][0].kind != 2 then
      AccessTouch(cfg, s.sys.caches, s.traces[i][0].val, i, k)
    else []
  }

  /** An access touches the line if it is resident. */
  ghost function AccessTouch(cfg: Config, c: Caches, addr: Uint32, i: nat, k: nat): seq<nat>
    requires Shaped(cfg, c) && i < cfg.cores && k < cfg.NumSets()
  {
    if k == cfg.SetIndex(addr) && cfg.Tag(addr) in c[i][k].lines then [cfg.Tag(addr)] else []
  }

  /** A transaction touches the line in the requester's cache and wherever it is resident. */
  ghost function GrantTouch(cfg: Config, c: Caches, r: BusRequest, i: nat, k: nat): seq<nat>
    requires Shaped(cfg, c) && i < cfg.cores && k < cfg.NumSets()
  {
    if i == r.core && k == cfg.SetIndex(r.addr) then [cfg.Tag(r.addr)] else AccessTouch(cfg, c, r.addr, i, k)
  }

  /** The touches in set `k` of core `i` during the first `n` steps. */
  ghost function TouchLog(cfg: Config, states: seq<Sim>, fired: seq<Event>, i: nat, k: nat, n: nat): seq<nat>
    requires n <= |fired| && |states| == |fired| + 1 && i < cfg.cores && k < cfg.NumSets()
  {
    if n == 0 then []
    else TouchLog(cfg, states, fired, i, k, n - 1) + Touched(cfg, states[n - 1], fired[n - 1], i, k)
  }

  lemma BusLru(cfg: Config, c: Caches, r: BusRequest, i: nat, k: nat, log: seq<nat>)
    requires cfg.Valid() && cfg.protocol == Dragon && Shaped(cfg, c) && NeverInvalid(c)
    requires r.core < cfg.cores && Matches(cfg, c, r) && i < cfg.cores && k < cfg.NumSets()
    requires !BusFaults(cfg, c, r.core, r.op, cfg.SetIndex(r.addr), cfg.Tag(r.addr))
    requires LruSet(cfg.assoc, c[i][k], log)
    ensures var d := BusCaches(cfg, c, r.core, r.op, cfg.SetIndex(r.addr), cfg.Tag(r.addr));
            && Shaped(cfg, d)
            && LruSet(cfg.assoc, d[i][k], log + GrantTouch(cfg, c, r, i, k))
  {
    var cs, t := c[i][k], cfg.Tag(r.addr);
    var shared := SharedSignal(c, r.core, cfg.SetIndex(r.addr), t);
    BusEffect(cfg, c, r.core, r.op, cfg.SetIndex(r.addr), t);
    assert log + [] == log;
    if k == cfg.SetIndex(r.addr) {
      if i == r.core && r.op == BusRd {
        assert StateAt(c, i, k, t) == Invalid;
        AllocateLru(cfg.assoc, cs, log, t, Fill(Dragon, BusRd, shared));
      } else if t in cs.lines {
        TouchLru(cfg.assoc, cs, log, t);
        RestateLru(cfg.assoc, Find(cs, t), log + [t], t,
                   if i == r.core then Upgraded(Dragon, shared) else Snoop(Dragon, r.op, cs.lines[t]));
      }
    }
  }

  lemma RequestLru(cfg: Config, c: Caches, id: nat, addr: Uint32, isWrite: bool, i: nat, k: nat, log: seq<nat>)
    requires Shaped(cfg, c) && id < cfg.cores && i < cfg.cores && k < cfg.NumSets()
    requires LruSet(cfg.assoc, c[i][k], log)
    ensures var d := RequestCaches(cfg, c, id, cfg.SetIndex(addr), cfg.Tag(addr), isWrite);
            && Shaped(cfg, d)
            && LruSet(cfg.assoc, d[i][k], if i == id then log + AccessTouch(cfg, c, addr, i, k) else log)
  {
    var cs, t := c[i][k], cfg.Tag(addr);
    RequestEffect(cfg, c, id, cfg.SetIndex(addr), t, isWrite);
    assert log + [] == log;
    if i == id && k == cfg.SetIndex(addr) && t in cs.lines {
      TouchLru(cfg.assoc, cs, log, t);
      RestateLru(cfg.assoc, Find(cs, t), log + [t], t, AfterHit(cfg.protocol, cs.lines[t], isWrite));
    }
  }

  /** Every step of a Dragon run keeps every set in recency order. */
  lemma StepLru(cfg: Config, s: Sim, e: Event, s': Sim, i: nat, k: nat, log: seq<nat>)
    requires cfg.Valid() && cfg.protocol == Dragon && IsStep(cfg, s, e, s') && MemoryInv(cfg, s)
    requires i < cfg.cores && k < cfg.NumSets() && LruSet(cfg.assoc, s.sys.caches[i][k], log)
    ensures Shaped(cfg, s'.sys.caches)
    ensures LruSet(cfg.assoc, s'.sys.caches[i][k], log + Touched(cfg, s, e, i, k))
  {
    assert log + [] == log;
    match e
    case Release(_) =>
    case Unblock(_, _) =>
    case Arbitrate(_) =>
      if !s.busy && s.queue != [] {
        var r := s.queue[Winner(cfg.readPriority, s.queue)];
        assert Matches(cfg, s.sys.caches, r);
        BusLru(cfg, s.sys.caches, r, i, k, log);
      }
    case Fetch(_, c) =>
      FetchLru(cfg, s, e, i, k, log);
  }

  lemma FetchLru(cfg: Config, s: Sim, e: Event, i: nat, k: nat, log: seq<nat>)
    requires WellFormed(cfg, s) && e in s.events && e.Fetch?
    requires i < cfg.cores && k < cfg.NumSets() && LruSet(cfg.assoc, s.sys.caches[i][k], log)
    ensures Shaped(cfg, FireFetch(cfg, s, e).sys.caches)
    ensures LruSet(cfg.assoc, FireFetch(cfg, s, e).sys.caches[i][k], log + Touched(cfg, s, e, i, k))
  {
    assert log + [] == log;
    var c := e.core;
    if !s.blocked[c] && s.traces[c] != [] && s.traces[c][0].kind != 2 {
      RequestLru(cfg, s.sys.caches, c, s.traces[c][0].val, s.traces[c][0].kind == 1, i, k, log);
    }
  }
}
