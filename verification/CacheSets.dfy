/**
 One cache set: the list `lru` of tags, most recently used first, and the map
 `lines` from resident tags to their state.  The datatype gives the value of a
 set; the class of the same shape updates it in place.
 */
module CacheSets {
  import opened Defs
  import opened Sequences

  datatype CacheSet = CacheSet(lru: seq<nat>, lines: map<nat, LineState>)
  {
    function StateOf(t: nat): LineState {
      if t in lines then lines[t] else Invalid
    }

    /** Every resident tag is somewhere in the list; the list may also hold duplicates and stale tags. */
    ghost predicate Listed() {
      forall t :: t in lines ==> t in lru
    }

    /** The list is a duplicate-free permutation of the resident tags. */
    ghost predicate Exact() {
      Distinct(lru) && forall t :: t in lru <==> t in lines
    }
  }

  const EMPTY := CacheSet([], map[])

  // std::list::remove: drop every occurrence.
  function Remove(s: seq<nat>, t: nat): (r: seq<nat>)
    ensures forall x :: x in r <==> x in s && x != t
    ensures |r| <= |s|
  {
    if s == [] then []
    else if s[0] == t then Remove(s[1..], t)
    else [s[0]] + Remove(s[1..], t)
  }

  lemma RemoveDistinct(s: seq<nat>, t: nat)
    requires Distinct(s)
    ensures Distinct(Remove(s, t))
  {
    if s != [] {
      RemoveDistinct(s[1..], t);
      assert forall i :: 1 <= i < |s| ==> s[1..][i - 1] == s[i];
      assert s[0] !in s[1..];
    }
  }

  function ToFront(s: seq<nat>, t: nat): seq<nat> {
    [t] + Remove(s, t)
  }

  /** Looking a tag up moves it to the front, if it is resident (even in state Invalid). */
  function Find(cs: CacheSet, t: nat): CacheSet {
    if t in cs.lines then cs.(lru := ToFront(cs.lru, t)) else cs
  }

  function SetState(cs: CacheSet, t: nat, st: LineState): CacheSet {
    cs.(lines := cs.lines[t := st])
  }

  predicate Full(assoc: nat, cs: CacheSet) {
    |cs.lines| >= assoc
  }

  /** The last position below `n` whose line is not Modified (a stale tag counts as not Modified), or `n` if there is
      none. */
  function LastClean(cs: CacheSet, n: nat): (i: nat)
    requires n <= |cs.lru|
    ensures i < n ==> cs.StateOf(cs.lru[i]) != Modified
    ensures forall j :: 0 <= j < n && (i < j || i == n) ==> cs.StateOf(cs.lru[j]) == Modified
    ensures i <= n
  {
    if n == 0 then 0
    else if cs.StateOf(cs.lru[n - 1]) != Modified then n - 1
    else
      var i := LastClean(cs, n - 1);
      if i == n - 1 then n else i
  }

  /** The position in the list that `allocate` evicts: the back, or for SMART the rearmost clean entry if there is
      one. */
  function VictimAt(p: Protocol, cs: CacheSet): (i: nat)
    requires |cs.lru| > 0
    ensures i < |cs.lru|
  {
    if p == Smart && LastClean(cs, |cs.lru|) < |cs.lru| then LastClean(cs, |cs.lru|) else |cs.lru| - 1
  }

  /** What `allocate` discards to make room: nothing, or the tag at `VictimAt`. */
  function Evicted(p: Protocol, assoc: nat, cs: CacheSet): (v: set<nat>)
    requires Full(assoc, cs) ==> |cs.lru| > 0
  {
    if Full(assoc, cs) then {cs.lru[VictimAt(p, cs)]} else {}
  }

  /** The state of the evicted line; Invalid if nothing (or a stale tag) was evicted. */
  function EvictedState(p: Protocol, assoc: nat, cs: CacheSet): LineState
    requires Full(assoc, cs) ==> |cs.lru| > 0
  {
    if Full(assoc, cs) then cs.StateOf(cs.lru[VictimAt(p, cs)]) else Invalid
  }

  function EvictedList(p: Protocol, assoc: nat, cs: CacheSet): seq<nat>
    requires Full(assoc, cs) ==> |cs.lru| > 0
  {
    if Full(assoc, cs) then Cut(cs.lru, VictimAt(p, cs)) else cs.lru
  }

  /** `allocate` followed by the caller's assignment of the new line's state. */
  function Allocate(p: Protocol, assoc: nat, cs: CacheSet, t: nat, st: LineState): CacheSet
    requires Full(assoc, cs) ==> |cs.lru| > 0
  {
    CacheSet([t] + EvictedList(p, assoc, cs),
             (cs.lines - Evicted(p, assoc, cs))[t := st])
  }

  lemma FullIsListed(assoc: nat, cs: CacheSet)
    requires cs.Listed() && assoc >= 1
    ensures Full(assoc, cs) ==> |cs.lru| > 0
  {
    if Full(assoc, cs) {
      var t :| t in cs.lines.Keys;
      assert t in cs.lru;
    }
  }

  lemma FindListed(cs: CacheSet, t: nat)
    requires cs.Listed()
    ensures Find(cs, t).Listed()
  {
  }

  lemma AllocateListed(p: Protocol, assoc: nat, cs: CacheSet, t: nat, st: LineState)
    requires cs.Listed() && (Full(assoc, cs) ==> |cs.lru| > 0)
    ensures Allocate(p, assoc, cs, t, st).Listed()
  {
    var r := Allocate(p, assoc, cs, t, st);
    forall x | x in r.lines && x != t
      ensures x in r.lru
    {
      if Full(assoc, cs) {
        var i := VictimAt(p, cs);
        var j :| 0 <= j < |cs.lru| && cs.lru[j] == x;
        assert j != i;
        CutHas(cs.lru, i, j);
      }
    }
  }

  /** SMART evicts a Modified line only when every resident line of the set is Modified. */
  lemma SmartEvictsDirtyOnlyIfAllDirty(assoc: nat, cs: CacheSet)
    requires cs.Listed() && assoc >= 1
    ensures Full(assoc, cs) ==> |cs.lru| > 0
    ensures EvictedState(Smart, assoc, cs) == Modified
            <==> Full(assoc, cs) && (forall t :: t in cs.lru ==> cs.StateOf(t) == Modified)
    ensures EvictedState(Smart, assoc, cs) == Modified ==> forall t :: t in cs.lines ==> cs.lines[t] == Modified
  {
    FullIsListed(assoc, cs);
    if Full(assoc, cs) {
      var i := LastClean(cs, |cs.lru|);
      if i < |cs.lru| {
        assert cs.lru[i] in cs.lru;
      } else {
        assert cs.lru[|cs.lru| - 1] in cs.lru;
      }
    }
  }

  /** With an exact list, allocating an absent tag keeps the list exact and the set within its capacity. */
  lemma AllocateExact(p: Protocol, assoc: nat, cs: CacheSet, t: nat, st: LineState)
    requires cs.Exact() && assoc >= 1 && t !in cs.lines && |cs.lines| <= assoc
    ensures Full(assoc, cs) ==> |cs.lru| > 0
    ensures var r := Allocate(p, assoc, cs, t, st); r.Exact() && |r.lines| <= assoc
  {
    FullIsListed(assoc, cs);
    AllocateListed(p, assoc, cs, t, st);
    EvictedExact(p, assoc, cs);
    var rest := EvictedList(p, assoc, cs);
    var kept := cs.lines - Evicted(p, assoc, cs);
    var r := Allocate(p, assoc, cs, t, st);
    assert t !in rest;
    assert Distinct([t] + rest);
    InsertCard(kept, t, st);
  }

  lemma EvictedExact(p: Protocol, assoc: nat, cs: CacheSet)
    requires cs.Exact() && assoc >= 1 && |cs.lines| <= assoc
    requires Full(assoc, cs) ==> |cs.lru| > 0
    ensures var rest, kept := EvictedList(p, assoc, cs), cs.lines - Evicted(p, assoc, cs);
            Distinct(rest) && |kept| < assoc && forall x :: x in rest <==> x in kept
  {
    var rest, kept := EvictedList(p, assoc, cs), cs.lines - Evicted(p, assoc, cs);
    if Full(assoc, cs) {
      var i := VictimAt(p, cs);
      CutAt(cs.lru, i);
      forall x
        ensures x in rest <==> x in cs.lru && x != cs.lru[i]
      {
        CutKeeps(cs.lru, i, x);
      }
      assert kept.Keys == cs.lines.Keys - {cs.lru[i]};
      assert |kept| == |kept.Keys| && |cs.lines| == |cs.lines.Keys|;
    }
  }

  lemma FindExact(cs: CacheSet, t: nat)
    requires cs.Exact()
    ensures Find(cs, t).Exact()
  {
    if t in cs.lines {
      RemoveDistinct(cs.lru, t);
    }
  }

  /** Allocating over a line that is still resident (Invalid) is what breaks exactness: the result is
      exact if and only if the allocated tag does not survive the eviction. */
  lemma AllocateExactIff(p: Protocol, assoc: nat, cs: CacheSet, t: nat, st: LineState)
    requires cs.Exact() && assoc >= 1 && |cs.lines| <= assoc && (Full(assoc, cs) ==> |cs.lru| > 0)
    ensures Allocate(p, assoc, cs, t, st).Exact() <==> t !in EvictedList(p, assoc, cs)
  {
    EvictedExact(p, assoc, cs);
    var rest := EvictedList(p, assoc, cs);
    var r := Allocate(p, assoc, cs, t, st);
    if t in rest {
      var i: nat :| i < |rest| && rest[i] == t;
      assert r.lru[0] == r.lru[i + 1];
    } else {
      assert forall i: nat, j: nat :: i < j < |r.lru| ==>
                                        r.lru[j] == rest[j - 1] && (i > 0 ==> r.lru[i] == rest[i - 1]);
    }
  }

  lemma UpdateCard(m: map<nat, LineState>, t: nat, st: LineState)
    ensures |m[t := st]| == |m| + if t in m then 0 else 1
  {
    if t in m {
      assert m[t := st].Keys == m.Keys;
      assert |m[t := st]| == |m[t := st].Keys| && |m| == |m.Keys|;
    } else {
      InsertCard(m, t, st);
    }
  }

  lemma DropCard(m: map<nat, LineState>, v: nat)
    ensures |m - {v}| == |m| - if v in m then 1 else 0
  {
    assert (m - {v}).Keys == m.Keys - {v};
    assert |m - {v}| == |(m - {v}).Keys| && |m| == |m.Keys|;
    assert v !in m ==> m.Keys - {v} == m.Keys;
  }

  /** When a set within its capacity stays within it, for every protocol: exactly if it was not full, or the entry
      chosen for eviction is resident and not stale, or the allocated tag is still resident itself. */
  lemma AllocateCapacity(p: Protocol, assoc: nat, cs: CacheSet, t: nat, st: LineState)
    requires assoc >= 1 && |cs.lines| <= assoc && (Full(assoc, cs) ==> |cs.lru| > 0)
    ensures |Allocate(p, assoc, cs, t, st).lines| <= assoc
            <==> !Full(assoc, cs) || cs.lru[VictimAt(p, cs)] in cs.lines || t in cs.lines
  {
    UpdateCard(cs.lines - Evicted(p, assoc, cs), t, st);
    if Full(assoc, cs) {
      DropCard(cs.lines, cs.lru[VictimAt(p, cs)]);
    } else {
      assert cs.lines - {} == cs.lines;
    }
  }

  // ----- filling a two-way MESI set with an absent tag -----

  lemma Grows(c: CacheSet, keys: set<nat>, t: nat, st: LineState)
    requires c.lines.Keys == keys && |keys| < 2 && t !in keys
    ensures !Full(2, c) && Allocate(Mesi, 2, Find(c, t), t, st) == CacheSet([t] + c.lru, c.lines[t := st])
  {
    KeyCount(c, keys);
    assert c.lines - {} == c.lines;
  }

  lemma EvictsBack(c: CacheSet, keys: set<nat>, t: nat, st: LineState)
    requires c.lines.Keys == keys && |keys| == 2 && t !in keys && |c.lru| == 3
    ensures Full(2, c)
            && Allocate(Mesi, 2, Find(c, t), t, st)
                == CacheSet([t, c.lru[0], c.lru[1]], (c.lines - {c.lru[2]})[t := st])
  {
    KeyCount(c, keys);
    assert Cut(c.lru, 2) == [c.lru[0], c.lru[1]];
  }

  lemma KeyCount(c: CacheSet, keys: set<nat>)
    requires c.lines.Keys == keys
    ensures |c.lines| == |keys|
  {
    assert |c.lines| == |c.lines.Keys|;
  }
}
