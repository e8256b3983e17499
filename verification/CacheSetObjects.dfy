/** A cache set as the object the protocols update in place. */
module CacheSetObjects {
  import opened Defs
  import opened CacheSets

  predicate IsModified(held: map<nat, LineState>, t: nat) {
    t in held && held[t] == Modified
  }

  /** LRUCacheSet, or SmartCacheSet when the protocol is Smart. */
  class LruCacheSet {
    const protocol: Protocol
    const assoc: nat
    var lruOrder: seq<nat>
    var lines: map<nat, LineState>

    constructor (protocol: Protocol, assoc: nat)
      ensures this.protocol == protocol && this.assoc == assoc && Value() == EMPTY
    {
      this.protocol := protocol;
      this.assoc := assoc;
      lruOrder := [];
      lines := map[];
    }

    ghost function Value(): CacheSet
      reads this
    {
      CacheSet(lruOrder, lines)
    }

    /** Look a tag up, moving it to the front of the list if it is resident. */
    method FindLine(tag: nat) returns (found: bool)
      modifies this
      ensures found == (tag in old(lines))
      ensures Value() == Find(old(Value()), tag)
    {
      found := tag in lines;
      if found {
        lruOrder := Remove(lruOrder, tag);
        lruOrder := [tag] + lruOrder;
      }
    }

    method AssignState(tag: nat, state: LineState)
      requires tag in lines
      modifies this
      ensures Value() == SetState(old(Value()), tag, state)
    {
      lines := lines[tag := state];
    }

    /** The map's operator[]: a missing tag is inserted as an Invalid line. */
    method LineOrNew(tag: nat) returns (state: LineState)
      modifies this`lines
      ensures state == old(Value()).StateOf(tag)
      ensures lines == if tag in old(lines) then old(lines) else old(lines)[tag := Invalid]
    {
      if tag !in lines {
        lines := lines[tag := Invalid];
      }
      state := lines[tag];
    }

    /** SMART's scan from the back of the list for an entry that is not Modified. */
    method ScanForClean() returns (at: nat)
      modifies this`lines
      ensures at == LastClean(old(Value()), |lruOrder|)
      ensures at < |lruOrder| ==>
        lines == if lruOrder[at] in old(lines) then old(lines) else old(lines)[lruOrder[at] := Invalid]
      ensures at == |lruOrder| ==> lines == old(lines)
    {
      var i := |lruOrder|;
      while i > 0
        invariant 0 <= i <= |lruOrder|
        invariant lines == old(lines)
        invariant forall j :: i <= j < |lruOrder| ==> old(Value()).StateOf(lruOrder[j]) == Modified
      {
        i := i - 1;
        var state := LineOrNew(lruOrder[i]);
        if state != Modified {
          LastCleanIs(old(Value()), |lruOrder|, i);
          return i;
        }
      }
      LastCleanIs(old(Value()), |lruOrder|, |lruOrder|);
      at := |lruOrder|;
    }

    /** SMART made room at `i`: every entry behind is Modified, and the entry taken only if it is the back and all
        are. */
    ghost predicate TakenBySmart(order: seq<nat>, held: map<nat, LineState>, tag: nat, evicted: Option<LineState>,
                                 i: nat)
      requires i < |order|
      reads this
    {
      var victim := order[i];
      && lruOrder == [tag] + order[..i] + order[i + 1..] && lines == (held - {victim})[tag := Invalid]
      && evicted == Some(if victim in held then held[victim] else Invalid)
      && (forall j :: i < j < |order| ==> IsModified(held, order[j]))
      && (IsModified(held, victim) ==> i == |order| - 1 && forall j :: 0 <= j < i ==> IsModified(held, order[j]))
    }

    /** Discard the victim of a full set. */
    method Evict() returns (state: LineState)
      requires Full(assoc, Value()) && |lruOrder| > 0
      modifies this
      ensures lruOrder == EvictedList(protocol, assoc, old(Value()))
      ensures lines == old(lines) - Evicted(protocol, assoc, old(Value()))
      ensures state == EvictedState(protocol, assoc, old(Value()))
    {
      var at := |lruOrder|;
      if protocol == Smart {
        at := ScanForClean();
      }
      if at == |lruOrder| {
        at := |lruOrder| - 1;
      }
      assert at == VictimAt(protocol, old(Value()));
      var victim := lruOrder[at];
      state := LineOrNew(victim);
      assert lines - {victim} == old(lines) - {victim};
      lines := lines - {victim};
      lruOrder := lruOrder[..at] + lruOrder[at + 1..];
    }

    /** Make room if the set is full, and install the tag as an Invalid line in front.  The back of the list goes; in
        SMART the rearmost entry that is not Modified, or the back if all are. */
    method AllocateLine(tag: nat) returns (evicted: Option<LineState>)
      requires Full(assoc, Value()) ==> |lruOrder| > 0
      modifies this
      ensures Value() == Allocate(protocol, assoc, old(Value()), tag, Invalid)
      ensures evicted == if Full(assoc, old(Value())) then Some(EvictedState(protocol, assoc, old(Value()))) else None
      ensures |old(lines)| < assoc ==>
                evicted == None && lruOrder == [tag] + old(lruOrder) && lines == old(lines)[tag := Invalid]
      ensures |old(lines)| >= assoc && protocol != Smart ==>
                var n := |old(lruOrder)| - 1;
                var back := old(lruOrder)[n];
                && lruOrder == [tag] + old(lruOrder)[..n] && lines == (old(lines) - {back})[tag := Invalid]
                && evicted == Some(if back in old(lines) then old(lines)[back] else Invalid)
      ensures |old(lines)| >= assoc && protocol == Smart ==>
                exists i: nat :: i < |old(lruOrder)| && TakenBySmart(old(lruOrder), old(lines), tag, evicted, i)
    {
      evicted := None;
      if |lines| >= assoc {
        var state := Evict();
        evicted := Some(state);
      } else {
        assert lines - {} == lines;
      }
      lruOrder := [tag] + lruOrder;
      lines := lines[tag := Invalid];
      if Full(assoc, old(Value())) && protocol == Smart {
        ghost var i := VictimAt(Smart, old(Value()));
        SmartVictim(old(Value()));
        assert TakenBySmart(old(lruOrder), old(lines), tag, evicted, i);
      }
    }
  }

  lemma SmartVictim(cs: CacheSet)
    requires |cs.lru| > 0
    ensures var i := VictimAt(Smart, cs);
            && (forall j :: i < j < |cs.lru| ==> IsModified(cs.lines, cs.lru[j]))
            && (IsModified(cs.lines, cs.lru[i]) ==>
                 i == |cs.lru| - 1 && forall j :: 0 <= j < i ==> IsModified(cs.lines, cs.lru[j]))
  {
    var n := LastClean(cs, |cs.lru|);
    forall j | 0 <= j < |cs.lru|
      ensures cs.StateOf(cs.lru[j]) == Modified <==> IsModified(cs.lines, cs.lru[j])
    {
    }
  }

  /** `LastClean` is the last clean position, wherever it was found. */
  lemma LastCleanIs(cs: CacheSet, n: nat, i: nat)
    requires n <= |cs.lru| && i <= n
    requires i < n ==> cs.StateOf(cs.lru[i]) != Modified
    requires forall j :: 0 <= j < n && (i < j || i == n) ==> cs.StateOf(cs.lru[j]) == Modified
    ensures LastClean(cs, n) == i
  {
    var m := LastClean(cs, n);
  }
}
