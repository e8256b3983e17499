/**
 Theorems about every sequence of operations on a new set-associative cache:
 LRU inclusion, conservation of the counters, the discipline of the calls to the
 next level, and what LRU and FIFO replace.
 */
module CacheRuns {
  import opened Sequences
  import opened SetAssoc
  import opened LineOrder

  lemma {:induction false} RunUnique(g: Geometry, ops: seq<Op>, k: nat)
    requires g.Valid() && k < g.NumSets()
    ensures Unique(After(g, ops).sets[k])
  {
    if ops != [] {
      var n := |ops| - 1;
      RunUnique(g, ops[..n], k);
      StepLines(g, After(g, ops[..n]), ops[n], k);
      UniqueStep(g, k, After(g, ops[..n]).sets[k], ops[n]);
    }
  }

  /** Under LRU and FIFO the valid lines are the front of every set, so a valid line is replaced only when the set is
      full. */
  lemma {:induction false} RunPacked(g: Geometry, ops: seq<Op>, k: nat)
    requires g.Valid() && k < g.NumSets() && g.policy != Random
    ensures Packed(After(g, ops).sets[k])
  {
    if ops != [] {
      var n := |ops| - 1;
      RunPacked(g, ops[..n], k);
      StepLines(g, After(g, ops[..n]), ops[n], k);
      PackedStep(g, k, After(g, ops[..n]).sets[k], ops[n]);
    }
  }

  // ---- inclusion ----

  predicate Nested(g: Geometry, h: Geometry) {
    && g.Valid() && h.Valid()
    && g.policy == Lru && h.policy == Lru
    && g.setBits == h.setBits && g.blkBits == h.blkBits
    && g.assoc <= h.assoc
  }

  /** LRU stack inclusion: after any operations the blocks of the smaller cache are the front of the larger one. */
  lemma {:induction false} RunInside(g: Geometry, h: Geometry, ops: seq<Op>, k: nat)
    requires Nested(g, h) && k < g.NumSets()
    ensures Inside(After(g, ops).sets[k], After(h, ops).sets[k])
  {
    if ops != [] {
      var n := |ops| - 1;
      var c, d, op := After(g, ops[..n]), After(h, ops[..n]), ops[n];
      RunInside(g, h, ops[..n], k);
      RunUnique(h, ops[..n], k);
      RunPacked(g, ops[..n], k);
      StepLines(g, c, op, k);
      StepLines(h, d, op, k);
      InsideStep(g, h, k, c.sets[k], d.sets[k], op);
    }
  }

  lemma InsideStep(g: Geometry, h: Geometry, k: nat, small: seq<Line>, large: seq<Line>, op: Op)
    requires Nested(g, h) && 0 < |small| <= |large|
    requires Inside(small, large) && Unique(large) && Packed(small)
    ensures Inside(LinesStep(g, k, small, op), LinesStep(h, k, large, op))
  {
    SameFields(g, h);
    match op
    case Access(cmd, addr, pick) =>
      if g.SetOf(addr) == k {
        InsideAccess(small, large, g.Tag(addr), cmd, pick);
      }
    case FlushBlock(at) =>
      if g.SetOf(at) == k {
        InsideDrop(small, large, g.Tag(at));
      }
    case FlushAll =>
      InsideCleared(small, large);
  }

  lemma SameFields(g: Geometry, h: Geometry)
    requires Nested(g, h)
    ensures forall a: Address :: g.SetOf(a) == h.SetOf(a)
    ensures forall a: Address :: g.Tag(a) == h.Tag(a)
  {
  }

  /** Every hit in the smaller cache is a hit in the larger one. */
  lemma HitInLarger(g: Geometry, h: Geometry, ops: seq<Op>, addr: Address)
    requires Nested(g, h) && Hits(g, After(g, ops), addr)
    ensures Hits(h, After(h, ops), addr)
  {
    var k := g.SetOf(addr);
    RunInside(g, h, ops, k);
    RunUnique(h, ops, k);
    RunPacked(g, ops, k);
    InsideFinds(After(g, ops).sets[k], After(h, ops).sets[k], g.Tag(addr));
  }

  predicate IsHit(g: Geometry, c: Cache, op: Op)
    requires |c.sets| == g.NumSets()
  {
    op.Access? && Hits(g, c, op.addr)
  }

  lemma {:induction false} FlushRowCounts(g: Geometry, c: Cache, s: nat, n: nat)
    requires s < |c.sets| && n <= |c.sets[s]|
    ensures var d := FlushRow(g, c, s, n);
            d.hits == c.hits && d.misses == c.misses && d.replacements == c.replacements
  {
    if n > 0 {
      FlushRowCounts(g, c, s, n - 1);
    }
  }

  lemma {:induction false} FlushRowsCounts(g: Geometry, c: Cache, m: nat)
    requires m <= |c.sets|
    ensures var d := FlushRows(g, c, m);
            d.hits == c.hits && d.misses == c.misses && d.replacements == c.replacements
  {
    if m > 0 {
      FlushRowsCounts(g, c, m - 1);
      var d := FlushRows(g, c, m - 1);
      FlushRowCounts(g, d, m - 1, |d.sets[m - 1]|);
    }
  }

  lemma StepCounts(g: Geometry, c: Cache, op: Op)
    requires Shaped(g, c)
    ensures var d := Step(g, c, op);
            && d.hits == c.hits + (if IsHit(g, c, op) then 1 else 0)
            && d.misses == c.misses + (if op.Access? && !IsHit(g, c, op) then 1 else 0)
  {
    match op
    case Access(cmd, addr, pick) =>
      var s := g.SetOf(addr);
      var i := FindTag(c.sets[s], g.Tag(addr));
      if i < |c.sets[s]| {
        assert Step(g, c, op) == HitAt(g, c, s, i, cmd);
      } else {
        MissCounts(g, c, s, cmd, addr, pick);
      }
    case FlushBlock(addr) =>
    case FlushAll =>
      FlushRowsCounts(g, c, |c.sets|);
  }

  lemma MissCounts(g: Geometry, c: Cache, s: nat, cmd: Command, addr: Address, pick: nat)
    requires s < |c.sets| && |c.sets[s]| > 0
    ensures var d := Miss(g, c, s, cmd, addr, pick); d.hits == c.hits && d.misses == c.misses + 1
  {
  }

  /** A larger LRU cache has at least the hits and at most the misses of a smaller one. */
  lemma {:induction false} HitsMonotone(g: Geometry, h: Geometry, ops: seq<Op>)
    requires Nested(g, h)
    ensures After(g, ops).hits <= After(h, ops).hits
    ensures After(h, ops).misses <= After(g, ops).misses
    ensures After(g, ops).hits + After(g, ops).misses == After(h, ops).hits + After(h, ops).misses
  {
    if ops != [] {
      var n := |ops| - 1;
      HitsMonotone(g, h, ops[..n]);
      StepCounts(g, After(g, ops[..n]), ops[n]);
      StepCounts(h, After(h, ops[..n]), ops[n]);
      if IsHit(g, After(g, ops[..n]), ops[n]) {
        HitInLarger(g, h, ops[..n], ops[n].addr);
      }
    }
  }

  // ---- what is replaced ----

  /** The valid lines are ordered by decreasing age number. */
  ghost predicate Ordered(lines: seq<Line>, age: nat -> int) {
    forall i, j :: 0 <= i < j < |lines| && lines[i].valid && lines[j].valid
      ==> age(lines[j].tag) < age(lines[i].tag)
  }

  /** Moving a line to the head, with an age above all others, keeps the order; its old content does not matter. */
  lemma OrderedToHead(lines: seq<Line>, i: nat, l: Line, age: nat -> int, age': nat -> int)
    requires i < |lines| && Ordered(lines, age) && l.valid
    requires forall j :: 0 <= j < |lines| && j != i && lines[j].valid
               ==> age'(lines[j].tag) == age(lines[j].tag) < age'(l.tag)
    ensures Ordered(ToHead(lines[i := l], i), age')
  {
    var r := ToHead(lines[i := l], i);
    assert r[0] == l;
    assert forall b :: 0 < b < |r| ==> r[b] == lines[if b <= i then b - 1 else b];
  }

  lemma OrderedDrop(lines: seq<Line>, i: nat, age: nat -> int)
    requires i < |lines| && Ordered(lines, age)
    ensures Ordered(ToTail(lines[i := lines[i].(valid := false)], i), age)
  {
    var r := ToTail(lines[i := lines[i].(valid := false)], i);
    assert forall a :: 0 <= a < |r| - 1 ==> r[a] == lines[if a < i then a else a + 1];
    assert !r[|r| - 1].valid;
  }

  /** One more than the position of the last access to this tag in this set; 0 if there is none. */
  function LastAccess(g: Geometry, ops: seq<Op>, k: nat, tag: nat): (r: nat)
    ensures r <= |ops|
  {
    if ops == [] then 0
    else
      var op := ops[|ops| - 1];
      if op.Access? && g.SetOf(op.addr) == k && g.Tag(op.addr) == tag then |ops|
      else LastAccess(g, ops[..|ops| - 1], k, tag)
  }

  ghost function Recency(g: Geometry, ops: seq<Op>, k: nat): nat -> int {
    (tag: nat) => LastAccess(g, ops, k, tag)
  }

  /** Perfect LRU: in every run the valid lines of a set are ordered by their last access, so the one
      at the tail, which a miss replaces, is the least recently used. */
  lemma {:induction false} RunRecency(g: Geometry, ops: seq<Op>, k: nat)
    requires g.Valid() && k < g.NumSets() && g.policy == Lru
    ensures Ordered(After(g, ops).sets[k], Recency(g, ops, k))
  {
    if ops != [] {
      var n := |ops| - 1;
      RunRecency(g, ops[..n], k);
      RunUnique(g, ops[..n], k);
      StepLines(g, After(g, ops[..n]), ops[n], k);
      RecencyStep(g, ops, k, After(g, ops[..n]).sets[k]);
    }
  }

  /** What an LRU miss evicts: a valid line only from a full set, and then the one accessed the longest ago. */
  lemma LruVictim(g: Geometry, ops: seq<Op>, k: nat, i: nat)
    requires g.Valid() && k < g.NumSets() && g.policy == Lru && i < g.assoc - 1
    requires After(g, ops).sets[k][g.assoc - 1].valid
    ensures var lines := After(g, ops).sets[k];
            && lines[i].valid
            && LastAccess(g, ops, k, lines[g.assoc - 1].tag) < LastAccess(g, ops, k, lines[i].tag)
  {
    RunPacked(g, ops, k);
    RunRecency(g, ops, k);
  }

  lemma RecencyStep(g: Geometry, ops: seq<Op>, k: nat, lines: seq<Line>)
    requires ops != [] && |lines| > 0 && Unique(lines) && g.policy == Lru
    requires Ordered(lines, Recency(g, ops[..|ops| - 1], k))
    ensures Ordered(LinesStep(g, k, lines, ops[|ops| - 1]), Recency(g, ops, k))
  {
    var age, age' := Recency(g, ops[..|ops| - 1], k), Recency(g, ops, k);
    var op := ops[|ops| - 1];
    if op.Access? && g.SetOf(op.addr) == k {
      OrderedAccess(lines, g.Tag(op.addr), op.cmd, op.pick, age, age');
    } else {
      assert forall tag :: age'(tag) == age(tag);
      if op.FlushBlock? && g.SetOf(op.at) == k {
        var i := FindTag(lines, g.Tag(op.at));
        if i < |lines| {
          OrderedDrop(lines, i, age);
        }
      }
    }
  }

  lemma OrderedAccess(lines: seq<Line>, tag: nat, cmd: Command, pick: nat, age: nat -> int, age': nat -> int)
    requires |lines| > 0 && Unique(lines) && Ordered(lines, age)
    requires forall t: nat :: t != tag ==> age'(t) == age(t) < age'(tag)
    ensures Ordered(AccessLines(Lru, lines, tag, cmd, pick), age')
  {
    var i := FindTag(lines, tag);
    if i < |lines| {
      OrderedToHead(lines, i, Touched(lines[i], cmd), age, age');
    } else {
      var l := Line(tag, true, cmd == Write);
      OrderedToHead(lines, |lines| - 1, l, age, age');
      assert ToHead(lines[|lines| - 1 := l], |lines| - 1) == [l] + lines[..|lines| - 1];
    }
  }
}
