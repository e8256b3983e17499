/**
 Conservation of the cache counters over every run: misses against replacements,
 invalidations and resident blocks; lines made dirty against write-backs and
 resident dirty blocks; and the calls to the next level against both.
 */
module CacheCounters {
  import opened Defs
  import opened Sequences
  import opened SetAssoc

  ghost function ValidOne(l: Line): int { if l.valid then 1 else 0 }

  ghost function DirtyOne(l: Line): int { if l.valid && l.dirty then 1 else 0 }

  ghost function ValidLines(lines: seq<Line>): int { SumBy(lines, ValidOne) }

  ghost function DirtyLines(lines: seq<Line>): int { SumBy(lines, DirtyOne) }

  /** The number of valid lines in the whole cache. */
  ghost function Resident(c: Cache): int { SumBy(c.sets, ValidLines) }

  /** The number of valid dirty lines in the whole cache. */
  ghost function ResidentDirty(c: Cache): int { SumBy(c.sets, DirtyLines) }

  function CallCount(calls: seq<Call>, cmd: Command): nat {
    if calls == [] then 0
    else CallCount(calls[..|calls| - 1], cmd) + if calls[|calls| - 1].cmd == cmd then 1 else 0
  }

  lemma CallCountAdd(calls: seq<Call>, call: Call, cmd: Command)
    ensures CallCount(calls + [call], cmd) == CallCount(calls, cmd) + if call.cmd == cmd then 1 else 0
  {
    assert (calls + [call])[..|calls|] == calls;
  }

  /** How many lines the operation turns from clean or absent to dirty. */
  function MadeDirty(g: Geometry, c: Cache, op: Op): nat
    requires |c.sets| == g.NumSets()
  {
    if !op.Access? || op.cmd == Read then 0
    else
      var lines := c.sets[g.SetOf(op.addr)];
      var i := FindTag(lines, g.Tag(op.addr));
      if i < |lines| && lines[i].dirty then 0 else 1
  }

  ghost function TotalMadeDirty(g: Geometry, ops: seq<Op>): nat
    requires g.Valid()
  {
    if ops == [] then 0
    else
      var n := |ops| - 1;
      TotalMadeDirty(g, ops[..n]) + MadeDirty(g, After(g, ops[..n]), ops[n])
  }

  /** The books balance: `d` lines have been made dirty so far. */
  ghost predicate Books(c: Cache, d: int) {
    && c.misses == c.replacements + c.invalidations + Resident(c)
    && d == c.writebacks + ResidentDirty(c)
    && CallCount(c.calls, Read) == c.misses
    && CallCount(c.calls, Write) == c.writebacks
  }

  /** Conservation over every run, for every policy. */
  lemma {:induction false} RunConserves(g: Geometry, ops: seq<Op>)
    requires g.Valid()
    ensures Books(After(g, ops), TotalMadeDirty(g, ops))
  {
    if ops == [] {
      FreshEmpty(g);
    } else {
      var n := |ops| - 1;
      RunConserves(g, ops[..n]);
      StepBooks(g, After(g, ops[..n]), ops[n], TotalMadeDirty(g, ops[..n]));
    }
  }

  // ---- sums ----

  lemma {:induction false} SumConcat<T>(a: seq<T>, b: seq<T>, f: T -> int)
    ensures SumBy(a + b, f) == SumBy(a, f) + SumBy(b, f)
  {
    if b == [] {
      assert a + b == a;
    } else {
      var n := |b| - 1;
      SumConcat(a, b[..n], f);
      assert (a + b)[..|a| + n] == a + b[..n];
    }
  }

  lemma SumRotate<T>(a: seq<T>, x: T, b: seq<T>, f: T -> int)
    ensures SumBy([x] + a + b, f) == SumBy(a + [x] + b, f) == SumBy(a + b + [x], f)
  {
    SumConcat([x] + a, b, f);
    SumConcat([x], a, f);
    SumConcat(a + [x], b, f);
    SumConcat(a, [x], f);
    SumConcat(a + b, [x], f);
    SumConcat(a, b, f);
  }

  lemma SumMove<T>(s: seq<T>, i: nat, f: T -> int)
    requires i < |s|
    ensures SumBy(ToHead(s, i), f) == SumBy(s, f) && SumBy(ToTail(s, i), f) == SumBy(s, f)
  {
    SplitAt(s, i);
    SumRotate(s[..i], s[i], s[i + 1..], f);
  }

  lemma SplitAt<T>(s: seq<T>, i: nat)
    requires i < |s|
    ensures s[..i] + [s[i]] + s[i + 1..] == s
  {
  }

  lemma FreshEmpty(g: Geometry)
    ensures Resident(Fresh(g)) == 0 && ResidentDirty(Fresh(g)) == 0
  {
    var c := Fresh(g);
    forall s | 0 <= s < |c.sets|
      ensures ValidLines(c.sets[s]) == 0 && DirtyLines(c.sets[s]) == 0
    {
      SumZero(c.sets[s], ValidOne);
      SumZero(c.sets[s], DirtyOne);
    }
    SumZero(c.sets, ValidLines);
    SumZero(c.sets, DirtyLines);
  }

  /** Replacing one line changes the totals by that line. */
  lemma PokeSums(c: Cache, s: nat, i: nat, l: Line)
    requires s < |c.sets| && i < |c.sets[s]|
    ensures var d := SetLines(c, s, c.sets[s][i := l]);
            && Resident(d) == Resident(c) - ValidOne(c.sets[s][i]) + ValidOne(l)
            && ResidentDirty(d) == ResidentDirty(c) - DirtyOne(c.sets[s][i]) + DirtyOne(l)
  {
    var lines := c.sets[s];
    SumUpdate(lines, ValidOne, i, l);
    SumUpdate(lines, DirtyOne, i, l);
    SumUpdate(c.sets, ValidLines, s, lines[i := l]);
    SumUpdate(c.sets, DirtyLines, s, lines[i := l]);
  }

  lemma MoveSums(c: Cache, s: nat, i: nat, moved: seq<Line>)
    requires s < |c.sets| && i < |c.sets[s]|
    requires moved == ToHead(c.sets[s], i) || moved == ToTail(c.sets[s], i)
    ensures var d := SetLines(c, s, moved);
            Resident(d) == Resident(c) && ResidentDirty(d) == ResidentDirty(c)
  {
    SumMove(c.sets[s], i, ValidOne);
    SumMove(c.sets[s], i, DirtyOne);
    SumUpdate(c.sets, ValidLines, s, moved);
    SumUpdate(c.sets, DirtyLines, s, moved);
  }

  // ---- the steps ----

  lemma DiscardSums(g: Geometry, c: Cache, s: nat, i: nat)
    requires s < |c.sets| && i < |c.sets[s]| && c.sets[s][i].valid
    ensures var d := Discard(g, c, s, i);
            && Resident(d) == Resident(c) - 1
            && ResidentDirty(d) + d.writebacks == ResidentDirty(c) + c.writebacks
            && CallCount(d.calls, Read) == CallCount(c.calls, Read)
            && CallCount(d.calls, Write) - d.writebacks == CallCount(c.calls, Write) - c.writebacks
  {
    var l := c.sets[s][i];
    PokeSums(c, s, i, l.(valid := false));
    var call := Call(Write, g.MakeBlock(l.tag, s));
    CallCountAdd(c.calls, call, Read);
    CallCountAdd(c.calls, call, Write);
  }

  lemma FillSums(g: Geometry, c: Cache, s: nat, i: nat, addr: Address)
    requires s < |c.sets| && i < |c.sets[s]| && !c.sets[s][i].valid
    ensures var d := Fill(g, c, s, i, addr);
            && Resident(d) == Resident(c) + 1 && ResidentDirty(d) == ResidentDirty(c)
            && CallCount(d.calls, Read) == CallCount(c.calls, Read) + 1
            && CallCount(d.calls, Write) == CallCount(c.calls, Write)
  {
    PokeSums(c, s, i, Line(g.Tag(addr), true, false));
    CallCountAdd(c.calls, Call(Read, g.Block(addr)), Read);
    CallCountAdd(c.calls, Call(Read, g.Block(addr)), Write);
  }

  lemma MarkSums(c: Cache, s: nat, i: nat, cmd: Command)
    requires s < |c.sets| && i < |c.sets[s]| && c.sets[s][i].valid
    ensures var d := MarkDirty(c, s, i, cmd);
            && Resident(d) == Resident(c)
            && ResidentDirty(d) == ResidentDirty(c) + if cmd == Write && !c.sets[s][i].dirty then 1 else 0
  {
    PokeSums(c, s, i, c.sets[s][i].(dirty := true));
  }

  lemma HitBooks(g: Geometry, c: Cache, s: nat, i: nat, cmd: Command, n: int)
    requires s < |c.sets| && i < |c.sets[s]| && c.sets[s][i].valid && Books(c, n)
    ensures Books(HitAt(g, c, s, i, cmd), n + if cmd == Write && !c.sets[s][i].dirty then 1 else 0)
  {
    var h := c.(hits := c.hits + 1);
    MarkSums(h, s, i, cmd);
    var d := MarkDirty(h, s, i, cmd);
    MoveSums(d, s, i, ToHead(d.sets[s], i));
  }

  /** The books in the middle of a miss: it is counted, its line is free, and its fetch is still to come. */
  ghost predicate MissOpen(c: Cache, d: int) {
    && c.misses == c.replacements + c.invalidations + Resident(c) + 1
    && d == c.writebacks + ResidentDirty(c)
    && CallCount(c.calls, Read) + 1 == c.misses
    && CallCount(c.calls, Write) == c.writebacks
  }

  lemma OpenMiss(g: Geometry, c: Cache, s: nat, i: nat, n: int)
    requires s < |c.sets| && i < |c.sets[s]| && Books(c, n)
    ensures MissOpen(Vacate(g, c, s, i), n)
  {
    var m := c.(misses := c.misses + 1);
    if m.sets[s][i].valid {
      DiscardSums(g, m.(replacements := m.replacements + 1), s, i);
    }
  }

  lemma CloseMiss(g: Geometry, c: Cache, s: nat, i: nat, cmd: Command, addr: Address, n: int)
    requires s < |c.sets| && i < |c.sets[s]| && !c.sets[s][i].valid && MissOpen(c, n)
    ensures Books(MarkDirty(Fill(g, c, s, i, addr), s, i, cmd), n + if cmd == Write then 1 else 0)
  {
    FillSums(g, c, s, i, addr);
    MarkSums(Fill(g, c, s, i, addr), s, i, cmd);
  }

  lemma ReplaceBooks(g: Geometry, c: Cache, s: nat, i: nat, cmd: Command, addr: Address, n: int)
    requires s < |c.sets| && i < |c.sets[s]| && Books(c, n)
    ensures Books(ReplaceAt(g, c, s, i, cmd, addr), n + if cmd == Write then 1 else 0)
  {
    OpenMiss(g, c, s, i, n);
    CloseMiss(g, Vacate(g, c, s, i), s, i, cmd, addr, n);
  }

  lemma MissBooks(g: Geometry, c: Cache, s: nat, cmd: Command, addr: Address, pick: nat, n: int)
    requires s < |c.sets| && |c.sets[s]| > 0 && Books(c, n)
    ensures Books(Miss(g, c, s, cmd, addr, pick), n + if cmd == Write then 1 else 0)
  {
    if g.policy == Random {
      ReplaceBooks(g, c, s, pick % |c.sets[s]|, cmd, addr, n);
    } else {
      var last := |c.sets[s]| - 1;
      MoveSums(c, s, last, ToHead(c.sets[s], last));
      ReplaceBooks(g, SetLines(c, s, ToHead(c.sets[s], last)), s, 0, cmd, addr, n);
    }
  }

  lemma InvalidateBooks(g: Geometry, c: Cache, s: nat, i: nat, n: int)
    requires s < |c.sets| && i < |c.sets[s]| && Books(c, n)
    ensures Books(Invalidate(g, c, s, i), n)
  {
    if c.sets[s][i].valid {
      DiscardSums(g, c.(invalidations := c.invalidations + 1), s, i);
    }
  }

  lemma {:induction false} FlushRowBooks(g: Geometry, c: Cache, s: nat, m: nat, n: int)
    requires s < |c.sets| && m <= |c.sets[s]| && Books(c, n)
    ensures Books(FlushRow(g, c, s, m), n)
  {
    if m > 0 {
      FlushRowBooks(g, c, s, m - 1, n);
      InvalidateBooks(g, FlushRow(g, c, s, m - 1), s, m - 1, n);
    }
  }

  lemma {:induction false} FlushRowsBooks(g: Geometry, c: Cache, m: nat, n: int)
    requires m <= |c.sets| && Books(c, n)
    ensures Books(FlushRows(g, c, m), n)
  {
    if m > 0 {
      FlushRowsBooks(g, c, m - 1, n);
      var d := FlushRows(g, c, m - 1);
      FlushRowBooks(g, d, m - 1, |d.sets[m - 1]|, n);
    }
  }

  lemma StepBooks(g: Geometry, c: Cache, op: Op, n: int)
    requires Shaped(g, c) && Books(c, n)
    ensures Books(Step(g, c, op), n + MadeDirty(g, c, op))
  {
    match op
    case Access(cmd, addr, pick) =>
      var s := g.SetOf(addr);
      var lines := c.sets[s];
      var i := FindTag(lines, g.Tag(addr));
      if i < |lines| {
        HitBooks(g, c, s, i, cmd, n);
      } else {
        MissBooks(g, c, s, cmd, addr, pick, n);
      }
    case FlushBlock(addr) =>
      var s := g.SetOf(addr);
      var i := FindTag(c.sets[s], g.Tag(addr));
      if i < |c.sets[s]| {
        InvalidateBooks(g, c, s, i, n);
        var d := Invalidate(g, c, s, i);
        MoveSums(d, s, i, ToTail(d.sets[s], i));
      }
    case FlushAll =>
      FlushRowsBooks(g, c, |c.sets|, n);
  }
}
