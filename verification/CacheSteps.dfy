/**
 The operations of the reference cache in closed form, one update of one set at a
 time, and the relation between a sequence of operations and the state it reaches.
 */
module CacheSteps {
  import opened Defs
  import opened Bits
  import opened Sequences
  import opened SetAssoc
  import opened LineOrder
  import opened CacheRuns
  import opened CacheBlocks

  ghost predicate Same(a: seq<Op>, b: seq<Op>) {
    a == b
  }

  /** `c` is the reference cache after `ops`; said of every equal sequence, so that `After` is unfolded on demand
      only. */
  ghost predicate Reaches(g: Geometry, ops: seq<Op>, c: Cache) {
    g.Valid() && forall h {:trigger Same(h, ops)} :: Same(h, ops) ==> After(g, h) == c
  }

  lemma ReachesAfter(g: Geometry, ops: seq<Op>, c: Cache)
    ensures Reaches(g, ops, c) <==> g.Valid() && After(g, ops) == c
  {
    assert Same(ops, ops);
  }

  lemma ReachesShape(g: Geometry, ops: seq<Op>, c: Cache, s: nat)
    requires Reaches(g, ops, c) && s < g.NumSets()
    ensures |c.sets| == g.NumSets() && |c.sets[s]| == g.assoc && Unique(c.sets[s])
  {
    ReachesAfter(g, ops, c);
    RunUnique(g, ops, s);
  }

  lemma ReachesStep(g: Geometry, ops: seq<Op>, c: Cache, op: Op)
    requires Reaches(g, ops, c)
    ensures Shaped(g, c) && Reaches(g, ops + [op], Step(g, c, op))
  {
    ReachesAfter(g, ops, c);
    assert (ops + [op])[..|ops|] == ops;
    ReachesAfter(g, ops + [op], Step(g, c, op));
  }

  /** Whether the last operation that could change it left a block remembered: a hit does, a miss, a flush
      and the flush of a resident block do not. */
  predicate Remembers(g: Geometry, ops: seq<Op>)
    requires g.Valid()
  {
    ops != [] &&
    var n := |ops| - 1;
    match ops[n]
    case Access(_, addr, _) => Hits(g, After(g, ops[..n]), addr)
    case FlushBlock(addr) => !Hits(g, After(g, ops[..n]), addr) && Remembers(g, ops[..n])
    case FlushAll => false
  }

  ghost predicate Recalls(g: Geometry, ops: seq<Op>, b: bool) {
    g.Valid() && forall h {:trigger Same(h, ops)} :: Same(h, ops) ==> Remembers(g, h) == b
  }

  lemma RecallsIs(g: Geometry, ops: seq<Op>, b: bool)
    ensures Recalls(g, ops, b) <==> g.Valid() && Remembers(g, ops) == b
  {
    assert Same(ops, ops);
  }

  lemma RecallsStep(g: Geometry, ops: seq<Op>, c: Cache, op: Op, b: bool)
    requires Reaches(g, ops, c) && Recalls(g, ops, b) && |c.sets| == g.NumSets()
    ensures op.Access? ==> Recalls(g, ops + [op], Hits(g, c, op.addr))
    ensures op.FlushBlock? ==> Recalls(g, ops + [op], !Hits(g, c, op.at) && b)
    ensures op.FlushAll? ==> Recalls(g, ops + [op], false)
  {
    ReachesAfter(g, ops, c);
    RecallsIs(g, ops, b);
    assert (ops + [op])[..|ops|] == ops;
    RecallsIs(g, ops + [op], Remembers(g, ops + [op]));
  }

  // ---- the checks of an access ----

  /** The size is a power of two that divides the address, as cache_access tests it with masks; a size of
      zero gives an all-ones mask, and a negative one always shares its sign bit with its predecessor. */
  predicate AlignmentOk(addr: Address, nbytes: int) {
    if nbytes < 0 then false
    else if nbytes == 0 then addr == 0
    else And(nbytes, nbytes - 1) == 0 && And(addr, nbytes - 1) == 0
  }

  /** The test that an access lies in one block, in 32-bit arithmetic. */
  predicate SpanOk(g: Geometry, addr: Address, nbytes: int) {
    (addr + nbytes) % TOP <= (g.Block(addr) + g.BlockSize()) % TOP
  }

  /** The mask tests of cache_access accept exactly the power-of-two sizes that divide the address, and a size of
      zero at address zero. */
  lemma AlignmentExact(addr: Address, nbytes: int)
    ensures AlignmentOk(addr, nbytes)
            <==> if nbytes == 0 then addr == 0 else nbytes > 0 && IsPow2(nbytes) && addr % nbytes == 0
  {
    if nbytes > 0 {
      MaskCheck(addr, nbytes);
    }
  }

  lemma BlockEnd(g: Geometry, addr: Address)
    requires g.Valid()
    ensures g.Block(addr) + g.BlockSize() <= TOP
  {
    DivMod(addr, g.BlockSize());
    Fields(g, addr);
    DivUnique(g.Block(addr), g.BlockSize(), addr / g.BlockSize(), 0);
    AlignedEnd(g.Block(addr), g.blkBits);
  }

  lemma AccessEnd(addr: Address, nbytes: nat)
    requires 0 < nbytes < 0x8000_0000 && AlignmentOk(addr, nbytes)
    ensures addr + nbytes <= TOP
  {
    AlignmentExact(addr, nbytes);
    TopIsPow2();
    Pow2Less(Log2(nbytes), 32);
    AlignedEnd(addr, Log2(nbytes));
  }

  lemma WrapCompare(x: nat, y: nat)
    requires 0 < x <= TOP && 0 < y <= TOP
    ensures (x % TOP <= y % TOP <==> x <= y) <==> (x == TOP <==> y == TOP)
  {
  }

  /** The span check decides whether an aligned access lies in its block exactly when the block and the
      access agree on ending at the top of memory: elsewhere the 32-bit sums wrap on one side only. */
  lemma SpanCheckExact(g: Geometry, addr: Address, nbytes: nat)
    requires g.Valid() && 0 < nbytes < 0x8000_0000 && AlignmentOk(addr, nbytes)
    ensures var end, blockEnd := addr + nbytes, g.Block(addr) + g.BlockSize();
            (SpanOk(g, addr, nbytes) <==> end <= blockEnd) <==> (end == TOP <==> blockEnd == TOP)
  {
    AccessEnd(addr, nbytes);
    BlockEnd(g, addr);
    WrapCompare(addr + nbytes, g.Block(addr) + g.BlockSize());
  }

  /** The test as the comment beside it in cache.c has it decides this for every aligned access. */
  lemma CommentedTestExact(g: Geometry, addr: Address, nbytes: nat)
    requires g.Valid() && 0 < nbytes < 0x8000_0000 && AlignmentOk(addr, nbytes)
    ensures (addr + (nbytes - 1)) % TOP <= (g.Block(addr) + (g.BlockSize() - 1)) % TOP
            <==> addr + nbytes <= g.Block(addr) + g.BlockSize()
  {
    BlockEnd(g, addr);
    AccessEnd(addr, nbytes);
    NoWrap(addr + (nbytes - 1));
    NoWrap(g.Block(addr) + (g.BlockSize() - 1));
  }

  lemma NoWrap(x: nat)
    requires x < TOP
    ensures x % TOP == x
  {
  }

  /** An access it wrongly rejects: the four bytes at 0xFFFFFFF0 lie in the last 32-byte block. */
  lemma SpanCheckRejects(g: Geometry)
    requires g.Valid() && g.blkBits == 5
    ensures AlignmentOk(0xFFFF_FFF0, 4) && !SpanOk(g, 0xFFFF_FFF0, 4)
    ensures g.Block(0xFFFF_FFF0) <= 0xFFFF_FFF0 && 0xFFFF_FFF0 + 4 <= g.Block(0xFFFF_FFF0) + g.BlockSize()
  {
    Fields(g, 0xFFFF_FFF0);
    assert g.BlockSize() == 32;
    assert IsPow2(4) by { assert IsPow2(2); }
    AlignmentExact(0xFFFF_FFF0, 4);
  }

  /** An access it wrongly admits: the gigabyte at 0xC0000000 ends at the top of memory, far beyond
      its block. */
  lemma SpanCheckAdmits(g: Geometry)
    requires g.Valid() && g.blkBits == 5
    ensures AlignmentOk(0xC000_0000, 0x4000_0000) && SpanOk(g, 0xC000_0000, 0x4000_0000)
    ensures 0xC000_0000 + 0x4000_0000 > g.Block(0xC000_0000) + g.BlockSize()
  {
    Fields(g, 0xC000_0000);
    assert g.BlockSize() == 32;
    PowersOfTwo(30);
    assert Pow2(30) == 0x4000_0000 by {
      Pow2Add(15, 15);
      assert Pow2(15) == 0x8000;
    }
    AlignmentExact(0xC000_0000, 0x4000_0000);
  }

  // ---- closed forms of the reference operations ----

  lemma HitShape(g: Geometry, c: Cache, s: nat, i: nat, cmd: Command)
    requires s < |c.sets| && i < |c.sets[s]|
    ensures var hit := c.sets[s][i := Touched(c.sets[s][i], cmd)];
            HitAt(g, c, s, i, cmd)
            == c.(hits := c.hits + 1, sets := c.sets[s := if g.policy == Lru then ToHead(hit, i) else hit])
  {
    assert c.sets[s][i := c.sets[s][i]] == c.sets[s];
    assert c.sets[s := c.sets[s]] == c.sets;
  }

  function WriteBack(g: Geometry, s: nat, l: Line): seq<Call> {
    if l.valid && l.dirty then [Call(Write, g.MakeBlock(l.tag, s))] else []
  }

  function Count(b: bool): nat {
    if b then 1 else 0
  }

  lemma ReplaceShape(g: Geometry, c: Cache, s: nat, i: nat, cmd: Command, addr: Address)
    requires s < |c.sets| && i < |c.sets[s]|
    ensures var v := c.sets[s][i];
            ReplaceAt(g, c, s, i, cmd, addr)
            == Cache(c.sets[s := c.sets[s][i := Line(g.Tag(addr), true, cmd == Write)]],
                     c.hits, c.misses + 1, c.replacements + Count(v.valid),
                     c.writebacks + Count(v.valid && v.dirty), c.invalidations,
                     c.calls + WriteBack(g, s, v) + [Call(Read, g.Block(addr))])
  {
    var v, row := c.sets[s][i], c.sets[s];
    var gone, clean, new_ := v.(valid := false), Line(g.Tag(addr), true, false), Line(g.Tag(addr), true, cmd == Write);
    Overwrite(row, i, gone, clean);
    Overwrite(row, i, clean, new_);
    Overwrite(c.sets, s, row[i := gone], row[i := clean]);
    Overwrite(c.sets, s, row[i := clean], row[i := new_]);
    assert c.calls + [] == c.calls;
  }

  lemma Overwrite<T>(q: seq<T>, i: nat, a: T, b: T)
    requires i < |q|
    ensures q[i := a][i := b] == q[i := b]
  {
  }

  lemma InvalidateShape(g: Geometry, c: Cache, s: nat, i: nat)
    requires s < |c.sets| && i < |c.sets[s]|
    ensures var v := c.sets[s][i];
            Invalidate(g, c, s, i)
            == Cache(c.sets[s := c.sets[s][i := v.(valid := false)]],
                     c.hits, c.misses, c.replacements,
                     c.writebacks + Count(v.valid && v.dirty), c.invalidations + Count(v.valid),
                     c.calls + WriteBack(g, s, v))
  {
    var v := c.sets[s][i];
    if !v.valid {
      assert v.(valid := false) == v;
      assert c.sets[s][i := v] == c.sets[s];
      assert c.sets[s := c.sets[s]] == c.sets;
      assert c.calls + [] == c.calls;
    }
  }

  lemma BlockIdempotent(g: Geometry, addr: Address)
    ensures 0 <= g.Block(addr) <= addr && g.Block(g.Block(addr)) == g.Block(addr)
    ensures g.SetOf(g.Block(addr)) == g.SetOf(addr) && g.Tag(g.Block(addr)) == g.Tag(addr)
  {
    var b := g.BlockSize();
    DivMod(addr, b);
    Fields(g, addr);
    Fields(g, g.Block(addr));
    DivUnique(g.Block(addr), b, addr / b, 0);
    SameBlock(g, g.Block(addr), addr);
  }

  lemma HitFound(lines: seq<Line>, p: nat, tag: nat, cmd: Command)
    requires Unique(lines) && p == FindTag(lines, tag) < |lines|
    ensures var hit := lines[p := Touched(lines[p], cmd)];
            FindTag(hit, tag) == p && FindTag(ToHead(hit, p), tag) == 0
  {
    var hit := lines[p := Touched(lines[p], cmd)];
    UniqueSame(lines, p, Touched(lines[p], cmd));
    FindUnique(hit, tag, p);
    UniqueMove(hit, p);
    FindUnique(ToHead(hit, p), tag, 0);
  }

  function HitTable(g: Geometry, sets: seq<seq<Line>>, addr: Address, p: nat, cmd: Command): seq<seq<Line>>
    requires |sets| == g.NumSets() && p < |sets[g.SetOf(addr)]|
  {
    var s := g.SetOf(addr);
    var hit := sets[s][p := Touched(sets[s][p], cmd)];
    sets[s := if g.policy == Lru then ToHead(hit, p) else hit]
  }

  /** The position a miss replaces, before any reordering. */
  function VictimAt(g: Geometry, lines: seq<Line>, pick: nat): (i: nat)
    requires |lines| > 0
    ensures i < |lines|
  {
    if g.policy == Random then pick % |lines| else |lines| - 1
  }

  /** The address a miss reports for the line it replaced in set `s`, 0 if that was invalid. */
  function ReplacedAddress(g: Geometry, s: nat, victim: Line): nat {
    if victim.valid then g.MakeBlock(victim.tag, s) else 0
  }

  function MissLine(g: Geometry, lines: seq<Line>, tag: nat, cmd: Command, pick: nat): seq<Line>
    requires |lines| > 0
  {
    var l := Line(tag, true, cmd == Write);
    if g.policy == Random then lines[pick % |lines| := l] else ToHead(lines, |lines| - 1)[0 := l]
  }

  lemma HitStep(g: Geometry, ops: seq<Op>, c: Cache, cmd: Command, addr: Address, p: nat)
    requires Reaches(g, ops, c) && |c.sets| == g.NumSets()
    requires p == FindTag(c.sets[g.SetOf(addr)], g.Tag(addr)) < |c.sets[g.SetOf(addr)]|
    ensures Reaches(g, ops + [Op.Access(cmd, addr, 0)],
                    c.(hits := c.hits + 1, sets := HitTable(g, c.sets, addr, p, cmd)))
  {
    ReachesStep(g, ops, c, Op.Access(cmd, addr, 0));
    HitShape(g, c, g.SetOf(addr), p, cmd);
  }

  lemma PickIs(g: Geometry, lines: seq<Line>, tag: nat, cmd: Command, i: nat)
    requires i < |lines| && (g.policy != Random ==> i == |lines| - 1)
    ensures var pick, l := if g.policy == Random then i else 0, Line(tag, true, cmd == Write);
            && VictimAt(g, lines, pick) == i
            && MissLine(g, lines, tag, cmd, pick)
               == if g.policy == Random then lines[i := l] else ToHead(lines, i)[0 := l]
  {
    DivUnique(i, |lines|, 0, i);
  }

  /** The whole state after a miss in which `v` is the line replaced. */
  function MissCache(g: Geometry, c: Cache, cmd: Command, addr: Address, pick: nat, v: Line): Cache
    requires g.SetOf(addr) < |c.sets| && |c.sets[g.SetOf(addr)]| > 0
  {
    var s := g.SetOf(addr);
    Cache(c.sets[s := MissLine(g, c.sets[s], g.Tag(addr), cmd, pick)],
          c.hits, c.misses + 1, c.replacements + Count(v.valid),
          c.writebacks + Count(v.valid && v.dirty), c.invalidations,
          c.calls + WriteBack(g, s, v) + [Call(Read, g.Block(addr))])
  }

  lemma MissStep(g: Geometry, ops: seq<Op>, c: Cache, cmd: Command, addr: Address, pick: nat)
    requires Reaches(g, ops, c) && |c.sets| == g.NumSets() && |c.sets[g.SetOf(addr)]| > 0
    requires FindTag(c.sets[g.SetOf(addr)], g.Tag(addr)) == |c.sets[g.SetOf(addr)]|
    ensures var lines := c.sets[g.SetOf(addr)];
            Reaches(g, ops + [Op.Access(cmd, addr, pick)],
                    MissCache(g, c, cmd, addr, pick, lines[VictimAt(g, lines, pick)]))
  {
    var s := g.SetOf(addr);
    var lines := c.sets[s];
    var last := |lines| - 1;
    ReachesStep(g, ops, c, Op.Access(cmd, addr, pick));
    if g.policy == Random {
      ReplaceShape(g, c, s, pick % |lines|, cmd, addr);
    } else {
      ReplaceShape(g, SetLines(c, s, ToHead(lines, last)), s, 0, cmd, addr);
      Overwrite(c.sets, s, ToHead(lines, last), MissLine(g, lines, g.Tag(addr), cmd, pick));
    }
  }

  /** The whole state after flushing the block found at position `p`. */
  function DropCache(g: Geometry, c: Cache, addr: Address, p: nat): Cache
    requires g.SetOf(addr) < |c.sets| && p < |c.sets[g.SetOf(addr)]|
  {
    var s := g.SetOf(addr);
    var v := c.sets[s][p];
    Cache(c.sets[s := ToTail(c.sets[s][p := v.(valid := false)], p)],
          c.hits, c.misses, c.replacements, c.writebacks + Count(v.valid && v.dirty),
          c.invalidations + Count(v.valid), c.calls + WriteBack(g, s, v))
  }

  lemma DropStep(g: Geometry, ops: seq<Op>, c: Cache, addr: Address, p: nat)
    requires Reaches(g, ops, c) && |c.sets| == g.NumSets()
    requires p == FindTag(c.sets[g.SetOf(addr)], g.Tag(addr))
    ensures Reaches(g, ops + [FlushBlock(addr)],
                    if p < |c.sets[g.SetOf(addr)]| then DropCache(g, c, addr, p) else c)
  {
    var s := g.SetOf(addr);
    ReachesStep(g, ops, c, FlushBlock(addr));
    if p < |c.sets[s]| {
      InvalidateShape(g, c, s, p);
      var row := c.sets[s][p := c.sets[s][p].(valid := false)];
      Overwrite(c.sets, s, row, ToTail(row, p));
    }
  }

  lemma FlushStep(g: Geometry, ops: seq<Op>, c: Cache)
    requires Reaches(g, ops, c)
    ensures Reaches(g, ops + [FlushAll], FlushRows(g, c, |c.sets|))
  {
    ReachesStep(g, ops, c, FlushAll);
  }
}
