/**
 The plain set-associative cache that cache.c implements: each set is the list of
 its lines in way order, and every operation is a composition of four steps on
 one line (reorder, discard, fill, mark dirty).  No pointers, no hash table, no
 last-block shortcut.
 */
module SetAssoc {
  import opened Defs
  import opened Bits
  import opened Sequences

  datatype Policy = Lru | Fifo | Random

  type Address = Uint32

  datatype Geometry = Geometry(setBits: nat, blkBits: nat, assoc: nat, policy: Policy)
  {
    predicate Valid() {
      blkBits >= 3 && setBits + blkBits < 32 && assoc >= 1
    }

    function BlockSize(): (r: nat)
      ensures r >= 1
    {
      Pow2(blkBits)
    }

    function NumSets(): (r: nat)
      ensures r >= 1
    {
      Pow2(setBits)
    }

    function Tag(addr: Address): nat {
      High(addr, blkBits + setBits)
    }

    function SetOf(addr: Address): (s: nat)
      ensures s < NumSets()
    {
      Low(High(addr, blkBits), setBits)
    }

    /** The address with its block offset cleared; both CACHE_BADDR and CACHE_TAGSET. */
    function Block(addr: Address): nat {
      addr - Low(addr, blkBits)
    }

    /** CACHE_MK_BADDR; the shifted tag and set index have no bit in common, so `|` is a sum. */
    function MakeBlock(tag: nat, set_: nat): nat {
      Shifted(tag, blkBits + setBits) + Shifted(set_, blkBits)
    }
  }

  datatype Line = Line(tag: nat, valid: bool, dirty: bool)

  datatype Command = Read | Write

  /** A call to the block access function of the next level of memory. */
  datatype Call = Call(cmd: Command, block: nat)

  datatype Cache = Cache(sets: seq<seq<Line>>, hits: nat, misses: nat, replacements: nat,
                         writebacks: nat, invalidations: nat, calls: seq<Call>)

  /** `pick` is the pseudo-random number consumed by the Random policy. */
  datatype Op = Access(cmd: Command, addr: Address, pick: nat) | FlushBlock(at: Address) | FlushAll

  ghost predicate Shaped(g: Geometry, c: Cache) {
    && g.Valid()
    && |c.sets| == g.NumSets()
    && forall s :: 0 <= s < |c.sets| ==> |c.sets[s]| == g.assoc
  }

  function Fresh(g: Geometry): Cache {
    Cache(seq(g.NumSets(), s => seq(g.assoc, i => Line(0, false, false))), 0, 0, 0, 0, 0, [])
  }

  /** The position of the first valid line with this tag, or the length of the list. */
  function FindTag(lines: seq<Line>, tag: nat): (i: nat)
    ensures i <= |lines|
    ensures i < |lines| ==> lines[i].valid && lines[i].tag == tag
    ensures forall j :: 0 <= j < i ==> !(lines[j].valid && lines[j].tag == tag)
  {
    if lines == [] then 0
    else if lines[0].valid && lines[0].tag == tag then 0
    else
      var k := FindTag(lines[1..], tag);
      assert forall j :: 1 <= j < |lines| ==> lines[1..][j - 1] == lines[j];
      k + 1
  }

  // ---- the four steps ----

  function SetLines(c: Cache, s: nat, lines: seq<Line>): Cache
    requires s < |c.sets|
  {
    c.(sets := c.sets[s := lines])
  }

  /** Drop the line at (s, i), writing it back if it is dirty; its dirty bit stays set. */
  function Discard(g: Geometry, c: Cache, s: nat, i: nat): Cache
    requires s < |c.sets| && i < |c.sets[s]|
  {
    var l := c.sets[s][i];
    var d := SetLines(c, s, c.sets[s][i := l.(valid := false)]);
    if l.dirty then
      d.(writebacks := d.writebacks + 1, calls := d.calls + [Call(Write, g.MakeBlock(l.tag, s))])
    else d
  }

  /** Fetch the block of `addr` into line (s, i). */
  function Fill(g: Geometry, c: Cache, s: nat, i: nat, addr: Address): Cache
    requires s < |c.sets| && i < |c.sets[s]|
  {
    SetLines(c, s, c.sets[s][i := Line(g.Tag(addr), true, false)])
      .(calls := c.calls + [Call(Read, g.Block(addr))])
  }

  function MarkDirty(c: Cache, s: nat, i: nat, cmd: Command): Cache
    requires s < |c.sets| && i < |c.sets[s]|
  {
    if cmd == Write then SetLines(c, s, c.sets[s][i := c.sets[s][i].(dirty := true)]) else c
  }

  // ---- the operations ----

  function HitAt(g: Geometry, c: Cache, s: nat, i: nat, cmd: Command): Cache
    requires s < |c.sets| && i < |c.sets[s]|
  {
    var d := MarkDirty(c.(hits := c.hits + 1), s, i, cmd);
    if g.policy == Lru then SetLines(d, s, ToHead(d.sets[s], i)) else d
  }

  /** Count a miss and drop the line at (s, i) that is to be replaced. */
  function Vacate(g: Geometry, c: Cache, s: nat, i: nat): (d: Cache)
    requires s < |c.sets| && i < |c.sets[s]|
    ensures |d.sets| == |c.sets| && |d.sets[s]| == |c.sets[s]| && !d.sets[s][i].valid
  {
    var m := c.(misses := c.misses + 1);
    if m.sets[s][i].valid then Discard(g, m.(replacements := m.replacements + 1), s, i) else m
  }

  /** Replace the line at (s, i), already in its final place. */
  function ReplaceAt(g: Geometry, c: Cache, s: nat, i: nat, cmd: Command, addr: Address): Cache
    requires s < |c.sets| && i < |c.sets[s]|
  {
    MarkDirty(Fill(g, Vacate(g, c, s, i), s, i, addr), s, i, cmd)
  }

  function Miss(g: Geometry, c: Cache, s: nat, cmd: Command, addr: Address, pick: nat): Cache
    requires s < |c.sets| && |c.sets[s]| > 0
  {
    if g.policy == Random then ReplaceAt(g, c, s, pick % |c.sets[s]|, cmd, addr)
    else ReplaceAt(g, SetLines(c, s, ToHead(c.sets[s], |c.sets[s]| - 1)), s, 0, cmd, addr)
  }

  function Invalidate(g: Geometry, c: Cache, s: nat, i: nat): Cache
    requires s < |c.sets| && i < |c.sets[s]|
  {
    if c.sets[s][i].valid then Discard(g, c.(invalidations := c.invalidations + 1), s, i) else c
  }

  function FlushRow(g: Geometry, c: Cache, s: nat, n: nat): (d: Cache)
    requires s < |c.sets| && n <= |c.sets[s]|
    ensures |d.sets| == |c.sets| && forall k :: 0 <= k < |c.sets| ==> |d.sets[k]| == |c.sets[k]|
    ensures forall k :: 0 <= k < |c.sets| && k != s ==> d.sets[k] == c.sets[k]
  {
    if n == 0 then c else Invalidate(g, FlushRow(g, c, s, n - 1), s, n - 1)
  }

  function FlushRows(g: Geometry, c: Cache, m: nat): (d: Cache)
    requires m <= |c.sets|
    ensures |d.sets| == |c.sets| && forall k :: 0 <= k < |c.sets| ==> |d.sets[k]| == |c.sets[k]|
  {
    if m == 0 then c
    else
      var d := FlushRows(g, c, m - 1);
      FlushRow(g, d, m - 1, |d.sets[m - 1]|)
  }

  predicate Hits(g: Geometry, c: Cache, addr: Address)
    requires |c.sets| == g.NumSets()
  {
    var s := g.SetOf(addr);
    FindTag(c.sets[s], g.Tag(addr)) < |c.sets[s]|
  }

  function Step(g: Geometry, c: Cache, op: Op): (d: Cache)
    requires Shaped(g, c)
    ensures Shaped(g, d)
  {
    match op
    case Access(cmd, addr, pick) =>
      var s := g.SetOf(addr);
      var i := FindTag(c.sets[s], g.Tag(addr));
      if i < |c.sets[s]| then HitAt(g, c, s, i, cmd) else Miss(g, c, s, cmd, addr, pick)
    case FlushBlock(addr) =>
      var s := g.SetOf(addr);
      var i := FindTag(c.sets[s], g.Tag(addr));
      if i < |c.sets[s]|
      then
        var d := Invalidate(g, c, s, i);
        SetLines(d, s, ToTail(d.sets[s], i))
      else c
    case FlushAll =>
      FlushRows(g, c, |c.sets|)
  }

  /** The cache after a sequence of operations on a new cache. */
  function After(g: Geometry, ops: seq<Op>): (c: Cache)
    requires g.Valid()
    ensures Shaped(g, c)
  {
    if ops == [] then Fresh(g) else Step(g, After(g, ops[..|ops| - 1]), ops[|ops| - 1])
  }

  // ---- addresses ----

  /** The fields of the address in terms of division. */
  lemma Fields(g: Geometry, addr: Address)
    ensures g.Tag(addr) == addr / (g.BlockSize() * g.NumSets())
    ensures g.SetOf(addr) == addr / g.BlockSize() % g.NumSets()
    ensures g.Block(addr) == addr - addr % g.BlockSize()
  {
    Pow2Add(g.blkBits, g.setBits);
    HighIsDiv(addr, g.blkBits + g.setBits);
    HighIsDiv(addr, g.blkBits);
    LowIsMod(addr / g.BlockSize(), g.setBits);
    LowIsMod(addr, g.blkBits);
  }

  lemma MakeBlockIs(g: Geometry, t: nat, s: nat)
    ensures g.MakeBlock(t, s) == t * (g.BlockSize() * g.NumSets()) + s * g.BlockSize()
  {
    Pow2Add(g.blkBits, g.setBits);
    ShiftedIsMul(t, g.blkBits + g.setBits);
    ShiftedIsMul(s, g.blkBits);
  }

  /** The written-back address is the address that was fetched: MakeBlock undoes the split of an address. */
  lemma SplitAddress(g: Geometry, addr: Address)
    ensures g.Block(addr) == g.MakeBlock(g.Tag(addr), g.SetOf(addr))
  {
    var b, n := g.BlockSize(), g.NumSets();
    Fields(g, addr);
    MakeBlockIs(g, g.Tag(addr), g.SetOf(addr));
    DivDiv(addr, b, n);
    DivMod(addr, b);
    DivMod(addr / b, n);
    Recombine(addr, b, n, addr / b, addr % b, g.Tag(addr), g.SetOf(addr));
  }

  lemma Recombine(x: nat, b: nat, n: nat, q: nat, r: nat, t: nat, s: nat)
    requires x == b * q + r && q == n * t + s
    ensures x - r == t * (b * n) + s * b
  {
    Distribute(b, n, t, s);
  }

  /** A block address names one tag in one set. */
  lemma MakeBlockInjective(g: Geometry, t: nat, s: nat, t': nat, s': nat)
    requires s < g.NumSets() && s' < g.NumSets() && g.MakeBlock(t, s) == g.MakeBlock(t', s')
    ensures t == t' && s == s'
  {
    MakeBlockIs(g, t, s);
    MakeBlockIs(g, t', s');
    Digits(g.BlockSize(), g.NumSets(), t, s, t', s');
  }

  lemma Digits(b: nat, n: nat, t: nat, s: nat, t': nat, s': nat)
    requires b >= 1 && s < n && s' < n && t * (b * n) + s * b == t' * (b * n) + s' * b
    ensures t == t' && s == s'
  {
    var x, y := n * t + s, n * t' + s';
    Distribute(b, n, t, s);
    Distribute(b, n, t', s');
    DivUnique(b * x, b, x, 0);
    DivUnique(b * y, b, y, 0);
    DivUnique(x, n, t, s);
    DivUnique(y, n, t', s');
  }

  /** Two addresses have the same tag and set index exactly when they lie in one block. */
  lemma SameBlock(g: Geometry, a: Address, b: Address)
    ensures g.Block(a) == g.Block(b) <==> g.Tag(a) == g.Tag(b) && g.SetOf(a) == g.SetOf(b)
  {
    SplitAddress(g, a);
    SplitAddress(g, b);
    if g.Block(a) == g.Block(b) {
      MakeBlockInjective(g, g.Tag(a), g.SetOf(a), g.Tag(b), g.SetOf(b));
    }
  }
}
