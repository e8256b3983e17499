/**
 Which blocks are resident after an operation: what an access brings in and what it
 costs, what a flush removes; and what the Random policy replaces.
 */
module CacheResidents {
  import opened Sequences
  import opened SetAssoc
  import opened LineOrder
  import opened CacheRuns
  import opened CacheSteps

  ghost predicate Holds(lines: seq<Line>, tag: nat) {
    exists i :: 0 <= i < |lines| && lines[i].valid && lines[i].tag == tag
  }

  lemma FindsHeld(lines: seq<Line>, tag: nat)
    ensures FindTag(lines, tag) < |lines| <==> Holds(lines, tag)
  {
  }

  /** The line a miss replaces: the last of its set, or the one picked under Random. */
  function Victim(g: Geometry, lines: seq<Line>, pick: nat): Line
    requires |lines| > 0
  {
    lines[if g.policy == Random then pick % |lines| else |lines| - 1]
  }

  lemma MovedHolds(lines: seq<Line>, i: nat, t: nat)
    requires i < |lines|
    ensures Holds(ToHead(lines, i), t) <==> Holds(lines, t)
    ensures Holds(ToTail(lines, i), t) <==> Holds(lines, t)
  {
    MoveAt(lines, i);
    if Holds(lines, t) {
      var j: nat :| j < |lines| && lines[j].valid && lines[j].tag == t;
      assert ToHead(lines, i)[if j == i then 0 else if j < i then j + 1 else j] == lines[j];
      assert ToTail(lines, i)[if j == i then |lines| - 1 else if j < i then j else j - 1] == lines[j];
    }
  }

  lemma ReplacedHolds(lines: seq<Line>, i: nat, l: Line, t: nat)
    requires i < |lines| && Unique(lines)
    ensures Holds(lines[i := l], t)
            <==> (l.valid && l.tag == t) || (Holds(lines, t) && !(lines[i].valid && lines[i].tag == t))
  {
    var r := lines[i := l];
    if l.valid && l.tag == t {
      assert r[i].valid && r[i].tag == t;
    }
    if j: nat :| j < |lines| && lines[j].valid && lines[j].tag == t && j != i {
      assert r[j].valid && r[j].tag == t;
    }
  }

  lemma AccessHolds(g: Geometry, lines: seq<Line>, tag: nat, cmd: Command, pick: nat, t: nat)
    requires |lines| > 0 && Unique(lines)
    ensures Holds(AccessLines(g.policy, lines, tag, cmd, pick), t)
            <==> t == tag
                 || (Holds(lines, t)
                     && !(!Holds(lines, tag) && Victim(g, lines, pick).valid && Victim(g, lines, pick).tag == t))
  {
    var i := FindTag(lines, tag);
    FindsHeld(lines, tag);
    if i < |lines| {
      var hit := lines[i := Touched(lines[i], cmd)];
      ReplacedHolds(lines, i, Touched(lines[i], cmd), t);
      MovedHolds(hit, i, t);
    } else {
      var l, last := Line(tag, true, cmd == Write), |lines| - 1;
      ReplacedHolds(lines, if g.policy == Random then pick % |lines| else last, l, t);
      MovedHolds(lines[last := l], last, t);
      assert ToHead(lines[last := l], last) == [l] + lines[..last];
    }
  }

  /** After an access its block is resident.  A hit removes nothing; a miss removes exactly the block of the line it
      replaces, if that is valid, and that block was resident. */
  lemma AccessResidents(g: Geometry, ops: seq<Op>, cmd: Command, addr: Address, pick: nat, a: Address)
    requires g.Valid()
    ensures var c, d := After(g, ops), After(g, ops + [Op.Access(cmd, addr, pick)]);
            var victim := Victim(g, c.sets[g.SetOf(addr)], pick);
            var lost := !Hits(g, c, addr) && victim.valid && g.Block(a) == g.MakeBlock(victim.tag, g.SetOf(addr));
            && (Hits(g, d, a) <==> g.Block(a) == g.Block(addr) || (Hits(g, c, a) && !lost))
            && (lost ==> Hits(g, c, a))
  {
    var c, op := After(g, ops), Op.Access(cmd, addr, pick);
    var k := g.SetOf(a);
    assert (ops + [op])[..|ops|] == ops;
    RunUnique(g, ops, k);
    StepLines(g, c, op, k);
    SameBlock(g, a, addr);
    FindsHeld(c.sets[k], g.Tag(a));
    FindsHeld(c.sets[g.SetOf(addr)], g.Tag(addr));
    FindsHeld(After(g, ops + [op]).sets[k], g.Tag(a));
    var victim := Victim(g, c.sets[g.SetOf(addr)], pick);
    BlockOf(g, a, victim.tag, g.SetOf(addr));
    if k == g.SetOf(addr) {
      AccessHolds(g, c.sets[k], g.Tag(addr), cmd, pick, g.Tag(a));
    }
  }

  /** What an access counts and what it asks of the next level: nothing on a hit; on a miss first the write-back of a
      valid dirty victim, then the fetch. */
  lemma AccessCounts(g: Geometry, ops: seq<Op>, cmd: Command, addr: Address, pick: nat)
    requires g.Valid()
    ensures var c, d, s := After(g, ops), After(g, ops + [Op.Access(cmd, addr, pick)]), g.SetOf(addr);
            var victim := Victim(g, c.sets[s], pick);
            && d.invalidations == c.invalidations
            && (Hits(g, c, addr) ==>
                 && d.hits == c.hits + 1 && d.misses == c.misses && d.replacements == c.replacements
                 && d.writebacks == c.writebacks && d.calls == c.calls)
            && (!Hits(g, c, addr) ==>
                 && d.hits == c.hits && d.misses == c.misses + 1
                 && d.replacements == c.replacements + (if victim.valid then 1 else 0)
                 && d.writebacks == c.writebacks + (if victim.valid && victim.dirty then 1 else 0)
                 && var back := if victim.valid && victim.dirty then [Call(Write, g.MakeBlock(victim.tag, s))] else [];
                    d.calls == c.calls + back + [Call(Read, g.Block(addr))])
  {
    var c, op, s := After(g, ops), Op.Access(cmd, addr, pick), g.SetOf(addr);
    var p := FindTag(c.sets[s], g.Tag(addr));
    ReachesAfter(g, ops, c);
    if p < |c.sets[s]| {
      HitStep(g, ops, c, cmd, addr, p);
      assert (ops + [op])[..|ops|] == ops;
      HitShape(g, c, s, p, cmd);
    } else {
      MissStep(g, ops, c, cmd, addr, pick);
      ReachesAfter(g, ops + [op],
                   MissCache(g, c, cmd, addr, pick, c.sets[s][CacheSteps.VictimAt(g, c.sets[s], pick)]));
    }
  }

  /** What flushing a block counts: an invalidation and, if its line is dirty, a write-back; nothing if it misses. */
  lemma FlushCounts(g: Geometry, ops: seq<Op>, at: Address)
    requires g.Valid()
    ensures var c, d, s := After(g, ops), After(g, ops + [FlushBlock(at)]), g.SetOf(at);
            var p := FindTag(c.sets[s], g.Tag(at));
            && d.hits == c.hits && d.misses == c.misses && d.replacements == c.replacements
            && (!Hits(g, c, at) ==> d == c)
            && (Hits(g, c, at) ==>
                 && d.invalidations == c.invalidations + 1
                 && d.writebacks == c.writebacks + (if c.sets[s][p].dirty then 1 else 0)
                 && d.calls == c.calls + (if c.sets[s][p].dirty then [Call(Write, g.Block(at))] else []))
  {
    var c, s := After(g, ops), g.SetOf(at);
    var p := FindTag(c.sets[s], g.Tag(at));
    ReachesAfter(g, ops, c);
    DropStep(g, ops, c, at, p);
    ReachesAfter(g, ops + [FlushBlock(at)], if p < |c.sets[s]| then DropCache(g, c, at, p) else c);
    SplitAddress(g, at);
  }

  lemma BlockOf(g: Geometry, a: Address, t: nat, s: nat)
    requires s < g.NumSets()
    ensures g.Block(a) == g.MakeBlock(t, s) <==> g.Tag(a) == t && g.SetOf(a) == s
  {
    SplitAddress(g, a);
    if g.Block(a) == g.MakeBlock(t, s) {
      MakeBlockInjective(g, g.Tag(a), g.SetOf(a), t, s);
    }
  }

  /** Flushing a block removes it and no other. */
  lemma FlushResidents(g: Geometry, ops: seq<Op>, at: Address, a: Address)
    requires g.Valid()
    ensures Hits(g, After(g, ops + [FlushBlock(at)]), a) <==> Hits(g, After(g, ops), a) && g.Block(a) != g.Block(at)
  {
    var c, op, k := After(g, ops), FlushBlock(at), g.SetOf(a);
    assert (ops + [op])[..|ops|] == ops;
    RunUnique(g, ops, k);
    StepLines(g, c, op, k);
    SameBlock(g, a, at);
    FindsHeld(c.sets[k], g.Tag(a));
    FindsHeld(After(g, ops + [op]).sets[k], g.Tag(a));
    if k == g.SetOf(at) {
      var lines, i := c.sets[k], FindTag(c.sets[k], g.Tag(at));
      FindsHeld(lines, g.Tag(at));
      if i < |lines| {
        ReplacedHolds(lines, i, lines[i].(valid := false), g.Tag(a));
        MovedHolds(lines[i := lines[i].(valid := false)], i, g.Tag(a));
      }
    }
  }

  /** Flushing everything leaves no block. */
  lemma NothingResident(g: Geometry, ops: seq<Op>, a: Address)
    requires g.Valid()
    ensures !Hits(g, After(g, ops + [FlushAll]), a) && !Hits(g, After(g, []), a)
  {
    var c, k := After(g, ops), g.SetOf(a);
    assert (ops + [FlushAll])[..|ops|] == ops;
    StepLines(g, c, FlushAll, k);
    FindsHeld(After(g, ops + [FlushAll]).sets[k], g.Tag(a));
    FindsHeld(After(g, []).sets[k], g.Tag(a));
  }
}
