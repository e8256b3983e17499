/**
 What one operation does to the lines of one set, and the order facts that hold
 in every run: tags are unique, the valid lines come first, LRU keeps them by
 recency of access and FIFO by recency of fill, and a smaller LRU cache is always
 the front part of a larger one.
 */
module LineOrder {
  import opened Sequences
  import opened SetAssoc

  // ---- one operation, seen from one set ----

  function Touched(l: Line, cmd: Command): Line {
    l.(dirty := l.dirty || cmd == Write)
  }

  function Cleared(lines: seq<Line>, n: nat): seq<Line>
    requires n <= |lines|
  {
    seq(|lines|, i requires 0 <= i < |lines| => if i < n then lines[i].(valid := false) else lines[i])
  }

  /** The lines of set `k` after `op`. */
  function LinesStep(g: Geometry, k: nat, lines: seq<Line>, op: Op): seq<Line>
    requires |lines| > 0
  {
    match op
    case Access(cmd, addr, pick) =>
      if g.SetOf(addr) == k then AccessLines(g.policy, lines, g.Tag(addr), cmd, pick) else lines
    case FlushBlock(addr) =>
      if g.SetOf(addr) == k then DropLines(lines, g.Tag(addr)) else lines
    case FlushAll =>
      Cleared(lines, |lines|)
  }

  function AccessLines(p: Policy, lines: seq<Line>, tag: nat, cmd: Command, pick: nat): seq<Line>
    requires |lines| > 0
  {
    var i := FindTag(lines, tag);
    if i < |lines| then
      var hit := lines[i := Touched(lines[i], cmd)];
      if p == Lru then ToHead(hit, i) else hit
    else
      var l := Line(tag, true, cmd == Write);
      if p == Random then lines[pick % |lines| := l] else [l] + lines[..|lines| - 1]
  }

  function DropLines(lines: seq<Line>, tag: nat): seq<Line> {
    var i := FindTag(lines, tag);
    if i < |lines| then ToTail(lines[i := lines[i].(valid := false)], i) else lines
  }

  lemma StepLines(g: Geometry, c: Cache, op: Op, k: nat)
    requires Shaped(g, c) && k < |c.sets|
    ensures Step(g, c, op).sets[k] == LinesStep(g, k, c.sets[k], op)
  {
    match op
    case Access(cmd, addr, pick) =>
      var s := g.SetOf(addr);
      var i := FindTag(c.sets[s], g.Tag(addr));
      if i < |c.sets[s]| {
        HitLines(g, c, s, i, cmd, k);
      } else {
        MissLines(g, c, s, cmd, addr, pick, k);
      }
    case FlushBlock(addr) =>
    case FlushAll =>
      FlushRowsLines(g, c, |c.sets|, k);
  }

  lemma HitLines(g: Geometry, c: Cache, s: nat, i: nat, cmd: Command, k: nat)
    requires s < |c.sets| && i < |c.sets[s]| && k < |c.sets|
    ensures var hit := c.sets[s][i := Touched(c.sets[s][i], cmd)];
            HitAt(g, c, s, i, cmd).sets[k]
            == if k != s then c.sets[k] else if g.policy == Lru then ToHead(hit, i) else hit
  {
    assert c.sets[s][i := c.sets[s][i]] == c.sets[s];
  }

  lemma MissLines(g: Geometry, c: Cache, s: nat, cmd: Command, addr: Address, pick: nat, k: nat)
    requires s < |c.sets| && |c.sets[s]| > 0 && k < |c.sets|
    ensures var l, lines := Line(g.Tag(addr), true, cmd == Write), c.sets[s];
            Miss(g, c, s, cmd, addr, pick).sets[k]
            == if k != s then c.sets[k]
               else if g.policy == Random then lines[pick % |lines| := l]
               else [l] + lines[..|lines| - 1]
  {
    if g.policy == Random {
      ReplaceLines(g, c, s, pick % |c.sets[s]|, cmd, addr, k);
    } else {
      var lines := c.sets[s];
      ReplaceLines(g, SetLines(c, s, ToHead(lines, |lines| - 1)), s, 0, cmd, addr, k);
      assert lines[|lines| - 1 + 1..] == [];
    }
  }

  lemma ReplaceLines(g: Geometry, c: Cache, s: nat, i: nat, cmd: Command, addr: Address, k: nat)
    requires s < |c.sets| && i < |c.sets[s]| && k < |c.sets|
    ensures ReplaceAt(g, c, s, i, cmd, addr).sets[k]
            == if k != s then c.sets[k] else c.sets[s][i := Line(g.Tag(addr), true, cmd == Write)]
  {
  }

  lemma {:induction false} FlushRowLines(g: Geometry, c: Cache, s: nat, n: nat)
    requires s < |c.sets| && n <= |c.sets[s]|
    ensures FlushRow(g, c, s, n).sets[s] == Cleared(c.sets[s], n)
  {
    if n > 0 {
      FlushRowLines(g, c, s, n - 1);
      var d := FlushRow(g, c, s, n - 1);
      var l := c.sets[s][n - 1];
      assert d.sets[s][n - 1] == l;
      assert Invalidate(g, d, s, n - 1).sets[s] == d.sets[s][n - 1 := l.(valid := false)] by {
        assert d.sets[s][n - 1 := l] == d.sets[s];
        assert !l.valid ==> l.(valid := false) == l;
      }
    }
  }

  lemma {:induction false} FlushRowsLines(g: Geometry, c: Cache, m: nat, k: nat)
    requires m <= |c.sets| && k < |c.sets|
    ensures FlushRows(g, c, m).sets[k] == if k < m then Cleared(c.sets[k], |c.sets[k]|) else c.sets[k]
  {
    if m > 0 {
      FlushRowsLines(g, c, m - 1, k);
      var d := FlushRows(g, c, m - 1);
      FlushRowLines(g, d, m - 1, |d.sets[m - 1]|);
      assert k < m - 1 ==> FlushRow(g, d, m - 1, |d.sets[m - 1]|).sets[k] == d.sets[k];
    }
  }

  // ---- unique tags, valid lines first ----

  ghost predicate Unique(lines: seq<Line>) {
    forall i, j :: 0 <= i < j < |lines| && lines[i].valid && lines[j].valid ==> lines[i].tag != lines[j].tag
  }

  ghost predicate Packed(lines: seq<Line>) {
    forall i, j :: 0 <= i < j < |lines| && lines[j].valid ==> lines[i].valid
  }

  lemma UniqueAccess(p: Policy, lines: seq<Line>, tag: nat, cmd: Command, pick: nat)
    requires |lines| > 0 && Unique(lines)
    ensures Unique(AccessLines(p, lines, tag, cmd, pick))
  {
    var i := FindTag(lines, tag);
    if i < |lines| {
      UniqueSame(lines, i, Touched(lines[i], cmd));
      UniqueMove(lines[i := Touched(lines[i], cmd)], i);
    } else {
      var l := Line(tag, true, cmd == Write);
      var last := |lines| - 1;
      UniqueSame(lines, if p == Random then pick % |lines| else last, l);
      UniqueMove(lines[last := l], last);
      assert lines[last := l][..last] == lines[..last] && lines[last + 1..] == [];
    }
  }

  /** Changing a line keeps tags unique if the new tag is its own or one found nowhere. */
  lemma UniqueSame(lines: seq<Line>, i: nat, l: Line)
    requires Unique(lines) && i < |lines|
    requires !l.valid || (lines[i].valid && l.tag == lines[i].tag) || FindTag(lines, l.tag) == |lines|
    ensures Unique(lines[i := l])
  {
    var r := lines[i := l];
    assert forall j :: 0 <= j < |r| && j != i ==> r[j] == lines[j];
  }

  lemma UniqueMove(lines: seq<Line>, i: nat)
    requires Unique(lines) && i < |lines|
    ensures Unique(ToHead(lines, i)) && Unique(ToTail(lines, i))
  {
    var h, t := ToHead(lines, i), ToTail(lines, i);
    assert forall j :: 0 <= j < |lines| ==> h[j] == lines[if j == 0 then i else if j <= i then j - 1 else j];
    assert forall j :: 0 <= j < |lines| ==> t[j] == lines[if j == |lines| - 1 then i else if j < i then j else j + 1];
  }

  lemma UniqueStep(g: Geometry, k: nat, lines: seq<Line>, op: Op)
    requires |lines| > 0 && Unique(lines)
    ensures Unique(LinesStep(g, k, lines, op))
  {
    match op
    case Access(cmd, addr, pick) =>
      UniqueAccess(g.policy, lines, g.Tag(addr), cmd, pick);
    case FlushBlock(addr) =>
      var i := FindTag(lines, g.Tag(addr));
      if i < |lines| {
        UniqueSame(lines, i, lines[i].(valid := false));
        UniqueMove(lines[i := lines[i].(valid := false)], i);
      }
    case FlushAll =>
  }

  lemma PackedAccess(p: Policy, lines: seq<Line>, tag: nat, cmd: Command, pick: nat)
    requires |lines| > 0 && Packed(lines) && p != Random
    ensures Packed(AccessLines(p, lines, tag, cmd, pick))
  {
  }

  lemma PackedDrop(lines: seq<Line>, tag: nat)
    requires Packed(lines)
    ensures Packed(DropLines(lines, tag))
  {
  }

  lemma PackedStep(g: Geometry, k: nat, lines: seq<Line>, op: Op)
    requires |lines| > 0 && Packed(lines) && g.policy != Random
    ensures Packed(LinesStep(g, k, lines, op))
  {
    match op
    case Access(cmd, addr, pick) =>
      PackedAccess(g.policy, lines, g.Tag(addr), cmd, pick);
    case FlushBlock(addr) =>
      PackedDrop(lines, g.Tag(addr));
    case FlushAll =>
  }

  // ---- inclusion ----

  /** Every valid line of `small` is at the same position, with the same tag, in `large`. */
  ghost predicate Inside(small: seq<Line>, large: seq<Line>) {
    forall i :: 0 <= i < |small| && small[i].valid
      ==> i < |large| && large[i].valid && large[i].tag == small[i].tag
  }

  lemma InsideFinds(small: seq<Line>, large: seq<Line>, tag: nat)
    requires Inside(small, large) && Unique(large) && Packed(small)
    ensures FindTag(small, tag) < |small| ==> FindTag(large, tag) == FindTag(small, tag)
    ensures forall j :: 0 <= j < |small| && small[j].valid && FindTag(small, tag) == |small|
              ==> j < FindTag(large, tag)
  {
    var i, k := FindTag(small, tag), FindTag(large, tag);
    if i < |small| {
      assert large[i].valid && large[i].tag == tag;
      assert k <= i;
    } else {
      forall j | 0 <= j < |small| && small[j].valid
        ensures j < k
      {
        assert small[j].tag != tag;
      }
    }
  }

  lemma InsideAccess(small: seq<Line>, large: seq<Line>, tag: nat, cmd: Command, pick: nat)
    requires 0 < |small| <= |large|
    requires Inside(small, large) && Unique(large) && Packed(small)
    ensures Inside(AccessLines(Lru, small, tag, cmd, pick), AccessLines(Lru, large, tag, cmd, pick))
  {
    InsideFinds(small, large, tag);
    var i, k, l := FindTag(small, tag), FindTag(large, tag), Line(tag, true, cmd == Write);
    if i < |small| {
      InsideMoved(small[i := Touched(small[i], cmd)], large[k := Touched(large[k], cmd)], i);
    } else if k < |large| {
      InsidePushed(small, large[k := Touched(large[k], cmd)], l, k);
    } else {
      InsideFetched(small, large, l);
    }
  }

  lemma InsideMoved(small: seq<Line>, large: seq<Line>, i: nat)
    requires Inside(small, large) && i < |small| <= |large|
    ensures Inside(ToHead(small, i), ToHead(large, i))
  {
    MoveAt(small, i);
    MoveAt(large, i);
  }

  lemma InsidePushed(small: seq<Line>, large: seq<Line>, l: Line, k: nat)
    requires 0 < |small| <= |large| && k < |large| && large[k].valid && large[k].tag == l.tag
    requires forall j :: 0 <= j < |small| && small[j].valid ==>
               j < k && large[j].valid && large[j].tag == small[j].tag
    ensures Inside([l] + small[..|small| - 1], ToHead(large, k))
  {
    MoveAt(large, k);
  }

  lemma InsideFetched(small: seq<Line>, large: seq<Line>, l: Line)
    requires Inside(small, large) && 0 < |small| <= |large|
    ensures Inside([l] + small[..|small| - 1], [l] + large[..|large| - 1])
  {
  }

  lemma InsideDrop(small: seq<Line>, large: seq<Line>, tag: nat)
    requires 0 < |small| <= |large|
    requires Inside(small, large) && Unique(large) && Packed(small)
    ensures Inside(DropLines(small, tag), DropLines(large, tag))
  {
    InsideFinds(small, large, tag);
  }

  lemma InsideCleared(small: seq<Line>, large: seq<Line>)
    ensures Inside(Cleared(small, |small|), Cleared(large, |large|))
  {
  }
}
