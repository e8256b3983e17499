/**
 The calls a cache makes to the next level of memory, over every run: a block is
 written back only after it was fetched, and never twice for one fetch; and FIFO
 replaces the block that was fetched the longest ago.
 */
module CacheCalls {
  import opened Defs
  import opened Sequences
  import opened SetAssoc
  import opened LineOrder
  import opened CacheRuns

  /** The last call about `block`, if there is one. */
  function LastCall(calls: seq<Call>, block: nat): Option<Command> {
    if calls == [] then None
    else if calls[|calls| - 1].block == block then Some(calls[|calls| - 1].cmd)
    else LastCall(calls[..|calls| - 1], block)
  }

  lemma LastCallAdd(calls: seq<Call>, call: Call, block: nat)
    ensures LastCall(calls + [call], block)
            == if call.block == block then Some(call.cmd) else LastCall(calls, block)
  {
    assert (calls + [call])[..|calls|] == calls;
  }

  /** Every write-back is of a block whose last earlier call is its fetch. */
  ghost predicate WritesFollowFetches(calls: seq<Call>) {
    forall i :: 0 <= i < |calls| && calls[i].cmd == Write
      ==> LastCall(calls[..i], calls[i].block) == Some(Read)
  }

  ghost predicate Fetched(g: Geometry, calls: seq<Call>, s: nat, lines: seq<Line>) {
    forall l :: l in lines && l.valid ==> LastCall(calls, g.MakeBlock(l.tag, s)) == Some(Read)
  }

  ghost predicate Logged(g: Geometry, c: Cache) {
    && WritesFollowFetches(c.calls)
    && |c.sets| == g.NumSets()
    && forall s :: 0 <= s < |c.sets| ==> Fetched(g, c.calls, s, c.sets[s])
  }

  /** In every run, whatever the policy, a write-back returns exactly the address that was fetched, once
      for that fetch, and every resident block was fetched and not written back since. */
  lemma {:induction false} RunLogged(g: Geometry, ops: seq<Op>)
    requires g.Valid()
    ensures Logged(g, After(g, ops))
  {
    if ops != [] {
      var n := |ops| - 1;
      RunLogged(g, ops[..n]);
      forall s | 0 <= s < g.NumSets()
        ensures Unique(After(g, ops[..n]).sets[s])
      {
        RunUnique(g, ops[..n], s);
      }
      StepLogged(g, After(g, ops[..n]), ops[n]);
    }
  }

  lemma DiscardLogged(g: Geometry, c: Cache, s: nat, i: nat)
    requires Logged(g, c) && s < |c.sets| && Unique(c.sets[s]) && i < |c.sets[s]| && c.sets[s][i].valid
    ensures Logged(g, Discard(g, c, s, i))
  {
    var d := Discard(g, c, s, i);
    var l := c.sets[s][i];
    var call := Call(Write, g.MakeBlock(l.tag, s));
    assert l in c.sets[s];
    assert WritesFollowFetches(d.calls) by {
      assert (c.calls + [call])[..|c.calls|] == c.calls;
      assert forall k :: 0 <= k < |c.calls| ==> (c.calls + [call])[..k] == c.calls[..k];
    }
    OthersDiffer(c.sets[s], i);
    forall s', x | 0 <= s' < |d.sets| && x in d.sets[s'] && x.valid
      ensures LastCall(d.calls, g.MakeBlock(x.tag, s')) == Some(Read)
    {
      assert x in c.sets[s'];
      LastCallAdd(c.calls, call, g.MakeBlock(x.tag, s'));
      if call.block == g.MakeBlock(x.tag, s') {
        MakeBlockInjective(g, l.tag, s, x.tag, s');
      }
    }
  }

  lemma OthersDiffer(lines: seq<Line>, i: nat)
    requires Unique(lines) && i < |lines| && lines[i].valid
    ensures forall x :: x in lines[i := lines[i].(valid := false)] && x.valid ==> x.tag != lines[i].tag
  {
  }

  lemma FillLogged(g: Geometry, c: Cache, s: nat, i: nat, addr: Address)
    requires Logged(g, c) && s < |c.sets| && i < |c.sets[s]| && s == g.SetOf(addr)
    ensures Logged(g, Fill(g, c, s, i, addr))
  {
    var d := Fill(g, c, s, i, addr);
    var call := Call(Read, g.Block(addr));
    SplitAddress(g, addr);
    assert forall k :: 0 <= k < |c.calls| ==> (c.calls + [call])[..k] == c.calls[..k];
    forall s', x | 0 <= s' < |d.sets| && x in d.sets[s'] && x.valid
      ensures LastCall(d.calls, g.MakeBlock(x.tag, s')) == Some(Read)
    {
      LastCallAdd(c.calls, call, g.MakeBlock(x.tag, s'));
      assert x in c.sets[s'] || (s' == s && x == Line(g.Tag(addr), true, false));
    }
  }

  /** Changing one set, without calls, to lines whose tags were valid there before. */
  lemma SetLogged(g: Geometry, c: Cache, s: nat, lines: seq<Line>)
    requires Logged(g, c) && s < |c.sets|
    requires forall l :: l in lines && l.valid ==> exists o :: o in c.sets[s] && o.valid && o.tag == l.tag
    ensures Logged(g, SetLines(c, s, lines))
  {
    forall l | l in lines && l.valid
      ensures LastCall(c.calls, g.MakeBlock(l.tag, s)) == Some(Read)
    {
      var o :| o in c.sets[s] && o.valid && o.tag == l.tag;
    }
  }

  lemma MarkLogged(g: Geometry, c: Cache, s: nat, i: nat, cmd: Command)
    requires Logged(g, c) && s < |c.sets| && i < |c.sets[s]|
    ensures Logged(g, MarkDirty(c, s, i, cmd))
  {
    var lines := c.sets[s][i := c.sets[s][i].(dirty := true)];
    forall l | l in lines && l.valid
      ensures exists o :: o in c.sets[s] && o.valid && o.tag == l.tag
    {
      var j :| 0 <= j < |lines| && lines[j] == l;
      assert c.sets[s][j] in c.sets[s];
    }
    SetLogged(g, c, s, lines);
  }

  lemma MoveLogged(g: Geometry, c: Cache, s: nat, i: nat)
    requires Logged(g, c) && s < |c.sets| && i < |c.sets[s]|
    ensures Logged(g, SetLines(c, s, ToHead(c.sets[s], i)))
    ensures Logged(g, SetLines(c, s, ToTail(c.sets[s], i)))
  {
    SetLogged(g, c, s, ToHead(c.sets[s], i));
    SetLogged(g, c, s, ToTail(c.sets[s], i));
  }

  lemma ReplaceLogged(g: Geometry, c: Cache, s: nat, i: nat, cmd: Command, addr: Address)
    requires Logged(g, c) && s < |c.sets| && Unique(c.sets[s]) && i < |c.sets[s]| && s == g.SetOf(addr)
    ensures Logged(g, ReplaceAt(g, c, s, i, cmd, addr))
  {
    var m := c.(misses := c.misses + 1);
    if m.sets[s][i].valid {
      DiscardLogged(g, m.(replacements := m.replacements + 1), s, i);
    }
    FillLogged(g, Vacate(g, c, s, i), s, i, addr);
    MarkLogged(g, Fill(g, Vacate(g, c, s, i), s, i, addr), s, i, cmd);
  }

  lemma InvalidateLogged(g: Geometry, c: Cache, s: nat, i: nat)
    requires Logged(g, c) && s < |c.sets| && Unique(c.sets[s]) && i < |c.sets[s]|
    ensures Logged(g, Invalidate(g, c, s, i))
  {
    if c.sets[s][i].valid {
      DiscardLogged(g, c.(invalidations := c.invalidations + 1), s, i);
    }
  }

  lemma InvalidateTo(g: Geometry, c: Cache, s: nat, i: nat, d: Cache)
    requires Logged(g, c) && s < |c.sets| && Unique(c.sets[s]) && i < |c.sets[s]|
    requires d == Invalidate(g, c, s, i)
    ensures Logged(g, d)
  {
    InvalidateLogged(g, c, s, i);
  }

  lemma UniqueCleared(lines: seq<Line>, n: nat)
    requires Unique(lines) && n <= |lines|
    ensures Unique(Cleared(lines, n))
  {
  }

  lemma RowUnique(g: Geometry, c: Cache, s: nat, n: nat)
    requires s < |c.sets| && Unique(c.sets[s]) && n <= |c.sets[s]|
    ensures Unique(FlushRow(g, c, s, n).sets[s])
  {
    FlushRowLines(g, c, s, n);
    UniqueCleared(c.sets[s], n);
  }

  lemma {:induction false} FlushRowLogged(g: Geometry, c: Cache, s: nat, n: nat)
    requires Logged(g, c) && s < |c.sets| && Unique(c.sets[s]) && n <= |c.sets[s]|
    ensures Logged(g, FlushRow(g, c, s, n))
  {
    if n > 0 {
      FlushRowLogged(g, c, s, n - 1);
      RowUnique(g, c, s, n - 1);
      InvalidateTo(g, FlushRow(g, c, s, n - 1), s, n - 1, FlushRow(g, c, s, n));
    }
  }

  lemma {:induction false} FlushRowsLogged(g: Geometry, c: Cache, m: nat)
    requires Logged(g, c) && m <= |c.sets| && forall s :: 0 <= s < |c.sets| ==> Unique(c.sets[s])
    ensures Logged(g, FlushRows(g, c, m))
  {
    if m > 0 {
      FlushRowsLogged(g, c, m - 1);
      var d := FlushRows(g, c, m - 1);
      RowsLeave(g, c, m - 1);
      RowTo(g, d, m - 1, |d.sets[m - 1]|, FlushRows(g, c, m));
    }
  }

  lemma RowsLeave(g: Geometry, c: Cache, m: nat)
    requires m < |c.sets|
    ensures FlushRows(g, c, m).sets[m] == c.sets[m]
  {
    FlushRowsLines(g, c, m, m);
  }

  lemma RowTo(g: Geometry, c: Cache, s: nat, n: nat, d: Cache)
    requires Logged(g, c) && s < |c.sets| && Unique(c.sets[s]) && n <= |c.sets[s]|
    requires d == FlushRow(g, c, s, n)
    ensures Logged(g, d)
  {
    FlushRowLogged(g, c, s, n);
  }

  lemma StepLogged(g: Geometry, c: Cache, op: Op)
    requires Shaped(g, c) && Logged(g, c) && forall s :: 0 <= s < |c.sets| ==> Unique(c.sets[s])
    ensures Logged(g, Step(g, c, op))
  {
    match op
    case Access(cmd, addr, pick) =>
      var s := g.SetOf(addr);
      var lines := c.sets[s];
      var i := FindTag(lines, g.Tag(addr));
      if i < |lines| {
        var h := c.(hits := c.hits + 1);
        MarkLogged(g, h, s, i, cmd);
        MoveLogged(g, MarkDirty(h, s, i, cmd), s, i);
      } else if g.policy == Random {
        ReplaceLogged(g, c, s, pick % |lines|, cmd, addr);
      } else {
        MoveLogged(g, c, s, |lines| - 1);
        UniqueMove(lines, |lines| - 1);
        ReplaceLogged(g, SetLines(c, s, ToHead(lines, |lines| - 1)), s, 0, cmd, addr);
      }
    case FlushBlock(addr) =>
      var s := g.SetOf(addr);
      var i := FindTag(c.sets[s], g.Tag(addr));
      if i < |c.sets[s]| {
        InvalidateLogged(g, c, s, i);
        MoveLogged(g, Invalidate(g, c, s, i), s, i);
      }
    case FlushAll =>
      FlushRowsLogged(g, c, |c.sets|);
  }

  // ---- FIFO ----

  /** One more than the position of the last fetch of `block`; 0 if it was never fetched. */
  function LastFetch(calls: seq<Call>, block: nat): nat {
    if calls == [] then 0
    else if calls[|calls| - 1] == Call(Read, block) then |calls|
    else LastFetch(calls[..|calls| - 1], block)
  }

  lemma LastFetchAdd(calls: seq<Call>, call: Call, block: nat)
    ensures LastFetch(calls + [call], block)
            == if call == Call(Read, block) then |calls| + 1 else LastFetch(calls, block)
  {
    assert (calls + [call])[..|calls|] == calls;
  }

  lemma LastFetchBound(calls: seq<Call>, block: nat)
    ensures LastFetch(calls, block) <= |calls|
  {
  }

  lemma {:induction false} FlushFetches(g: Geometry, c: Cache, m: nat, block: nat)
    requires m <= |c.sets|
    ensures LastFetch(FlushRows(g, c, m).calls, block) == LastFetch(c.calls, block)
  {
    if m > 0 {
      FlushFetches(g, c, m - 1, block);
      var d := FlushRows(g, c, m - 1);
      FlushRowFetches(g, d, m - 1, |d.sets[m - 1]|, block);
    }
  }

  lemma {:induction false} FlushRowFetches(g: Geometry, c: Cache, s: nat, n: nat, block: nat)
    requires s < |c.sets| && n <= |c.sets[s]|
    ensures LastFetch(FlushRow(g, c, s, n).calls, block) == LastFetch(c.calls, block)
  {
    if n > 0 {
      FlushRowFetches(g, c, s, n - 1, block);
      InvalidateFetches(g, FlushRow(g, c, s, n - 1), s, n - 1, block);
    }
  }

  lemma InvalidateFetches(g: Geometry, c: Cache, s: nat, i: nat, block: nat)
    requires s < |c.sets| && i < |c.sets[s]|
    ensures LastFetch(Invalidate(g, c, s, i).calls, block) == LastFetch(c.calls, block)
  {
    LastFetchAdd(c.calls, Call(Write, g.MakeBlock(c.sets[s][i].tag, s)), block);
  }

  lemma ReplaceFetches(g: Geometry, c: Cache, s: nat, i: nat, cmd: Command, addr: Address, block: nat)
    requires s < |c.sets| && i < |c.sets[s]|
    ensures var d := ReplaceAt(g, c, s, i, cmd, addr);
            if block == g.Block(addr) then LastFetch(d.calls, block) > |c.calls|
            else LastFetch(d.calls, block) == LastFetch(c.calls, block)
  {
    var write := Call(Write, g.MakeBlock(c.sets[s][i].tag, s));
    LastFetchAdd(c.calls, write, block);
    LastFetchAdd(c.calls, Call(Read, g.Block(addr)), block);
    LastFetchAdd(c.calls + [write], Call(Read, g.Block(addr)), block);
  }

  lemma MissFetches(g: Geometry, c: Cache, s: nat, cmd: Command, addr: Address, pick: nat, block: nat)
    requires s < |c.sets| && |c.sets[s]| > 0
    ensures var d := Miss(g, c, s, cmd, addr, pick);
            if block == g.Block(addr) then LastFetch(d.calls, block) > |c.calls|
            else LastFetch(d.calls, block) == LastFetch(c.calls, block)
  {
    if g.policy == Random {
      ReplaceFetches(g, c, s, pick % |c.sets[s]|, cmd, addr, block);
    } else {
      ReplaceFetches(g, SetLines(c, s, ToHead(c.sets[s], |c.sets[s]| - 1)), s, 0, cmd, addr, block);
    }
  }

  /** Only a miss changes when a block was last fetched, and only for the missing block. */
  lemma StepFetches(g: Geometry, c: Cache, op: Op, block: nat)
    requires Shaped(g, c)
    ensures var d := Step(g, c, op);
            if op.Access? && !Hits(g, c, op.addr) && block == g.Block(op.addr)
            then LastFetch(d.calls, block) > |c.calls|
            else LastFetch(d.calls, block) == LastFetch(c.calls, block)
  {
    match op
    case Access(cmd, addr, pick) =>
      var s := g.SetOf(addr);
      var lines := c.sets[s];
      if !Hits(g, c, addr) {
        MissFetches(g, c, s, cmd, addr, pick, block);
      }
    case FlushBlock(addr) =>
      var s := g.SetOf(addr);
      var i := FindTag(c.sets[s], g.Tag(addr));
      if i < |c.sets[s]| {
        InvalidateFetches(g, c, s, i, block);
      }
    case FlushAll =>
      FlushFetches(g, c, |c.sets|, block);
  }

  ghost function FetchOrder(g: Geometry, calls: seq<Call>, k: nat): nat -> int {
    (tag: nat) => LastFetch(calls, g.MakeBlock(tag, k))
  }

  /** Under FIFO the valid lines of a set are ordered by their last fetch, so the one at the tail, which a
      miss replaces, is the one fetched the longest ago. */
  lemma {:induction false} RunFetchOrder(g: Geometry, ops: seq<Op>, k: nat)
    requires g.Valid() && k < g.NumSets() && g.policy == Fifo
    ensures Ordered(After(g, ops).sets[k], FetchOrder(g, After(g, ops).calls, k))
  {
    if ops != [] {
      var n := |ops| - 1;
      RunFetchOrder(g, ops[..n], k);
      StepLines(g, After(g, ops[..n]), ops[n], k);
      FetchOrderStep(g, After(g, ops[..n]), ops[n], k);
    }
  }

  /** What a FIFO miss evicts: a valid line only from a full set, and then the one fetched the longest ago. */
  lemma FifoVictim(g: Geometry, ops: seq<Op>, k: nat, i: nat)
    requires g.Valid() && k < g.NumSets() && g.policy == Fifo && i < g.assoc - 1
    requires After(g, ops).sets[k][g.assoc - 1].valid
    ensures var c := After(g, ops);
            var victim, other := c.sets[k][g.assoc - 1], c.sets[k][i];
            && other.valid
            && LastFetch(c.calls, g.MakeBlock(victim.tag, k)) < LastFetch(c.calls, g.MakeBlock(other.tag, k))
  {
    RunPacked(g, ops, k);
    RunFetchOrder(g, ops, k);
    var age := FetchOrder(g, After(g, ops).calls, k);
    var lines := After(g, ops).sets[k];
    assert age(lines[g.assoc - 1].tag) < age(lines[i].tag);
  }

  lemma FetchOrderStep(g: Geometry, c: Cache, op: Op, k: nat)
    requires Shaped(g, c) && k < |c.sets| && g.policy == Fifo
    requires Ordered(c.sets[k], FetchOrder(g, c.calls, k))
    ensures Ordered(LinesStep(g, k, c.sets[k], op), FetchOrder(g, Step(g, c, op).calls, k))
  {
    var lines, d := c.sets[k], Step(g, c, op);
    var age, age' := FetchOrder(g, c.calls, k), FetchOrder(g, d.calls, k);
    forall tag: nat
      ensures if op.Access? && !Hits(g, c, op.addr) && g.SetOf(op.addr) == k && g.Tag(op.addr) == tag
              then age'(tag) > |c.calls|
              else age'(tag) == age(tag)
      ensures age(tag) <= |c.calls|
    {
      StepFetches(g, c, op, g.MakeBlock(tag, k));
      LastFetchBound(c.calls, g.MakeBlock(tag, k));
      if op.Access? {
        SplitAddress(g, op.addr);
        if g.MakeBlock(tag, k) == g.Block(op.addr) {
          MakeBlockInjective(g, tag, k, g.Tag(op.addr), g.SetOf(op.addr));
        }
      }
    }
    FifoLines(g, c, op, k, age, age');
  }

  lemma FifoLines(g: Geometry, c: Cache, op: Op, k: nat, age: nat -> int, age': nat -> int)
    requires Shaped(g, c) && k < |c.sets| && g.policy == Fifo && Ordered(c.sets[k], age)
    requires forall tag: nat :: if op.Access? && !Hits(g, c, op.addr) && g.SetOf(op.addr) == k && g.Tag(op.addr) == tag
                         then age'(tag) > |c.calls|
                         else age'(tag) == age(tag)
    requires forall tag: nat :: age(tag) <= |c.calls|
    ensures Ordered(LinesStep(g, k, c.sets[k], op), age')
  {
    var lines := c.sets[k];
    match op
    case Access(cmd, addr, pick) =>
      if g.SetOf(addr) == k && !Hits(g, c, addr) {
        OrderedToHead(lines, |lines| - 1, Line(g.Tag(addr), true, cmd == Write), age, age');
        assert ToHead(lines[|lines| - 1 := Line(g.Tag(addr), true, cmd == Write)], |lines| - 1)
            == [Line(g.Tag(addr), true, cmd == Write)] + lines[..|lines| - 1];
      }
    case FlushBlock(addr) =>
      var i := FindTag(lines, g.Tag(addr));
      if i < |lines| {
        OrderedDrop(lines, i, age);
      }
    case FlushAll =>
  }
}
