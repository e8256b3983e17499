/**
 The cache of cache.c as an object: linked sets, counters, and the one-entry
 last-block shortcut.  Every operation keeps `Valid`, which says that the object
 is in the state of the reference cache after the same operations.
 */
module CacheObject {
  import opened Defs
  import opened Bits
  import opened Sequences
  import opened SetAssoc
  import opened LineOrder
  import opened CacheRuns
  import opened CacheBlocks
  import opened CacheSteps
  import opened CacheCounters
  import opened CacheCalls

  /** What an access comes to: a rejected size or alignment, a null dereference, or a hit or miss. */
  datatype Outcome = Fatal | Fault | Done(hit: bool, replaced: nat)

  ghost predicate BelongsTo(o: object, s: nat, home: map<object, nat>, footprint: set<object>) {
    o in footprint && o in home && home[o] == s
  }

  /** A new set, all of its objects entered under index `s`. */
  ghost predicate NewSet(g: Geometry, ws: WaySet, s: nat,
                         owned: set<WaySet>, home: map<object, nat>, footprint: set<object>)
    reads ws, ws.hash, ws.repr
  {
    && ws.Valid() && |ws.order| == g.assoc && ws.hash.Length == HashSize(g.assoc)
    && ws.lines == seq(g.assoc, i => Line(0, false, false))
    && ws in owned && ws.repr <= footprint
    && BelongsTo(ws, s, home, footprint) && BelongsTo(ws.hash, s, home, footprint)
    && forall b :: b in ws.repr ==> BelongsTo(b, s, home, footprint)
  }

  class SetAssocCache {
    const g: Geometry
    const sets: seq<WaySet>
    var hits: nat
    var misses: nat
    var replacements: nat
    var writebacks: nat
    var invalidations: nat
    var calls: seq<Call>
    var lastTagset: nat
    var lastBlk: CacheBlk?
    ghost var table: seq<seq<Line>>
    ghost var history: seq<Op>
    ghost var owned: set<WaySet>
    ghost var home: map<object, nat>
    ghost var footprint: set<object>

    constructor (g: Geometry, sets: seq<WaySet>,
                 ghost owned: set<WaySet>, ghost home: map<object, nat>, ghost footprint: set<object>)
      requires g.Valid() && |sets| == g.NumSets()
      requires forall s :: 0 <= s < |sets| ==> NewSet(g, sets[s], s, owned, home, footprint)
      ensures this.g == g && this.sets == sets && this.footprint == footprint
      ensures Valid() && history == [] && lastBlk == null
    {
      this.g, this.sets := g, sets;
      hits, misses, replacements, writebacks, invalidations := 0, 0, 0, 0, 0;
      calls, lastTagset, lastBlk := [], 0, null;
      table, history := Fresh(g).sets, [];
      this.owned, this.home, this.footprint := owned, home, footprint;
      new;
      ReachesAfter(g, [], Abs());
      RecallsIs(g, [], false);
      forall s | 0 <= s < |sets|
        ensures sets[s] in owned && AtHome(s) && SetOk(s)
      {
        assert NewSet(g, sets[s], s, owned, home, footprint);
      }
    }

    ghost function Abs(): Cache
      reads this
    {
      Cache(table, hits, misses, replacements, writebacks, invalidations, calls)
    }

    /** `home` says to which set each object belongs, so the sets share nothing. */
    ghost predicate AtHome(s: nat)
      requires s < |sets|
      reads this`owned, this`home, this`footprint, owned`repr
    {
      && sets[s] in owned
      && BelongsTo(sets[s], s, home, footprint)
      && BelongsTo(sets[s].hash, s, home, footprint)
      && sets[s].repr <= footprint
      && forall b :: b in sets[s].repr ==> BelongsTo(b, s, home, footprint)
    }

    ghost predicate SetOk(s: nat)
      requires s < |sets|
      reads this`table, sets[s], sets[s].hash, sets[s].repr
    {
      && sets[s].Valid()
      && |sets[s].order| == g.assoc
      && sets[s].hash.Length == HashSize(g.assoc)
      && s < |table| && sets[s].lines == table[s]
    }

    ghost predicate SetsOk()
      reads this`table, this`owned, this`home, this`footprint, footprint, owned`repr
    {
      && |sets| == |table| == g.NumSets()
      && this !in footprint
      && (forall s :: 0 <= s < |sets| ==> sets[s] in owned)
      && (forall s {:trigger AtHome(s)} :: 0 <= s < |sets| ==> AtHome(s) && SetOk(s))
    }

    /** The shortcut, when set, names a resident block, and under LRU one at the head of its set. */
    ghost predicate LastOk()
      requires SetsOk() && g.Valid()
      reads this`table, this`owned, this`home, this`footprint, this`lastBlk, this`lastTagset, footprint,
          owned`repr, owned`order
    {
      if lastBlk == null then lastTagset == 0 else lastTagset < TOP && Names(lastTagset, lastBlk)
    }

    /** `blk` holds the block at address `addr`, and under LRU is at the head of its set. */
    ghost predicate Names(addr: Address, blk: CacheBlk)
      requires SetsOk() && g.Valid()
      reads this`table, this`owned, this`home, this`footprint, footprint, owned`repr, owned`order
    {
      var p := FindTag(table[g.SetOf(addr)], g.Tag(addr));
      && g.Block(addr) == addr
      && FoundAt(addr, blk, p)
      && (g.policy == Lru ==> p == 0)
    }

    ghost predicate Valid()
      reads this, footprint, owned
    {
      && g.Valid()
      && SetsOk()
      && LastOk()
      && Reaches(g, history, Abs())
      && Recalls(g, history, lastBlk != null)
    }

    /** Where the reference cache finds the block of `addr`. */
    ghost predicate FoundAt(addr: Address, blk: CacheBlk, p: nat)
      requires SetsOk() && g.Valid()
      reads this`table, this`owned, this`home, this`footprint, footprint, owned`repr, owned`order
    {
      var s := g.SetOf(addr);
      && p == FindTag(table[s], g.Tag(addr)) < |table[s]|
      && p < |sets[s].order| && sets[s].order[p] == blk
    }

    /** Only set `s` was touched, and it is again in order. */
    twostate lemma SetsKept(s: nat)
      requires old(SetsOk()) && s < |sets| && SetOk(s) && |table| == |sets|
      requires unchanged(this`owned, this`home, this`footprint)
      requires forall t :: 0 <= t < |sets| ==> sets[t].repr == old(sets[t].repr)
      requires forall t :: 0 <= t < |sets| && t != s ==> table[t] == old(table[t])
      requires forall o {:trigger o in old(footprint)} ::
                 o in old(footprint) && o in old(home) && old(home)[o] != s ==> unchanged(o)
      ensures SetsOk()
    {
      forall t | 0 <= t < |sets|
        ensures AtHome(t) && SetOk(t)
      {
        assert old(AtHome(t) && SetOk(t));
      }
    }

    /** Touch one block of set `s`, leaving the other sets alone. */
    method TouchSet(s: nat, blk: CacheBlk, cmd: Command, reorder: bool, ghost p: nat)
      requires SetsOk() && s < |sets| && p < |sets[s].order| && p < |table[s]| && sets[s].order[p] == blk
      modifies this`table, footprint
      ensures SetsOk() && |sets[s].order| == g.assoc
      ensures sets[s].order == if reorder then ToHead(old(sets[s].order), p) else old(sets[s].order)
      ensures var hit := old(table[s])[p := Touched(old(table[s][p]), cmd)];
              table == old(table)[s := if reorder then ToHead(hit, p) else hit]
    {
      assert AtHome(s);
      sets[s].Touch(blk, cmd, reorder, p);
      table := table[s := sets[s].lines];
      SetsKept(s);
    }

    /** Touch the block found for `addr`; it is then where the shortcut expects it. */
    method TouchHit(cmd: Command, addr: Address, blk: CacheBlk, fast: bool, ghost p: nat)
      requires g.Valid() && SetsOk() && FoundAt(addr, blk, p) && Unique(table[g.SetOf(addr)])
      requires fast && g.policy == Lru ==> p == 0
      modifies this`table, footprint
      ensures SetsOk() && 0 <= g.Block(addr) < TOP && Names(g.Block(addr), blk)
      ensures table == HitTable(g, old(table), addr, p, cmd)
    {
      var s := g.SetOf(addr);
      ghost var lines := table[s];
      TouchSet(s, blk, cmd, g.policy == Lru && !fast, p);
      HitFound(lines, p, g.Tag(addr), cmd);
      assert fast && g.policy == Lru ==> ToHead(table[s], 0) == table[s];
      NameBlock(addr, blk, if g.policy == Lru then 0 else p);
    }

    lemma NameBlock(addr: Address, blk: CacheBlk, p: nat)
      requires SetsOk() && g.Valid() && FoundAt(addr, blk, p) && (g.policy == Lru ==> p == 0)
      ensures 0 <= g.Block(addr) < TOP && Names(g.Block(addr), blk)
    {
      BlockIdempotent(g, addr);
    }

    /** Record the operation and the block that hit last. */
    method Commit(tagset: nat, blk: CacheBlk?, ghost op: Op)
      requires g.Valid() && SetsOk()
      requires if blk == null then tagset == 0 else tagset < TOP && Names(tagset, blk)
      requires Reaches(g, history + [op], Abs()) && Recalls(g, history + [op], blk != null)
      modifies this`lastTagset, this`lastBlk, this`history
      ensures Valid() && history == old(history) + [op] && lastTagset == tagset && lastBlk == blk
    {
      lastTagset, lastBlk := tagset, blk;
      history := history + [op];
    }

    /** A hit, found by search or, when `fast`, by the shortcut, which leaves the way list alone. */
    method Hit(cmd: Command, addr: Address, blk: CacheBlk, fast: bool, ghost p: nat)
      requires Valid() && FoundAt(addr, blk, p)
      requires fast && g.policy == Lru ==> p == 0
      modifies this, footprint
      ensures Valid() && footprint == old(footprint)
      ensures history == old(history) + [Op.Access(cmd, addr, 0)]
    {
      HitStep(g, history, Abs(), cmd, addr, p);
      RecallsStep(g, history, Abs(), Op.Access(cmd, addr, 0), lastBlk != null);
      ReachesShape(g, history, Abs(), g.SetOf(addr));
      TouchHit(cmd, addr, blk, fast, p);
      hits := hits + 1;
      Commit(g.Block(addr), blk, Op.Access(cmd, addr, 0));
    }

    /** The shortcut finds what a search would find. */
    lemma ShortcutFinds(addr: Address) returns (p: nat)
      requires Valid() && g.Block(addr) == lastTagset && lastBlk != null
      ensures FoundAt(addr, lastBlk, p) && (g.policy == Lru ==> p == 0)
    {
      BlockIdempotent(g, addr);
      p := FindTag(table[g.SetOf(addr)], g.Tag(addr));
    }

    // ---- misses ----

    /** Of the block array of set `s` only block `bindex` was rewritten, and now holds `l`; it stands where `pick` says
        in the way list, whose order is unchanged. */
    twostate predicate OnlyBlock(s: nat, bindex: nat, pick: nat, l: Line)
      requires s < |sets|
      reads sets[s], set b | b in sets[s].blks
    {
      var ws := sets[s];
      && bindex < |ws.blks| && pick < |ws.order| && ws.order == old(ws.order) && ws.order[pick] == ws.blks[bindex]
      && forall j :: 0 <= j < |ws.blks| ==>
           Content(ws.blks[j]) == if j == bindex then l else old(Content(ws.blks[j]))
    }

    /** Replace one block of set `s`; `victim` is what it held. */
    method ReplaceSet(s: nat, cmd: Command, tag: nat, bindex: nat) returns (victim: Line, ghost pick: nat)
      requires SetsOk() && s < |sets| && bindex < g.assoc
      modifies this`table, footprint
      ensures SetsOk() && (g.policy != Random ==> pick == 0)
      ensures |old(table[s])| > 0 && victim == old(table[s])[VictimAt(g, old(table[s]), pick)]
      ensures table == old(table)[s := MissLine(g, old(table[s]), tag, cmd, pick)]
      ensures g.policy == Random ==>
                && OnlyBlock(s, bindex, pick, Line(tag, true, cmd == Write))
                && victim == old(Content(sets[s].blks[bindex]))
    {
      assert AtHome(s);
      ghost var i;
      victim, i := sets[s].Replace(g.policy, bindex, tag, cmd);
      pick := if g.policy == Random then i else 0;
      PickIs(g, old(table[s]), tag, cmd, i);
      table := table[s := sets[s].lines];
      SetsKept(s);
    }

    /** A miss: replace a block, fetch the new one, and forget the last block that hit. */
    method Miss(cmd: Command, addr: Address, bindex: nat) returns (replaced: nat, ghost pick: nat)
      requires Valid() && bindex < g.assoc
      requires FindTag(table[g.SetOf(addr)], g.Tag(addr)) == |table[g.SetOf(addr)]|
      modifies this, footprint
      ensures Valid() && footprint == old(footprint) && lastBlk == null
      ensures history == old(history) + [Op.Access(cmd, addr, pick)]
      ensures g.policy != Random ==> pick == 0
      ensures g.policy == Random ==>
                && OnlyBlock(g.SetOf(addr), bindex, pick, Line(g.Tag(addr), true, cmd == Write))
                && replaced == ReplacedAddress(g, g.SetOf(addr), old(Content(sets[g.SetOf(addr)].blks[bindex])))
      ensures var lines := old(table[g.SetOf(addr)]);
              |lines| > 0 && replaced == ReplacedAddress(g, g.SetOf(addr), lines[VictimAt(g, lines, pick)])
    {
      var s := g.SetOf(addr);
      ghost var c := Abs();
      ReachesShape(g, history, c, s);
      var victim;
      victim, pick := ReplaceSet(s, cmd, g.Tag(addr), bindex);
      MissStep(g, history, c, cmd, addr, pick);
      RecallsStep(g, history, c, Op.Access(cmd, addr, pick), lastBlk != null);
      replaced := CountMiss(s, victim, addr);
      assert Abs() == MissCache(g, c, cmd, addr, pick, victim);
      Commit(0, null, Op.Access(cmd, addr, pick));
    }

    /** The counters and the calls to the next level on a miss that replaces `victim`. */
    method CountMiss(s: nat, victim: Line, addr: Address) returns (replaced: nat)
      modifies this`misses, this`replacements, this`writebacks, this`calls
      ensures replaced == ReplacedAddress(g, s, victim)
      ensures misses == old(misses) + 1 && replacements == old(replacements) + Count(victim.valid)
      ensures writebacks == old(writebacks) + Count(victim.valid && victim.dirty)
      ensures calls == old(calls) + WriteBack(g, s, victim) + [Call(Read, g.Block(addr))]
    {
      misses := misses + 1;
      replaced := 0;
      if victim.valid {
        replacements := replacements + 1;
        replaced := g.MakeBlock(victim.tag, s);
        if victim.dirty {
          writebacks := writebacks + 1;
          calls := calls + [Call(Write, g.MakeBlock(victim.tag, s))];
        }
      }
      calls := calls + [Call(Read, g.Block(addr))];
    }

    // ---- operations ----

    /** cache_access; `bindex` is the random number masked to the associativity.  It faults exactly when block
        address 0 is requested while no block is remembered, and otherwise does what the reference cache does. */
    method Access(cmd: Command, addr: Address, nbytes: int, bindex: nat) returns (outcome: Outcome, ghost pick: nat)
      requires Valid() && bindex < g.assoc
      modifies this, footprint
      ensures Valid() && footprint == old(footprint)
      ensures outcome.Fatal? <==> !AlignmentOk(addr, nbytes) || !SpanOk(g, addr, nbytes)
      ensures outcome.Fault? <==> !outcome.Fatal? && g.Block(addr) == 0 && !Remembers(g, old(history))
      ensures !outcome.Done? ==> history == old(history) && Abs() == old(Abs())
      ensures outcome.Done? ==>
                && history == old(history) + [Op.Access(cmd, addr, pick)]
                && (g.policy != Random ==> pick == 0)
                && (g.policy == Random && !outcome.hit ==>
                     && OnlyBlock(g.SetOf(addr), bindex, pick, Line(g.Tag(addr), true, cmd == Write))
                     && var was := old(Content(sets[g.SetOf(addr)].blks[bindex]));
                        outcome.replaced == if was.valid then g.MakeBlock(was.tag, g.SetOf(addr)) else 0)
                && outcome.hit == Hits(g, old(Abs()), addr)
                && var lines := old(table)[g.SetOf(addr)];
                   |lines| > 0
                   && var victim := lines[if g.policy == Random then pick % |lines| else |lines| - 1];
                      outcome.replaced
                      == if !outcome.hit && victim.valid then g.MakeBlock(victim.tag, g.SetOf(addr)) else 0
    {
      pick := 0;
      RecallsIs(g, history, lastBlk != null);
      if !AlignmentOk(addr, nbytes) || !SpanOk(g, addr, nbytes) {
        return Fatal, pick;
      }
      ReachesShape(g, history, Abs(), g.SetOf(addr));
      if g.Block(addr) == lastTagset {
        if lastBlk == null {
          return Fault, pick;
        }
        ghost var p := ShortcutFinds(addr);
        Hit(cmd, addr, lastBlk, true, p);
        outcome := Done(true, 0);
      } else {
        var blk, p := Find(addr);
        if blk != null {
          Hit(cmd, addr, blk, false, p);
          outcome := Done(true, 0);
        } else {
          var replaced;
          replaced, pick := Miss(cmd, addr, bindex);
          outcome := Done(false, replaced);
        }
      }
    }

    /** Search the set of `addr`. */
    method Find(addr: Address) returns (blk: CacheBlk?, ghost p: nat)
      requires Valid()
      ensures p == FindTag(table[g.SetOf(addr)], g.Tag(addr))
      ensures blk == null <==> p == |table[g.SetOf(addr)]|
      ensures blk != null ==> FoundAt(addr, blk, p)
    {
      var s := g.SetOf(addr);
      ReachesShape(g, history, Abs(), s);
      assert AtHome(s);
      blk, p := sets[s].Lookup(g.Tag(addr));
    }

    /** cache_probe */
    method Probe(addr: Address) returns (hit: bool)
      requires Valid()
      ensures hit == Hits(g, Abs(), addr)
    {
      var blk, _ := Find(addr);
      hit := blk != null;
    }

    method DropSet(s: nat, blk: CacheBlk, ghost p: nat) returns (victim: Line)
      requires SetsOk() && s < |sets| && p < |sets[s].order| && p < |table[s]| && sets[s].order[p] == blk
      modifies this`table, footprint
      ensures SetsOk() && victim == old(table[s][p])
      ensures table == old(table)[s := ToTail(old(table[s])[p := victim.(valid := false)], p)]
    {
      assert AtHome(s);
      victim := Line(blk.tag, blk.valid, blk.dirty);
      sets[s].Drop(blk, p);
      table := table[s := sets[s].lines];
      SetsKept(s);
    }

    /** cache_flush_addr */
    method FlushAddr(addr: Address)
      requires Valid()
      modifies this, footprint
      ensures Valid() && footprint == old(footprint)
      ensures history == old(history) + [FlushBlock(addr)]
    {
      DropStep(g, history, Abs(), addr, FindTag(table[g.SetOf(addr)], g.Tag(addr)));
      RecallsStep(g, history, Abs(), FlushBlock(addr), lastBlk != null);
      var blk, p := Find(addr);
      if blk != null {
        DropBlk(addr, blk, p);
        Commit(0, null, FlushBlock(addr));
      } else {
        Commit(lastTagset, lastBlk, FlushBlock(addr));
      }
    }

    method DropBlk(addr: Address, blk: CacheBlk, ghost p: nat)
      requires g.Valid() && SetsOk() && FoundAt(addr, blk, p)
      modifies this`table, this`invalidations, this`writebacks, this`calls, footprint
      ensures SetsOk() && Abs() == DropCache(g, old(Abs()), addr, p)
    {
      var s := g.SetOf(addr);
      var victim := DropSet(s, blk, p);
      invalidations := invalidations + 1;
      if victim.dirty {
        writebacks := writebacks + 1;
        calls := calls + [Call(Write, g.MakeBlock(victim.tag, s))];
      }
    }

    /** Follow the way list of set `s`. */
    method WayHead(s: nat) returns (blk: CacheBlk?)
      requires SetsOk() && s < |sets|
      ensures blk == At(sets[s].order, 0)
    {
      assert AtHome(s);
      blk := sets[s].wayHead;
    }

    method NextWay(s: nat, blk: CacheBlk, ghost k: nat) returns (next: CacheBlk?)
      requires SetsOk() && s < |sets| && k < |sets[s].order| && sets[s].order[k] == blk
      ensures next == At(sets[s].order, k + 1)
    {
      assert AtHome(s);
      next := blk.wayNext;
    }

    method ClearSet(s: nat, blk: CacheBlk, ghost k: nat)
      requires SetsOk() && s < |sets| && k < |sets[s].order| && k < |table[s]| && sets[s].order[k] == blk
      modifies this`table, footprint
      ensures SetsOk() && sets[s].order == old(sets[s].order)
      ensures table == old(table)[s := old(table[s])[k := old(table[s][k]).(valid := false)]]
    {
      assert AtHome(s);
      sets[s].ClearValid(blk, k);
      table := table[s := sets[s].lines];
      SetsKept(s);
    }

    /** What cache_flush does to one block. */
    method FlushBlk(s: nat, blk: CacheBlk, ghost k: nat)
      requires SetsOk() && s < |sets| && k < |sets[s].order| && k < |table[s]| && sets[s].order[k] == blk
      modifies this`table, this`invalidations, this`writebacks, this`calls, footprint
      ensures SetsOk() && sets[s].order == old(sets[s].order)
      ensures Abs() == Invalidate(g, old(Abs()), s, k)
    {
      ghost var c := Abs();
      InvalidateShape(g, c, s, k);
      var line := LineAt(s, blk, k);
      if line.valid {
        invalidations := invalidations + 1;
        ClearSet(s, blk, k);
        if line.dirty {
          writebacks := writebacks + 1;
          calls := calls + [Call(Write, g.MakeBlock(line.tag, s))];
        }
      }
    }

    method LineAt(s: nat, blk: CacheBlk, ghost k: nat) returns (line: Line)
      requires SetsOk() && s < |sets| && k < |sets[s].order| && k < |table[s]| && sets[s].order[k] == blk
      ensures line == table[s][k]
    {
      assert AtHome(s);
      line := Line(blk.tag, blk.valid, blk.dirty);
    }

    method FlushSet(s: nat)
      requires SetsOk() && s < |sets|
      modifies this`table, this`invalidations, this`writebacks, this`calls, footprint
      ensures SetsOk()
      ensures Abs() == FlushRow(g, old(Abs()), s, |old(Abs()).sets[s]|)
    {
      ghost var c := Abs();
      ghost var k := 0;
      ghost var order := sets[s].order;
      assert AtHome(s);
      var blk := WayHead(s);
      while blk != null
        invariant SetsOk() && sets[s].order == order
        invariant k <= |order| == |c.sets[s]| && blk == At(order, k)
        invariant Abs() == FlushRow(g, c, s, k)
        decreases |order| - k
      {
        var next := NextWay(s, blk, k);
        FlushBlk(s, blk, k);
        blk, k := next, k + 1;
      }
    }

    /** cache_flush */
    method Flush()
      requires Valid()
      modifies this, footprint
      ensures Valid() && footprint == old(footprint) && lastBlk == null
      ensures history == old(history) + [FlushAll]
    {
      ghost var c := Abs();
      FlushStep(g, history, c);
      RecallsStep(g, history, c, FlushAll, lastBlk != null);
      for i := 0 to |sets|
        invariant SetsOk() && |sets| == |c.sets|
        invariant Abs() == FlushRows(g, c, i)
        invariant history == old(history) && footprint == old(footprint)
      {
        FlushSet(i);
      }
      Commit(0, null, FlushAll);
    }
  }

  /** The parameters that cache_create rejects as fatal. */
  predicate Rejected(nsets: int, bsize: int, usize: int, assoc: int) {
    || nsets <= 0 || And(nsets, nsets - 1) != 0
    || bsize < 8 || And(bsize, bsize - 1) != 0
    || usize < 0
    || assoc <= 0 || And(assoc, assoc - 1) != 0
  }

  /** Accepted are a number of sets, a block size of at least 8 and an associativity that are powers of two, with any
      size of user data that is not negative. */
  lemma RejectedExact(nsets: int, bsize: int, usize: int, assoc: int)
    ensures Rejected(nsets, bsize, usize, assoc)
            <==> !(nsets > 0 && IsPow2(nsets) && bsize >= 8 && IsPow2(bsize) && usize >= 0
                   && assoc > 0 && IsPow2(assoc))
  {
    if nsets > 0 {
      MaskTest(nsets);
    }
    if bsize > 0 {
      MaskTest(bsize);
    }
    if assoc > 0 {
      MaskTest(assoc);
    }
  }

  /** cache_create: null for the parameters it rejects, and for those it accepts although the tag shift it derives from
      them reaches the width of an address, by which C leaves shifting undefined. */
  method Create(nsets: int, bsize: int, usize: int, assoc: int, policy: Policy)
    returns (cp: SetAssocCache?, undefined: bool)
    ensures undefined <==> !Rejected(nsets, bsize, usize, assoc) && nsets * bsize >= TOP
    ensures cp == null <==> Rejected(nsets, bsize, usize, assoc) || undefined
    ensures cp != null ==>
              && fresh(cp) && fresh(cp.footprint) && cp.Valid() && cp.history == [] && cp.lastBlk == null
              && cp.g.NumSets() == nsets && cp.g.BlockSize() == bsize
              && cp.g.assoc == assoc && cp.g.policy == policy
    ensures cp != null ==> |cp.sets| == nsets && forall s :: 0 <= s < nsets ==>
              cp.sets[s].hash.Length == if assoc > 4 then assoc / 4 else 0
  {
    if nsets <= 0 || And(nsets, nsets - 1) != 0 {
      return null, false;
    }
    if bsize < 8 || And(bsize, bsize - 1) != 0 {
      return null, false;
    }
    if usize < 0 {
      return null, false;
    }
    if assoc <= 0 || And(assoc, assoc - 1) != 0 {
      return null, false;
    }
    if nsets * bsize >= TOP {
      return null, true;
    }
    var g := MakeGeometry(nsets, bsize, assoc, policy);
    var sets, owned, home, footprint := MakeSets(g);
    cp := new SetAssocCache(g, sets, owned, home, footprint);
    undefined := false;
  }

  method MakeSets(g: Geometry) returns (sets: seq<WaySet>, ghost owned: set<WaySet>,
                                        ghost home: map<object, nat>, ghost footprint: set<object>)
    requires g.Valid()
    ensures |sets| == g.NumSets() && fresh(footprint)
    ensures forall s :: 0 <= s < |sets| ==> NewSet(g, sets[s], s, owned, home, footprint)
  {
    sets := [];
    owned, home, footprint := {}, map[], {};
    for i := 0 to g.NumSets()
      invariant |sets| == i && fresh(footprint) && home.Keys == footprint
      invariant forall s :: 0 <= s < i ==> NewSet(g, sets[s], s, owned, home, footprint)
    {
      ghost var owned0, home0, footprint0 := owned, home, footprint;
      var ws;
      ws, owned, home, footprint := MakeSet(g, i, owned, home, footprint);
      forall s | 0 <= s < i
        ensures NewSet(g, sets[s], s, owned, home, footprint)
      {
        NewSetGrows(g, sets[s], s, owned0, home0, footprint0, owned, home, footprint);
      }
      sets := sets + [ws];
    }
  }

  ghost predicate Extends(home0: map<object, nat>, home: map<object, nat>) {
    forall o :: o in home0 ==> o in home && home[o] == home0[o]
  }

  method MakeSet(g: Geometry, i: nat, ghost owned0: set<WaySet>, ghost home0: map<object, nat>,
                 ghost footprint0: set<object>)
    returns (ws: WaySet, ghost owned: set<WaySet>, ghost home: map<object, nat>, ghost footprint: set<object>)
    requires g.Valid() && home0.Keys == footprint0
    ensures NewSet(g, ws, i, owned, home, footprint) && home.Keys == footprint
    ensures owned0 <= owned && footprint0 <= footprint && Extends(home0, home) && fresh(footprint - footprint0)
  {
    ws := new WaySet(g.assoc, HashSize(g.assoc));
    assert fresh(Objects(ws)) && Objects(ws) !! home0.Keys;
    owned, home, footprint := owned0 + {ws}, Settle(ws, i, home0), footprint0 + Objects(ws);
    Settled(g, ws, i, owned, home, footprint);
  }

  ghost function Objects(ws: WaySet): set<object>
    reads ws
  {
    {ws, ws.hash} + ws.repr
  }

  ghost function Settle(ws: WaySet, s: nat, home: map<object, nat>): (r: map<object, nat>)
    reads ws
    ensures r.Keys == home.Keys + Objects(ws)
    ensures Objects(ws) !! home.Keys ==> Extends(home, r)
    ensures forall o :: o in Objects(ws) ==> r[o] == s
  {
    home + map o | o in Objects(ws) :: s
  }

  lemma Settled(g: Geometry, ws: WaySet, s: nat, owned: set<WaySet>, home: map<object, nat>, footprint: set<object>)
    requires ws.Valid() && |ws.order| == g.assoc && ws.hash.Length == HashSize(g.assoc)
    requires ws.lines == seq(g.assoc, i => Line(0, false, false))
    requires ws in owned && Objects(ws) <= footprint
    requires forall o :: o in Objects(ws) ==> o in home && home[o] == s
    ensures NewSet(g, ws, s, owned, home, footprint)
  {
    assert ws in Objects(ws) && ws.hash in Objects(ws);
    forall b | b in ws.repr
      ensures BelongsTo(b, s, home, footprint)
    {
      assert b in Objects(ws);
    }
  }

  lemma NewSetGrows(g: Geometry, ws: WaySet, s: nat,
                    owned0: set<WaySet>, home0: map<object, nat>, footprint0: set<object>,
                    owned: set<WaySet>, home: map<object, nat>, footprint: set<object>)
    requires NewSet(g, ws, s, owned0, home0, footprint0)
    requires owned0 <= owned && footprint0 <= footprint && Extends(home0, home)
    ensures NewSet(g, ws, s, owned, home, footprint)
  {
    forall b | b in ws.repr
      ensures BelongsTo(b, s, home, footprint)
    {
      assert BelongsTo(b, s, home0, footprint0);
    }
  }

  method MakeGeometry(nsets: nat, bsize: nat, assoc: nat, policy: Policy) returns (g: Geometry)
    requires nsets > 0 && And(nsets, nsets - 1) == 0 && bsize >= 8 && And(bsize, bsize - 1) == 0
    requires nsets * bsize < TOP && assoc > 0
    ensures g.Valid() && g.NumSets() == nsets && g.BlockSize() == bsize && g.assoc == assoc && g.policy == policy
  {
    MaskTest(nsets);
    MaskTest(bsize);
    g := Geometry(Log2(nsets), Log2(bsize), assoc, policy);
    Pow2Add(g.setBits, g.blkBits);
    TopIsPow2();
    Pow2Less(g.setBits + g.blkBits, 32);
    if g.blkBits < 3 {
      Pow2Mono(g.blkBits, 2);
    }
  }

  /** Of two LRU caches with the same sets and block size that went through the same operations, one through
      its hash chains and the other perhaps along its way list, the more associative one has at least the hits
      and at most the misses, and holds every block the other holds. */
  lemma LargerObject(small: SetAssocCache, large: SetAssocCache, addr: Address)
    requires small.Valid() && large.Valid() && small.history == large.history && Nested(small.g, large.g)
    ensures small.hits <= large.hits && large.misses <= small.misses
    ensures Hits(small.g, small.Abs(), addr) ==> Hits(large.g, large.Abs(), addr)
  {
    ReachesAfter(small.g, small.history, small.Abs());
    ReachesAfter(large.g, large.history, large.Abs());
    HitsMonotone(small.g, large.g, small.history);
    if Hits(small.g, small.Abs(), addr) {
      HitInLarger(small.g, large.g, small.history, addr);
    }
  }

  /** What holds of a cache object in every state: its counters and its calls balance. */
  lemma ObjectConserves(cp: SetAssocCache)
    requires cp.Valid()
    ensures cp.misses == cp.replacements + cp.invalidations + Resident(cp.Abs())
    ensures TotalMadeDirty(cp.g, cp.history) == cp.writebacks + ResidentDirty(cp.Abs())
    ensures CallCount(cp.calls, Read) == cp.misses && CallCount(cp.calls, Write) == cp.writebacks
    ensures WritesFollowFetches(cp.calls)
  {
    ReachesAfter(cp.g, cp.history, cp.Abs());
    RunConserves(cp.g, cp.history);
    RunLogged(cp.g, cp.history);
  }

  /** The first access to a new cache faults if it is to block address 0. */
  method FirstAccessToZero(cp: SetAssocCache) returns (outcome: Outcome)
    requires cp.Valid() && cp.history == []
    modifies cp, cp.footprint
    ensures outcome == Fault
  {
    BlockZero(cp.g);
    ghost var pick;
    outcome, pick := cp.Access(Read, 0, 1, 0);
  }

  lemma BlockZero(g: Geometry)
    requires g.Valid()
    ensures AlignmentOk(0, 1) && g.Block(0) == 0 && SpanOk(g, 0, 1)
  {
    Fields(g, 0);
    TopIsPow2();
    Pow2Mono(g.blkBits, 31);
    assert Pow2(32) == 2 * Pow2(31);
    Pow2Mono(0, g.blkBits);
  }
}
