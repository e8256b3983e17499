/**
 One set of cache.c as linked blocks: a doubly linked way list, most recent block
 first, and for highly associative caches singly linked hash chains over the same
 blocks.  The ghost fields `order` and `chains` are the sequences the pointers spell.
 */
module CacheBlocks {
  import opened Bits
  import opened Defs
  import opened Sequences
  import opened SetAssoc
  import opened LineOrder

  class CacheBlk {
    var wayNext: CacheBlk?
    var wayPrev: CacheBlk?
    var hashNext: CacheBlk?
    var tag: nat
    var valid: bool
    var dirty: bool

    constructor ()
      ensures wayNext == null && wayPrev == null && hashNext == null
      ensures tag == 0 && !valid && !dirty
    {
      wayNext, wayPrev, hashNext := null, null, null;
      tag, valid, dirty := 0, false, false;
    }
  }

  datatype Where = Head | Tail

  /** CACHE_HASH: fold the bytes of the tag together and mask. */
  function Hash(key: nat, size: nat): (h: nat)
    requires size > 0
    ensures h < size
  {
    And(Xor(Xor(Xor(key / 0x100_0000, key / 0x1_0000), key / 0x100), key), size - 1)
  }

  /** In a table of 2^m chains, each bit of the index of a key is the parity of one bit of each of its four bytes and
      what is above them. */
  lemma HashBits(key: nat, m: nat, j: nat)
    requires j < m
    ensures Hash(key, Pow2(m)) < Pow2(m)
    ensures Bit(Hash(key, Pow2(m)), j) == (Bit(key, j) + Bit(key, 8 + j) + Bit(key, 16 + j) + Bit(key, 24 + j)) % 2
  {
    Bytes(key);
    var a, b, c := High(key, 24), High(key, 16), High(key, 8);
    MaskIsLow(Xor(Xor(Xor(a, b), c), key), m);
    LowBit(Xor(Xor(Xor(a, b), c), key), m, j);
    XorBits(a, b, c, key, j);
    HighBit(key, 24, j);
    HighBit(key, 16, j);
    HighBit(key, 8, j);
  }

  lemma Bytes(key: nat)
    ensures High(key, 24) == key / 0x100_0000 && High(key, 16) == key / 0x1_0000 && High(key, 8) == key / 0x100
  {
    assert Pow2(8) == 0x100;
    Pow2Add(8, 8);
    Pow2Add(16, 8);
    HighIsDiv(key, 24);
    HighIsDiv(key, 16);
    HighIsDiv(key, 8);
  }

  lemma XorBits(a: nat, b: nat, c: nat, d: nat, j: nat)
    ensures Bit(Xor(Xor(Xor(a, b), c), d), j) == (Bit(a, j) + Bit(b, j) + Bit(c, j) + Bit(d, j)) % 2
  {
    var x := Xor(a, b);
    var y := Xor(x, c);
    XorBit(a, b, j);
    XorBit(x, c, j);
    XorBit(y, d, j);
    Parity(Bit(a, j), Bit(b, j), Bit(c, j), Bit(d, j));
  }

  lemma Parity(p: nat, q: nat, r: nat, s: nat)
    ensures (((p + q) % 2 + r) % 2 + s) % 2 == (p + q + r + s) % 2
  {
  }

  /** The hash table size: none unless the associativity is above four. */
  function HashSize(assoc: nat): nat {
    if assoc > 4 then assoc / 4 else 0
  }

  // ---- the shapes the pointers spell ----

  function At(s: seq<CacheBlk>, i: int): CacheBlk? {
    if 0 <= i < |s| then s[i] else null
  }

  /** The blocks of `order`, all in `repr`, are linked forward in this order. */
  ghost predicate NextLinks(repr: set<CacheBlk>, order: seq<CacheBlk>)
    reads repr`wayNext
  {
    && (forall i :: 0 <= i < |order| ==> order[i] in repr)
    && (forall i {:trigger order[i].wayNext} :: 0 <= i < |order| ==> order[i].wayNext == At(order, i + 1))
  }

  ghost predicate PrevLinks(repr: set<CacheBlk>, order: seq<CacheBlk>)
    reads repr`wayPrev
  {
    && (forall i :: 0 <= i < |order| ==> order[i] in repr)
    && (forall i {:trigger order[i].wayPrev} :: 0 <= i < |order| ==> order[i].wayPrev == At(order, i - 1))
  }

  ghost predicate WayList(repr: set<CacheBlk>, order: seq<CacheBlk>, head: CacheBlk?, tail: CacheBlk?)
    reads repr`wayNext, repr`wayPrev
  {
    && |order| > 0 && Distinct(order)
    && head == order[0] && tail == order[|order| - 1]
    && NextLinks(repr, order) && PrevLinks(repr, order)
  }

  /** A way list that may still be empty. */
  ghost predicate OpenList(repr: set<CacheBlk>, order: seq<CacheBlk>, head: CacheBlk?, tail: CacheBlk?)
    reads repr`wayNext, repr`wayPrev
  {
    if |order| == 0 then head == null && tail == null else WayList(repr, order, head, tail)
  }

  /** Bridging the gap left by an inner block gives the links without it. */
  lemma CutNext(repr: set<CacheBlk>, order: seq<CacheBlk>, i: nat)
    requires Distinct(order) && 0 < i < |order| - 1 && order[i - 1] in repr
    requires order[i - 1].wayNext == order[i + 1]
    requires forall j :: 0 <= j < |order| && j != i - 1 && j != i ==>
                           order[j] in repr && order[j].wayNext == At(order, j + 1)
    ensures NextLinks(repr, Cut(order, i))
  {
    CutAt(order, i);
    var r := Cut(order, i);
    forall j | 0 <= j < |r|
      ensures r[j] in repr && r[j].wayNext == At(r, j + 1)
    {
      assert r[j] == order[if j < i then j else j + 1];
    }
  }

  lemma CutPrev(repr: set<CacheBlk>, order: seq<CacheBlk>, i: nat)
    requires Distinct(order) && 0 < i < |order| - 1 && order[i + 1] in repr
    requires order[i + 1].wayPrev == order[i - 1]
    requires forall j :: 0 <= j < |order| && j != i + 1 && j != i ==>
                           order[j] in repr && order[j].wayPrev == At(order, j - 1)
    ensures PrevLinks(repr, Cut(order, i))
  {
    CutAt(order, i);
    var r := Cut(order, i);
    forall j | 0 <= j < |r|
      ensures r[j] in repr && r[j].wayPrev == At(r, j - 1)
    {
      assert r[j] == order[if j < i then j else j + 1];
    }
  }

  lemma CutFirst(repr: set<CacheBlk>, order: seq<CacheBlk>)
    requires |order| > 1 && Distinct(order) && NextLinks(repr, order)
    ensures var r := Cut(order, 0);
            && |r| == |order| - 1 && (forall j :: 0 <= j < |r| ==> r[j] == order[j + 1])
            && Distinct(r) && NextLinks(repr, r)
  {
  }

  lemma CutLast(repr: set<CacheBlk>, order: seq<CacheBlk>)
    requires |order| > 1 && PrevLinks(repr, order)
    ensures Cut(order, |order| - 1) == order[..|order| - 1] && PrevLinks(repr, Cut(order, |order| - 1))
  {
    assert forall j :: 0 <= j < |order| - 1 ==> order[..|order| - 1][j] == order[j];
  }

  ghost predicate Chained(repr: set<CacheBlk>, chain: seq<CacheBlk>, head: CacheBlk?)
    reads repr`hashNext
  {
    && Distinct(chain)
    && head == At(chain, 0)
    && (forall i :: 0 <= i < |chain| ==> chain[i] in repr)
    && (forall i {:trigger chain[i].hashNext} :: 0 <= i < |chain| ==> chain[i].hashNext == At(chain, i + 1))
  }

  /** Bypassing block `k` of a chain gives the chain without it. */
  lemma CutChain(repr: set<CacheBlk>, chain: seq<CacheBlk>, k: nat, head: CacheBlk?)
    requires Distinct(chain) && k < |chain|
    requires forall j :: 0 <= j < |chain| ==> chain[j] in repr
    requires forall j :: 0 <= j < |chain| && j != k ==>
               chain[j].hashNext == At(chain, if j == k - 1 then k + 1 else j + 1)
    requires head == At(chain, if k == 0 then 1 else 0)
    ensures Chained(repr, Cut(chain, k), head)
  {
    CutAt(chain, k);
    var r := Cut(chain, k);
    forall j | 0 <= j < |r|
      ensures r[j].hashNext == At(r, j + 1)
    {
      assert r[j] == chain[if j < k then j else j + 1];
    }
  }

  /** Distinct blocks of a set, as many as the set has, are all of them. */
  lemma Cover(repr: set<CacheBlk>, order: seq<CacheBlk>, b: CacheBlk)
    requires Distinct(order) && |repr| == |order| && b in repr
    requires forall i :: 0 <= i < |order| ==> order[i] in repr
    ensures b in order
  {
    var s := set x | x in order;
    DistinctCard(order);
    if b !in s {
      SubsetCard(s, repr - {b});
    }
  }

  lemma {:induction false} DistinctCard(order: seq<CacheBlk>)
    requires Distinct(order)
    ensures |set x | x in order| == |order|
  {
    if order != [] {
      var n := |order| - 1;
      DistinctCard(order[..n]);
      assert order[n] !in order[..n];
      assert (set x | x in order) == (set x | x in order[..n]) + {order[n]};
    }
  }

  lemma {:induction false} SubsetCard(s: set<CacheBlk>, t: set<CacheBlk>)
    requires s <= t
    ensures |s| <= |t|
  {
    if s != {} {
      var x :| x in s;
      SubsetCard(s - {x}, t - {x});
    }
  }

  lemma FindUnique(lines: seq<Line>, tag: nat, p: nat)
    requires p <= |lines| && Unique(lines)
    requires if p < |lines| then lines[p].valid && lines[p].tag == tag
             else forall j :: 0 <= j < |lines| ==> !(lines[j].valid && lines[j].tag == tag)
    ensures FindTag(lines, tag) == p
  {
  }

  ghost function Content(b: CacheBlk): Line
    reads b
  {
    Line(b.tag, b.valid, b.dirty)
  }

  ghost predicate Blank(b: CacheBlk)
    reads b
  {
    b.wayNext == null && b.wayPrev == null && b.tag == 0 && !b.valid && !b.dirty
  }

  /** The array of blocks of a set. */
  method AllocateBlocks(n: nat) returns (data: seq<CacheBlk>)
    ensures |data| == n && Distinct(data)
    ensures forall i :: 0 <= i < n ==> fresh(data[i]) && Blank(data[i])
  {
    data := [];
    while |data| < n
      invariant |data| <= n && Distinct(data)
      invariant forall i :: 0 <= i < |data| ==> fresh(data[i]) && Blank(data[i])
    {
      var blk := new CacheBlk();
      data := data + [blk];
    }
  }

  class WaySet {
    var wayHead: CacheBlk?
    var wayTail: CacheBlk?
    const hash: array<CacheBlk?>
    const blks: seq<CacheBlk>  // the block array, allocated once
    ghost var repr: set<CacheBlk>
    ghost var order: seq<CacheBlk>
    ghost var lines: seq<Line>
    ghost var chains: seq<seq<CacheBlk>>

    ghost predicate Ways()
      reads this`repr, this`order, this`wayHead, this`wayTail, repr`wayNext, repr`wayPrev
    {
      WayList(repr, order, wayHead, wayTail)
    }

    constructor (assoc: nat, hsize: nat)
      requires assoc >= 1
      ensures Valid() && |order| == assoc && hash.Length == hsize
      ensures lines == seq(assoc, i => Line(0, false, false))
      ensures fresh(hash) && fresh(repr)
    {
      var data := AllocateBlocks(assoc);
      blks := data;
      hash := new CacheBlk?[hsize](i => null);
      wayHead, wayTail := null, null;
      repr, order, lines := {}, [], [];
      chains := seq(hsize, i => []);
      new;
      LinkBlocks();
    }

    /** The first `j` blocks of the array are linked in, all of them blank. */
    ghost predicate Building(j: nat)
      reads this, hash, repr, blks
    {
      && j <= |blks| && Distinct(blks)
      && Linked() && Listed() && Mirrors() && |order| == j
      && repr == (set b | b in blks[..j])
      && (forall i :: 0 <= i < j ==> lines[i] == Line(0, false, false))
      && (forall i :: j <= i < |blks| ==> Blank(blks[i]))
    }

    /** Link the blocks of the array in, one by one. */
    method LinkBlocks()
      requires Building(0) && |blks| > 0
      modifies this, hash, blks
      ensures Valid() && |order| == |blks| && repr == (set b | b in blks)
      ensures lines == seq(|blks|, i => Line(0, false, false))
    {
      for j := 0 to |blks|
        invariant Building(j)
      {
        LinkNext(j);
      }
      assert blks[..|blks|] == blks;
    }

    method LinkNext(j: nat)
      requires j < |blks| && Building(j)
      modifies this, hash, blks
      ensures Building(j + 1)
    {
      NotYet(j);
      AddLine(blks[j]);
      assert blks[..j + 1] == blks[..j] + [blks[j]];
    }

    lemma NotYet(j: nat)
      requires j < |blks| && Distinct(blks)
      ensures forall i :: j <= i < |blks| ==> blks[i] !in blks[..j]
    {
    }

    /** The links of the set while its blocks are being linked in. */
    ghost predicate Linked()
      reads this, hash, repr
    {
      Hashed(repr) && OpenList(repr, order, wayHead, wayTail)
    }

    /** Link a new invalid block in at the head of the way list and of its hash chain. */
    method AddLine(blk: CacheBlk)
      requires Linked() && Listed() && Mirrors() && blk !in repr && Blank(blk)
      modifies this`wayHead, this`wayTail, this`repr, this`order, this`lines, this`chains, hash
      modifies repr`wayNext, repr`wayPrev, repr`hashNext, blk`wayNext, blk`wayPrev, blk`hashNext
      ensures Linked() && Listed() && Mirrors() && repr == old(repr) + {blk}
      ensures order == [blk] + old(order) && lines == [Line(0, false, false)] + old(lines)
    {
      ghost var was, rest, others := lines, order, repr;
      AddLinks(blk);
      lines := [Line(0, false, false)] + lines;
      Grown(blk, rest, was, others);
    }

    method AddLinks(blk: CacheBlk)
      requires Linked() && blk !in repr && blk.wayNext == null && blk.wayPrev == null
      modifies this`wayHead, this`wayTail, this`repr, this`order, this`chains, hash
      modifies repr`wayNext, repr`wayPrev, repr`hashNext, blk`wayNext, blk`wayPrev, blk`hashNext
      ensures Linked() && repr == old(repr) + {blk} && order == [blk] + old(order)
    {
      ghost var others, rest := repr, order;
      Adopt(blk);
      EnterHash(blk, others);
      LinkNew(blk, rest);
    }

    ghost method Adopt(blk: CacheBlk)
      requires Linked() && blk !in repr && blk.wayNext == null && blk.wayPrev == null
      modifies this`repr
      ensures repr == old(repr) + {blk} && blk !in order
      ensures Hashed(old(repr))
      ensures OpenList(repr, order, wayHead, wayTail)
    {
      repr := repr + {blk};
    }

    method LinkNew(blk: CacheBlk, ghost rest: seq<CacheBlk>)
      requires OpenList(repr, rest, wayHead, wayTail)
      requires blk in repr && blk !in rest
      modifies this`wayHead, this`wayTail, this`order, repr`wayNext, repr`wayPrev
      ensures order == [blk] + rest && Ways()
    {
      if wayHead == null {
        blk.wayNext, blk.wayPrev := null, null;
        wayHead, wayTail, order := blk, blk, [blk];
      } else {
        LinkHead(blk, rest);
      }
    }

    lemma Grown(blk: CacheBlk, rest: seq<CacheBlk>, was: seq<Line>, others: set<CacheBlk>)
      requires blk !in others && repr == others + {blk} && order == [blk] + rest
      requires lines == [Line(0, false, false)] + was && Line(blk.tag, blk.valid, blk.dirty) == lines[0]
      requires |rest| == |was| == |others|
      requires forall i :: 0 <= i < |rest| ==> rest[i] in others
      requires forall i :: 0 <= i < |rest| ==> was[i] == Line(rest[i].tag, rest[i].valid, rest[i].dirty)
      ensures Listed() && Mirrors()
    {
    }

    // ---- way list ----

    /** Move block `order[i]` to one end of the way list, keeping the others in order; none of the assertions can
        fail. */
    method UpdateWayList(blk: CacheBlk, where_: Where, ghost i: nat)
      requires Ways() && i < |order| && order[i] == blk
      modifies this`wayHead, this`wayTail, this`order, repr`wayNext, repr`wayPrev
      ensures Ways()
      ensures order == if where_ == Head then ToHead(old(order), i) else ToTail(old(order), i)
    {
      ghost var rest := Cut(order, i);
      CutOut(order, i);
      if blk.wayPrev == null && blk.wayNext == null {
        assert wayHead == blk && wayTail == blk;
        return;
      } else if blk.wayPrev == null {
        assert wayHead == blk && wayTail != blk;
        if where_ == Head {
          return;
        }
        UnlinkFirst(blk);
      } else if blk.wayNext == null {
        assert wayHead != blk && wayTail == blk;
        if where_ == Tail {
          return;
        }
        UnlinkLast(blk);
      } else {
        assert wayHead != blk && wayTail != blk;
        UnlinkMiddle(blk, i);
      }
      if where_ == Head {
        LinkHead(blk, rest);
      } else {
        LinkTail(blk, rest);
      }
    }

    method UnlinkFirst(blk: CacheBlk)
      requires Ways() && |order| > 1 && order[0] == blk
      modifies this`wayHead, repr`wayPrev
      ensures WayList(repr, Cut(order, 0), wayHead, wayTail)
    {
      CutFirst(repr, order);
      wayHead := blk.wayNext;
      blk.wayNext.wayPrev := null;
    }

    method UnlinkLast(blk: CacheBlk)
      requires Ways() && |order| > 1 && order[|order| - 1] == blk
      modifies this`wayTail, repr`wayNext
      ensures WayList(repr, Cut(order, |order| - 1), wayHead, wayTail)
    {
      CutAt(order, |order| - 1);
      CutLast(repr, order);
      wayTail := blk.wayPrev;
      blk.wayPrev.wayNext := null;
    }

    method UnlinkMiddle(blk: CacheBlk, ghost i: nat)
      requires Ways() && 0 < i < |order| - 1 && order[i] == blk
      modifies repr`wayNext, repr`wayPrev
      ensures WayList(repr, Cut(order, i), wayHead, wayTail)
    {
      CutAt(order, i);
      BypassNext(blk, i);
      BypassPrev(blk, i);
    }

    method BypassNext(blk: CacheBlk, ghost i: nat)
      requires Ways() && 0 < i < |order| - 1 && order[i] == blk
      modifies repr`wayNext
      ensures NextLinks(repr, Cut(order, i)) && blk.wayNext == order[i + 1]
    {
      blk.wayPrev.wayNext := blk.wayNext;
      CutNext(repr, order, i);
    }

    method BypassPrev(blk: CacheBlk, ghost i: nat)
      requires Distinct(order) && PrevLinks(repr, order) && 0 < i < |order| - 1
      requires order[i] == blk && blk.wayNext == order[i + 1]
      modifies repr`wayPrev
      ensures PrevLinks(repr, Cut(order, i))
    {
      blk.wayNext.wayPrev := blk.wayPrev;
      CutPrev(repr, order, i);
    }

    method LinkHead(blk: CacheBlk, ghost rest: seq<CacheBlk>)
      requires WayList(repr, rest, wayHead, wayTail) && blk !in rest && blk in repr
      modifies this`wayHead, this`order, repr`wayNext, repr`wayPrev
      ensures order == [blk] + rest && Ways()
    {
      blk.wayNext := wayHead;
      blk.wayPrev := null;
      wayHead.wayPrev := blk;
      wayHead := blk;
      order := [blk] + rest;
      assert NextLinks(repr, order);
    }

    method LinkTail(blk: CacheBlk, ghost rest: seq<CacheBlk>)
      requires WayList(repr, rest, wayHead, wayTail) && blk !in rest && blk in repr
      modifies this`wayTail, this`order, repr`wayNext, repr`wayPrev
      ensures order == rest + [blk] && Ways()
    {
      blk.wayPrev := wayTail;
      blk.wayNext := null;
      wayTail.wayNext := blk;
      wayTail := blk;
      order := rest + [blk];
      assert PrevLinks(repr, order);
    }

    // ---- hash chains ----

    /** The hash chains partition `members` by the hash of the tag; without a hash table there is nothing to say. */
    ghost predicate Hashed(members: set<CacheBlk>)
      reads this`chains, this`repr, hash, repr`hashNext, repr`tag
    {
      && members <= repr
      && |chains| == hash.Length
      && (forall h :: 0 <= h < |chains| ==> Chained(repr, chains[h], hash[h]))
      && (hash.Length > 0 ==> Partition(members))
    }

    ghost predicate Partition(members: set<CacheBlk>)
      requires hash.Length > 0 && members <= repr && |chains| == hash.Length
      reads this`chains, this`repr, repr`tag
    {
      PartitionBy(chains, members)
    }

    ghost predicate PartitionBy(parts: seq<seq<CacheBlk>>, members: set<CacheBlk>)
      requires hash.Length > 0 && members <= repr && |parts| == hash.Length
      reads this`chains, this`repr, repr`tag
    {
      forall b, h :: b in repr && 0 <= h < |parts|
        ==> (b in parts[h] <==> b in members && Hash(b.tag, hash.Length) == h)
    }

    method UnlinkHtabEnt(blk: CacheBlk, ghost members: set<CacheBlk>)
      requires hash.Length > 0 && Hashed(members) && blk in members
      modifies hash, this`chains, repr`hashNext
      ensures Hashed(members - {blk})
    {
      var index := Hash(blk.tag, hash.Length);
      ghost var chain := chains[index];
      ChainsApart(members, index);
      var prev, k := FindInChain(blk, index, chain);
      UnlinkInChain(prev, blk, index, chain, k);
      forall h | 0 <= h < |chains| && h != index
        ensures Chained(repr, chains[h], hash[h])
      {
        assert old(Chained(repr, chains[h], hash[h]));
      }
      CutPartition(members, blk, k);
      chains := chains[index := Cut(chain, k)];
    }

    /** A block is on one chain only. */
    lemma ChainsApart(members: set<CacheBlk>, index: nat)
      requires hash.Length > 0 && Hashed(members) && index < hash.Length
      ensures forall h, i :: 0 <= h < |chains| && h != index && 0 <= i < |chains[h]|
                ==> chains[h][i] in repr && chains[h][i] !in chains[index]
    {
      forall h, i | 0 <= h < |chains| && h != index && 0 <= i < |chains[h]|
        ensures chains[h][i] in repr && chains[h][i] !in chains[index]
      {
        var b := chains[h][i];
        assert Chained(repr, chains[h], hash[h]);
        assert b in chains[h];
      }
    }

    lemma CutPartition(members: set<CacheBlk>, blk: CacheBlk, k: nat)
      requires hash.Length > 0 && members <= repr && |chains| == hash.Length && Partition(members)
      requires var chain := chains[Hash(blk.tag, hash.Length)];
               blk in members && Distinct(chain) && k < |chain| && chain[k] == blk
      ensures var index := Hash(blk.tag, hash.Length);
              PartitionBy(chains[index := Cut(chains[index], k)], members - {blk})
    {
      var index := Hash(blk.tag, hash.Length);
      forall b | b in repr
        ensures b in Cut(chains[index], k) <==> b in members - {blk} && Hash(b.tag, hash.Length) == index
      {
        CutKeeps(chains[index], k, b);
      }
    }

    method FindInChain(blk: CacheBlk, index: nat, ghost chain: seq<CacheBlk>)
      returns (prev: CacheBlk?, ghost k: nat)
      requires index < hash.Length && Chained(repr, chain, hash[index]) && blk in chain
      ensures k < |chain| && chain[k] == blk && prev == At(chain, k - 1)
    {
      k := 0;
      var ent: CacheBlk?;
      prev, ent := null, hash[index];
      while ent != null && ent != blk
        invariant k <= |chain| && ent == At(chain, k) && prev == At(chain, k - 1)
        invariant blk !in chain[..k]
        decreases |chain| - k
      {
        prev, ent, k := ent, ent.hashNext, k + 1;
      }
      assert ent != null;
    }

    method UnlinkInChain(prev: CacheBlk?, ent: CacheBlk, index: nat, ghost chain: seq<CacheBlk>, ghost k: nat)
      requires index < hash.Length && Chained(repr, chain, hash[index])
      requires k < |chain| && chain[k] == ent && prev == At(chain, k - 1)
      modifies hash, repr`hashNext
      ensures Chained(repr, Cut(chain, k), hash[index])
      ensures forall h :: 0 <= h < hash.Length && h != index ==> hash[h] == old(hash[h])
      ensures forall b :: b in repr && b !in chain ==> b.hashNext == old(b.hashNext)
    {
      if prev == null {
        hash[index] := ent.hashNext;
      } else {
        prev.hashNext := ent.hashNext;
      }
      ent.hashNext := null;
      CutChain(repr, chain, k, hash[index]);
    }

    /** Put the block, whose tag may just have been changed, at the front of the chain for its tag. */
    method LinkHtabEnt(blk: CacheBlk, ghost members: set<CacheBlk>)
      requires hash.Length > 0 && Hashed(members) && blk in repr && blk !in members
      modifies hash, this`chains, blk`hashNext
      ensures Hashed(members + {blk})
    {
      var index := Hash(blk.tag, hash.Length);
      blk.hashNext := hash[index];
      hash[index] := blk;
      chains := chains[index := [blk] + chains[index]];
    }

    /** Link the block in if there is a hash table. */
    method EnterHash(blk: CacheBlk, ghost members: set<CacheBlk>)
      requires Hashed(members) && blk in repr && blk !in members
      modifies hash, this`chains, blk`hashNext
      ensures Hashed(members + {blk})
    {
      if hash.Length > 0 {
        LinkHtabEnt(blk, members);
      }
    }

    // ---- the whole set ----

    ghost predicate Valid()
      reads this, hash, repr
    {
      Ways() && Hashed(repr) && Owned() && Mirrors()
    }

    /** The way list holds exactly the blocks of the set. */
    ghost predicate Listed()
      reads this`order, this`repr
    {
      |order| == |repr| && forall i :: 0 <= i < |order| ==> order[i] in repr
    }

    /** So does the block array, each once. */
    ghost predicate Owned()
      reads this`order, this`repr
    {
      && Listed()
      && |blks| == |order| && Distinct(blks)
      && forall i :: 0 <= i < |blks| ==> blks[i] in repr
    }

    /** `lines` is the set as the reference cache sees it. */
    ghost predicate Mirrors()
      requires Listed()
      reads this`order, this`repr, this`lines, repr`tag, repr`valid, repr`dirty
    {
      && |lines| == |order|
      && forall i :: 0 <= i < |order| ==> lines[i] == Line(order[i].tag, order[i].valid, order[i].dirty)
    }

    /** Find the valid block with this tag, through its hash chain if there is a hash table, else along the way list. */
    method Lookup(tag: nat) returns (blk: CacheBlk?, ghost p: nat)
      requires Valid() && Unique(lines)
      ensures blk == At(order, FindTag(lines, tag)) && p == FindTag(lines, tag)
    {
      if hash.Length > 0 {
        blk := SearchChain(tag);
        p := PositionOf(blk);
      } else {
        blk, p := SearchWays(tag);
      }
      FindUnique(lines, tag, p);
    }

    lemma PositionOf(blk: CacheBlk?) returns (p: nat)
      requires Ways() && Owned() && (blk == null || blk in repr)
      ensures p <= |order| && blk == At(order, p)
    {
      if blk == null {
        p := |order|;
      } else {
        Cover(repr, order, blk);
        p :| p < |order| && order[p] == blk;
      }
    }

    method SearchWays(tag: nat) returns (blk: CacheBlk?, ghost k: nat)
      requires Ways() && Owned() && Mirrors()
      ensures k <= |order| && blk == At(order, k)
      ensures blk != null ==> blk.valid && blk.tag == tag
      ensures blk == null ==> forall j :: 0 <= j < |lines| ==> !(lines[j].valid && lines[j].tag == tag)
    {
      k := 0;
      blk := wayHead;
      while blk != null && !(blk.tag == tag && blk.valid)
        invariant k <= |order| && blk == At(order, k)
        invariant forall j :: 0 <= j < k ==> !(lines[j].valid && lines[j].tag == tag)
        decreases |order| - k
      {
        blk, k := blk.wayNext, k + 1;
      }
    }

    method SearchChain(tag: nat) returns (blk: CacheBlk?)
      requires Hashed(repr) && Owned() && Mirrors() && hash.Length > 0
      ensures blk != null ==> blk in repr && blk.valid && blk.tag == tag
      ensures blk == null ==> forall j :: 0 <= j < |lines| ==> !(lines[j].valid && lines[j].tag == tag)
    {
      var index := Hash(tag, hash.Length);
      ghost var chain := chains[index];
      ghost var k := 0;
      blk := hash[index];
      while blk != null && !(blk.tag == tag && blk.valid)
        invariant k <= |chain| && blk == At(chain, k)
        invariant forall j :: 0 <= j < k ==> !(chain[j].tag == tag && chain[j].valid)
        decreases |chain| - k
      {
        blk, k := blk.hashNext, k + 1;
      }
      if blk == null {
        assert forall b :: b in repr && b.tag == tag ==> b in chain;
      }
    }

    /** Reordering the ways reorders the lines and disturbs nothing else. */
    method Reorder(blk: CacheBlk, where_: Where, ghost i: nat)
      requires Valid() && i < |order| && order[i] == blk
      modifies this`wayHead, this`wayTail, this`order, this`lines, repr`wayNext, repr`wayPrev
      ensures Valid() && |order| == old(|order|)
      ensures order == if where_ == Head then ToHead(old(order), i) else ToTail(old(order), i)
      ensures lines == if where_ == Head then ToHead(old(lines), i) else ToTail(old(lines), i)
    {
      ghost var was, wasLines := order, lines;
      UpdateWayList(blk, where_, i);
      assert Hashed(repr);
      lines := if where_ == Head then ToHead(lines, i) else ToTail(lines, i);
      Moved(was, wasLines, i);
    }

    lemma Moved(was: seq<CacheBlk>, wasLines: seq<Line>, i: nat)
      requires i < |was| == |wasLines| == |blks| == |repr| && Distinct(blks)
      requires (order == ToHead(was, i) && lines == ToHead(wasLines, i))
               || (order == ToTail(was, i) && lines == ToTail(wasLines, i))
      requires forall j :: 0 <= j < |was| ==> was[j] in repr
      requires forall j :: 0 <= j < |blks| ==> blks[j] in repr
      requires forall j :: 0 <= j < |was| ==> wasLines[j] == Line(was[j].tag, was[j].valid, was[j].dirty)
      ensures Owned() && Mirrors()
    {
      MoveAt(was, i);
      MoveAt(wasLines, i);
    }

    /** Select the block to replace, move it to the head of the way list unless the policy is Random,
        and take it off its hash chain. */
    method TakeVictim(policy: Policy, bindex: nat) returns (repl: CacheBlk, ghost i: nat)
      requires Valid() && bindex < |blks|
      modifies this`wayHead, this`wayTail, this`order, this`chains, this`lines, hash
      modifies repr`wayNext, repr`wayPrev, repr`hashNext
      ensures Ways() && Hashed(repr - {repl}) && Owned() && Mirrors()
      ensures i < |order| == old(|order|) && order[i] == repl
      ensures if policy == Random then repl == blks[bindex] && order == old(order) && lines == old(lines)
              else i == 0 && lines == ToHead(old(lines), |order| - 1)
    {
      repl, i := SelectVictim(policy, bindex);
      if hash.Length > 0 {
        UnlinkHtabEnt(repl, repr);
      }
    }

    method SelectVictim(policy: Policy, bindex: nat) returns (repl: CacheBlk, ghost i: nat)
      requires Valid() && bindex < |blks|
      modifies this`wayHead, this`wayTail, this`order, this`lines, repr`wayNext, repr`wayPrev
      ensures Valid() && i < |order| == old(|order|) && order[i] == repl
      ensures if policy == Random then repl == blks[bindex] && order == old(order) && lines == old(lines)
              else i == 0 && lines == ToHead(old(lines), |order| - 1)
    {
      if policy == Random {
        repl := blks[bindex];
        i := PositionOf(repl);
      } else {
        repl := wayTail;
        Reorder(repl, Head, |order| - 1);
        i := 0;
      }
    }

    /** Give the unlinked block its new tag and state, and put it on the hash chain of that tag. */
    method Install(repl: CacheBlk, tag: nat, cmd: Command, ghost i: nat)
      requires Ways() && Hashed(repr - {repl}) && Owned() && Mirrors()
      requires i < |order| && order[i] == repl
      modifies this`chains, this`lines, hash, repl`hashNext, repl`tag, repl`valid, repl`dirty
      ensures Valid() && lines == old(lines)[i := Line(tag, true, cmd == Write)]
    {
      Relabel(repl, tag, cmd, i);
      EnterHash(repl, repr - {repl});
      assert repr - {repl} + {repl} == repr;
    }

    method Relabel(repl: CacheBlk, tag: nat, cmd: Command, ghost i: nat)
      requires Ways() && Hashed(repr - {repl}) && Owned() && Mirrors()
      requires i < |order| && order[i] == repl
      modifies this`lines, repl`tag, repl`valid, repl`dirty
      ensures Hashed(repr - {repl}) && Mirrors() && lines == old(lines)[i := Line(tag, true, cmd == Write)]
    {
      repl.tag := tag;
      repl.valid, repl.dirty := true, false;
      if cmd == Write {
        repl.dirty := true;
      }
      lines := lines[i := Line(tag, true, cmd == Write)];
    }

    method MarkDirty(blk: CacheBlk, cmd: Command, ghost i: nat)
      requires Valid() && i < |order| && order[i] == blk
      modifies this`lines, blk`dirty
      ensures Valid() && lines == old(lines)[i := Touched(old(lines[i]), cmd)]
    {
      if cmd == Write {
        blk.dirty := true;
      }
      lines := lines[i := Touched(lines[i], cmd)];
    }

    /** Clear the valid bit; the dirty bit stays as it is. */
    method ClearValid(blk: CacheBlk, ghost i: nat)
      requires Valid() && i < |order| && order[i] == blk
      modifies this`lines, blk`valid
      ensures Valid() && lines == old(lines)[i := old(lines[i]).(valid := false)]
    {
      blk.valid := false;
      lines := lines[i := lines[i].(valid := false)];
    }

    /** A hit: mark the block dirty on a write, and if asked move it to the head unless it is there. */
    method Touch(blk: CacheBlk, cmd: Command, reorder: bool, ghost i: nat)
      requires Valid() && i < |order| && order[i] == blk
      modifies this`wayHead, this`wayTail, this`order, this`lines
      modifies repr`wayNext, repr`wayPrev, blk`dirty
      ensures Valid() && |order| == old(|order|)
      ensures order == if reorder then ToHead(old(order), i) else old(order)
      ensures var hit := old(lines)[i := Touched(old(lines[i]), cmd)];
              lines == if reorder then ToHead(hit, i) else hit
    {
      MarkDirty(blk, cmd, i);
      if blk.wayPrev != null && reorder {
        Reorder(blk, Head, i);
      } else if reorder {
        assert i == 0;
        assert ToHead(order, 0) == order && ToHead(lines, 0) == lines;
      }
    }

    /** Replace one block by a block with tag `tag`; `victim` is what it held and `i` where it was: the tail, or under
        Random the place of `blks[bindex]`. */
    method Replace(policy: Policy, bindex: nat, tag: nat, cmd: Command) returns (victim: Line, ghost i: nat)
      requires Valid() && bindex < |blks|
      modifies this`wayHead, this`wayTail, this`order, this`chains, this`lines, hash, repr
      ensures Valid() && |order| == old(|order|)
      ensures i < |old(lines)| && victim == old(lines)[i] && (policy != Random ==> i == |old(lines)| - 1)
      ensures policy == Random ==> order == old(order) && i < |order| && order[i] == blks[bindex]
      ensures policy == Random ==>
                victim == old(Content(blks[bindex]))
                && forall j :: 0 <= j < |blks| ==>
                     Content(blks[j]) == if j == bindex then Line(tag, true, cmd == Write) else old(Content(blks[j]))
      ensures var l := Line(tag, true, cmd == Write);
              lines == if policy == Random then old(lines)[i := l] else ToHead(old(lines), i)[0 := l]
    {
      var repl, j := TakeVictim(policy, bindex);
      victim := Line(repl.tag, repl.valid, repl.dirty);
      i := if policy == Random then j else |order| - 1;
      Install(repl, tag, cmd, j);
    }

    /** Invalidate a block and move it to the tail; its dirty bit stays as it is. */
    method Drop(blk: CacheBlk, ghost i: nat)
      requires Valid() && i < |order| && order[i] == blk
      modifies this`wayHead, this`wayTail, this`order, this`lines
      modifies repr`wayNext, repr`wayPrev, blk`valid
      ensures Valid() && |order| == old(|order|)
      ensures lines == ToTail(old(lines)[i := old(lines[i]).(valid := false)], i)
    {
      ClearValid(blk, i);
      Reorder(blk, Tail, i);
    }
  }
}
