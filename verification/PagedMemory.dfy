/**
 The page table of memory.c: buckets of linked entries, searched with
 move-to-front, and pages allocated when first written.  The ghost field `flat`
 is the flat memory the table stands for; looking an address up and allocating
 pages never change it.
 */
module PagedMemory {
  import opened Bits
  import opened Defs
  import opened Sequences
  import opened FlatMemory

  const PAGES := 0x10_0000

  datatype Command = Read | Write

  datatype Fault = NoFault | AccessFault | AlignmentFault

  /** The checks of mem_access, with its mask tests; a size of zero gives an all-ones mask, and a negative
      size is no power of two. */
  function AccessCheck(addr: Uint32, nbytes: int): Fault {
    if nbytes < 0 then AccessFault
    else if nbytes == 0 then (if addr == 0 then NoFault else AlignmentFault)
    else if And(nbytes, nbytes - 1) != 0 || nbytes > PAGE_SIZE then AccessFault
    else if And(addr, nbytes - 1) != 0 then AlignmentFault
    else NoFault
  }

  /** An access goes through exactly when its size is a power of two, at most a page, that divides the address, or
      both its size and its address are zero; a zero size is no access fault, and any other address misaligns it. */
  lemma AccessCheckExact(addr: Uint32, nbytes: int)
    ensures AccessCheck(addr, nbytes) == AccessFault
            <==> nbytes < 0 || (nbytes > 0 && !IsPow2(nbytes)) || nbytes > PAGE_SIZE
    ensures AccessCheck(addr, nbytes) == NoFault
            <==> if nbytes == 0 then addr == 0
                 else 0 < nbytes <= PAGE_SIZE && IsPow2(nbytes) && addr % nbytes == 0
  {
    if nbytes > 0 {
      MaskCheck(addr, nbytes);
    }
  }

  /** What copying `n` bytes between the memory at `addr` and a host buffer at position `p` comes to. */
  ghost predicate Copied(cmd: Command, m0: Flat, b0: seq<Byte>, m: Flat, b: seq<Byte>, addr: Uint32, p: nat, n: nat)
    requires Total(m0) && p + n <= |b0|
  {
    match cmd
    case Read => m == m0 && b == b0[..p] + Loaded(m0, addr, n) + b0[p + n..]
    case Write => b == b0 && m == Stored(m0, addr, b0[p..p + n])
  }

  function Positive(n: int): nat {
    if n < 0 then 0 else n
  }

  /** `Copied`, where the buffer is known to be long enough. */
  ghost predicate Copying(cmd: Command, m0: Flat, b0: seq<Byte>, m: Flat, b: seq<Byte>, addr: Uint32, p: nat, n: nat) {
    Total(m0) && p + n <= |b0| == |b| && Copied(cmd, m0, b0, m, b, addr, p, n)
  }

  /** A copy of `k` bytes so far. */
  ghost predicate CopyingBytes(cmd: Command, m0: Flat, b0: seq<Byte>, m: Flat, b: seq<Byte>, addr: Uint32, p: nat,
                               k: nat)
  {
    Copying(cmd, m0, b0, m, b, addr, p, k)
  }

  /** A copy of `k` words so far; it can only have begun at an aligned address. */
  ghost predicate CopyingWords(cmd: Command, m0: Flat, b0: seq<Byte>, m: Flat, b: seq<Byte>, addr: Uint32, p: nat,
                               k: nat)
  {
    Copying(cmd, m0, b0, m, b, addr, p, 4 * k) && (k > 0 ==> addr % 4 == 0)
  }

  lemma CopiedNone(cmd: Command, m: Flat, b: seq<Byte>, addr: Uint32, p: nat)
    requires Total(m) && p <= |b|
    ensures Copying(cmd, m, b, m, b, addr, p, 0)
  {
    assert b == b[..p] + [] + b[p..];
  }

  lemma CopiedZero(cmd: Command, m0: Flat, b0: seq<Byte>, m: Flat, b: seq<Byte>, addr: Uint32, p: nat)
    requires Copying(cmd, m0, b0, m, b, addr, p, 0)
    ensures m == m0 && b == b0
  {
    assert b0 == b0[..p] + [] + b0[p..];
  }

  /** Copying a range in two pieces is copying the whole. */
  lemma CopiedMore(cmd: Command, m0: Flat, b0: seq<Byte>, m1: Flat, b1: seq<Byte>, m2: Flat, b2: seq<Byte>,
                   addr: Uint32, p: nat, j: nat, k: nat)
    requires Total(m1) && p + j + k <= |b0|
    requires Copying(cmd, m0, b0, m1, b1, addr, p, j)
    requires Copied(cmd, m1, b1, m2, b2, Plus(addr, j), p + j, k)
    ensures Copying(cmd, m0, b0, m2, b2, addr, p, j + k)
  {
    match cmd
    case Read =>
      LoadedSplit(m0, addr, j, k);
      Pieces(b0, b1, b2, p, Loaded(m0, addr, j), Loaded(m0, Plus(addr, j), k));
    case Write =>
      StoredSplit(m0, addr, b0[p..p + j], b0[p + j..p + j + k]);
      assert b0[p..p + j] + b0[p + j..p + j + k] == b0[p..p + (j + k)];
  }

  lemma Pieces(b0: seq<Byte>, b1: seq<Byte>, b2: seq<Byte>, p: nat, x: seq<Byte>, y: seq<Byte>)
    requires p + |x| + |y| <= |b0|
    requires b1 == b0[..p] + x + b0[p + |x|..]
    requires b2 == b1[..p + |x|] + y + b1[p + |x| + |y|..]
    ensures b2 == b0[..p] + (x + y) + b0[p + (|x| + |y|)..]
  {
  }

  /** One more word: copied if the address is aligned, and otherwise the first one tried. */
  lemma WordCopied(cmd: Command, m0: Flat, b0: seq<Byte>, m1: Flat, b1: seq<Byte>, m2: Flat, b2: seq<Byte>,
                   addr: Uint32, p: nat, k: nat, fault: Fault)
    requires Total(m1) && p + 4 * (k + 1) <= |b1| == |b0| && CopyingWords(cmd, m0, b0, m1, b1, addr, p, k)
    requires fault == AccessCheck(Plus(addr, 4 * k), 4)
    requires if fault == NoFault then Copied(cmd, m1, b1, m2, b2, Plus(addr, 4 * k), p + 4 * k, 4)
             else m2 == m1 && b2 == b1
    ensures fault == if addr % 4 == 0 then NoFault else AlignmentFault
    ensures if fault == NoFault then CopyingWords(cmd, m0, b0, m2, b2, addr, p, k + 1) else m2 == m0 && b2 == b0
  {
    WordAccess(addr, 4 * k);
    if fault == NoFault {
      NextWord(cmd, m0, b0, m1, b1, m2, b2, addr, p, k, 4 * k);
    } else {
      CopiedZero(cmd, m0, b0, m1, b1, addr, p);
    }
  }

  lemma NextWord(cmd: Command, m0: Flat, b0: seq<Byte>, m1: Flat, b1: seq<Byte>, m2: Flat, b2: seq<Byte>,
                 addr: Uint32, p: nat, k: nat, j: nat)
    requires Total(m1) && j == 4 * k && p + j + 4 <= |b1| == |b0| && addr % 4 == 0
    requires Copying(cmd, m0, b0, m1, b1, addr, p, j) && Copied(cmd, m1, b1, m2, b2, Plus(addr, j), p + j, 4)
    ensures CopyingWords(cmd, m0, b0, m2, b2, addr, p, k + 1)
  {
    CopiedMore(cmd, m0, b0, m1, b1, m2, b2, addr, p, j, 4);
  }

  lemma WordAccess(addr: Uint32, j: nat)
    requires j % 4 == 0
    ensures AccessCheck(Plus(addr, j), 4) == if addr % 4 == 0 then NoFault else AlignmentFault
  {
    FourAccess(Plus(addr, j));
    var x := addr + j;
    SameResidue(x % TOP, 0x4000_0000 * (x / TOP));
    SameResidue(addr, j / 4);
  }

  lemma SameResidue(r: int, q: int)
    ensures (r + 4 * q) % 4 == r % 4
  {
  }

  lemma FourAccess(addr: Uint32)
    ensures AccessCheck(addr, 4) == if addr % 4 == 0 then NoFault else AlignmentFault
  {
    assert IsPow2(2);
    AccessCheckExact(addr, 4);
  }

  lemma StoreZero(m: Flat, addr: Uint32, k: nat)
    requires Total(m)
    ensures Stored(Stored(m, addr, Zeros(k)), Plus(addr, k), [0]) == Stored(m, addr, Zeros(k + 1))
  {
    StoredSplit(m, addr, Zeros(k), [0]);
    assert Zeros(k) + [0] == Zeros(k + 1);
  }

  lemma ByteAccess(addr: Uint32)
    ensures AccessCheck(addr, 1) == NoFault
  {
  }

  class Pte {
    var next: Pte?
    const tag: nat
    const page: array<Byte>

    constructor (tag: nat, page: array<Byte>)
      ensures next == null && this.tag == tag && this.page == page
    {
      next, this.tag, this.page := null, tag, page;
    }
  }

  function At(s: seq<Pte>, i: int): Pte? {
    if 0 <= i < |s| then s[i] else null
  }

  ghost predicate Linked(ptes: set<Pte>, chain: seq<Pte>, head: Pte?)
    reads ptes`next
  {
    && Distinct(chain)
    && head == At(chain, 0)
    && (forall i :: 0 <= i < |chain| ==> chain[i] in ptes)
    && (forall i {:trigger chain[i].next} :: 0 <= i < |chain| ==> chain[i].next == At(chain, i + 1))
  }

  /** Relinking entry `k` in front gives the chain with that entry moved to its head. */
  lemma FrontLinked(ptes: set<Pte>, chain: seq<Pte>, k: nat)
    requires Distinct(chain) && 0 < k < |chain|
    requires forall i :: 0 <= i < |chain| ==> chain[i] in ptes
    requires chain[k].next == chain[0] && chain[k - 1].next == At(chain, k + 1)
    requires forall i {:trigger chain[i].next} ::
               0 <= i < |chain| && i != k && i != k - 1 ==> chain[i].next == At(chain, i + 1)
    ensures Linked(ptes, ToHead(chain, k), chain[k])
  {
    MoveAt(chain, k);
    var r := ToHead(chain, k);
    forall i | 0 <= i < |r|
      ensures r[i].next == At(r, i + 1)
    {
      assert r[i] == chain[if i == 0 then k else if i <= k then i - 1 else i];
    }
  }

  lemma MoveKeeps(s: seq<Pte>, k: nat, b: Pte)
    requires k < |s|
    ensures b in ToHead(s, k) <==> b in s
  {
    MoveAt(s, k);
    if b in s {
      var j :| 0 <= j < |s| && s[j] == b;
      assert ToHead(s, k)[if j == k then 0 else if j < k then j + 1 else j] == b;
    }
  }

  class Memory {
    const ptab: array<Pte?>
    var pageCount: nat
    var ptabMisses: nat
    var ptabAccesses: nat
    ghost var flat: Flat
    ghost var table: map<nat, Pte>
    ghost var chains: seq<seq<Pte>>
    ghost var ptes: set<Pte>
    ghost var pages: set<array<Byte>>
    ghost var owner: map<array<Byte>, nat>

    /** Bucket `s` links the entries of its pages. */
    ghost predicate Bucket(s: nat)
      requires s < |chains| == ptab.Length
      reads this`chains, this`ptes, this`table, ptab, ptes`next
    {
      var chain := chains[s];
      && Linked(ptes, chain, ptab[s])
      && forall i :: 0 <= i < |chain|
           ==> EntryPage(chain[i].tag, s) in table && table[EntryPage(chain[i].tag, s)] == chain[i]
    }

    /** The entry of page `v` is in its bucket and has a page of its own. */
    ghost predicate Entry(v: nat)
      requires v in table && |chains| == TABLE_SIZE
      reads this`chains, this`ptes, this`table, this`pages, this`owner
    {
      EntryIn(chains, v)
    }

    ghost predicate Tables()
      reads this`chains, this`ptes, this`table, this`pages, this`owner, ptab, ptes`next
    {
      && |chains| == ptab.Length == TABLE_SIZE
      && (forall s {:trigger Bucket(s)} :: 0 <= s < TABLE_SIZE ==> Bucket(s))
      && (forall v {:trigger Entry(v)} :: v in table ==> Entry(v))
    }

    /** The byte the table holds for `addr`. */
    ghost function ByteAt(addr: Uint32): Byte
      reads this`table, this`pages, pages
    {
      if PageOf(addr) in table && table[PageOf(addr)].page in pages && table[PageOf(addr)].page.Length == PAGE_SIZE
      then table[PageOf(addr)].page[Offset(addr)] else 0
    }

    ghost predicate Contents()
      reads this`table, this`pages, this`flat, pages
    {
      && Total(flat)
      && forall a: Uint32 {:trigger ByteAt(a)} :: flat[a] == ByteAt(a)
    }

    ghost predicate Valid()
      reads this, ptab, ptes`next, pages
    {
      Tables() && Contents() && pageCount == |table|
    }

    /** mem_create and mem_init */
    constructor ()
      ensures Valid() && fresh(ptab) && ptes == {} && pages == {}
      ensures flat == Zeroed() && pageCount == 0 && ptabMisses == 0 && ptabAccesses == 0
    {
      ptab := new Pte?[TABLE_SIZE](i => null);
      pageCount, ptabMisses, ptabAccesses := 0, 0, 0;
      flat, table := Zeroed(), map[];
      chains := seq(TABLE_SIZE, i => []);
      ptes, pages, owner := {}, {}, map[];
    }

    // ---- translation ----

    /** The host page of `addr`, if it is allocated. */
    ghost function HostPage(addr: Uint32): array?<Byte>
      reads this`table
    {
      if PageOf(addr) in table then table[PageOf(addr)].page else null
    }

    /** The entry of `addr` is the first of its bucket. */
    ghost predicate AtFront(addr: Uint32)
      requires |chains| == TABLE_SIZE
      reads this`chains
    {
      var chain := chains[SetOf(addr)];
      |chain| > 0 && chain[0].tag == TagOf(addr)
    }

    /** mem_translate: search the bucket and move the entry found to its head; the contents do not change. */
    method Translate(addr: Uint32) returns (page: array?<Byte>)
      requires Valid()
      modifies this`ptabMisses, this`ptabAccesses, this`chains, ptab, ptes`next
      ensures Valid() && page == HostPage(addr)
      ensures ptabMisses == old(ptabMisses) + 1 && ptabAccesses == old(ptabAccesses) + 1
      ensures page != null ==> AtFront(addr)
    {
      ptabMisses, ptabAccesses := ptabMisses + 1, ptabAccesses + 1;
      var prev, pte, k := Search(addr);
      if pte == null {
        return null;
      }
      if prev != null {
        MoveToFront(SetOf(addr), prev, pte, k);
      }
      page := pte.page;
    }

    method Search(addr: Uint32) returns (prev: Pte?, pte: Pte?, ghost k: nat)
      requires Tables()
      ensures var chain := chains[SetOf(addr)];
              k <= |chain| && pte == At(chain, k) && prev == At(chain, k - 1)
      ensures if pte == null then PageOf(addr) !in table
              else PageOf(addr) in table && table[PageOf(addr)] == pte && pte.tag == TagOf(addr)
    {
      var s := SetOf(addr);
      assert Bucket(s);
      ghost var chain := chains[s];
      k := 0;
      prev, pte := null, ptab[s];
      while pte != null && pte.tag != TagOf(addr)
        invariant k <= |chain| && pte == At(chain, k) && prev == At(chain, k - 1)
        invariant forall j :: 0 <= j < k ==> chain[j].tag != TagOf(addr)
        decreases |chain| - k
      {
        prev, pte, k := pte, pte.next, k + 1;
      }
      PteAddrInverts(addr, TagOf(addr), s);
      if PageOf(addr) in table {
        assert Entry(PageOf(addr));
      }
    }

    /** Relink entry `k` of bucket `s` at its head. */
    method MoveToFront(s: nat, prev: Pte, pte: Pte, ghost k: nat)
      requires Tables() && s < TABLE_SIZE && 0 < k < |chains[s]|
      requires chains[s][k] == pte && chains[s][k - 1] == prev
      modifies this`chains, ptab, ptes`next
      ensures Tables() && chains == old(chains)[s := ToHead(old(chains[s]), k)]
    {
      ghost var chain := chains[s];
      assert Bucket(s);
      BucketsApart(s);
      Relink(s, prev, pte, chain, k);
      ghost var was := chains;
      chains := chains[s := ToHead(chain, k)];
      forall t | 0 <= t < TABLE_SIZE && t != s
        ensures Bucket(t)
      {
        assert old(Bucket(t));
      }
      forall v | v in table
        ensures EntryIn(was, v)
      {
        assert old(Entry(v));
      }
      MovedTables(was, s, k);
    }

    /** An entry is in one bucket only. */
    lemma BucketsApart(s: nat)
      requires Tables() && s < TABLE_SIZE
      ensures forall t, i :: 0 <= t < TABLE_SIZE && t != s && 0 <= i < |chains[t]|
                ==> chains[t][i] in ptes && chains[t][i] !in chains[s]
    {
      forall t, i | 0 <= t < TABLE_SIZE && t != s && 0 <= i < |chains[t]|
        ensures chains[t][i] in ptes && chains[t][i] !in chains[s]
      {
        var b := chains[t][i];
        assert Bucket(t) && Bucket(s);
        var v := EntryPage(b.tag, t);
        assert Entry(v);
        if EntryPage(b.tag, s) in table {
          assert Entry(EntryPage(b.tag, s));
        }
      }
    }

    method Relink(s: nat, prev: Pte, pte: Pte, ghost chain: seq<Pte>, ghost k: nat)
      requires s < ptab.Length && Linked(ptes, chain, ptab[s])
      requires 0 < k < |chain| && chain[k] == pte && chain[k - 1] == prev
      modifies ptab, ptes`next
      ensures Linked(ptes, ToHead(chain, k), ptab[s])
      ensures forall t :: 0 <= t < ptab.Length && t != s ==> ptab[t] == old(ptab[t])
      ensures forall b :: b in ptes && b !in chain ==> b.next == old(b.next)
    {
      prev.next := pte.next;
      pte.next := ptab[s];
      ptab[s] := pte;
      FrontLinked(ptes, chain, k);
    }

    lemma MovedTables(was: seq<seq<Pte>>, s: nat, k: nat)
      requires |was| == ptab.Length == TABLE_SIZE && s < TABLE_SIZE && k < |was[s]|
      requires chains == was[s := ToHead(was[s], k)]
      requires Linked(ptes, chains[s], ptab[s])
      requires forall i :: 0 <= i < |was[s]|
                 ==> EntryPage(was[s][i].tag, s) in table && table[EntryPage(was[s][i].tag, s)] == was[s][i]
      requires forall t {:trigger Bucket(t)} :: 0 <= t < TABLE_SIZE && t != s ==> Bucket(t)
      requires forall v {:trigger v in table} :: v in table ==> EntryIn(was, v)
      ensures Tables()
    {
      MoveAt(was[s], k);
      assert Bucket(s);
      forall v | v in table
        ensures Entry(v)
      {
        assert EntryIn(was, v);
        if v % TABLE_SIZE == s {
          MoveKeeps(was[s], k, table[v]);
        }
      }
    }

    /** `Entry` for given chains. */
    ghost predicate EntryIn(parts: seq<seq<Pte>>, v: nat)
      requires v in table && |parts| == TABLE_SIZE
      reads this`ptes, this`table, this`pages, this`owner
    {
      var pte := table[v];
      && v < PAGES && pte in ptes
      && pte.tag == v / TABLE_SIZE && pte in parts[v % TABLE_SIZE]
      && pte.page in pages && pte.page.Length == PAGE_SIZE
      && pte.page in owner && owner[pte.page] == v
    }

    // ---- allocation ----

    /** mem_newpage: put a zeroed page for `addr` at the head of its bucket; the contents do not change. */
    method NewPage(addr: Uint32)
      requires Valid() && PageOf(addr) !in table
      modifies this`pageCount, this`chains, this`table, this`ptes, this`pages, this`owner, ptab
      ensures Valid() && HostPage(addr) != null && AtFront(addr) && pageCount == old(pageCount) + 1
      ensures fresh(ptes - old(ptes)) && fresh(pages - old(pages)) && pages >= old(pages) && ptes >= old(ptes)
    {
      var pte := MakeEntry(TagOf(addr));
      EnterPage(addr, pte);
    }

    /** Link a new entry in; the rest of the page table is as before. */
    method EnterPage(addr: Uint32, pte: Pte)
      requires Valid() && PageOf(addr) !in table && pte !in ptes && pte.page !in pages && pte.page !in owner
      requires pte.tag == TagOf(addr) && pte.page.Length == PAGE_SIZE
      requires forall i :: 0 <= i < PAGE_SIZE ==> pte.page[i] == 0
      modifies this`pageCount, this`chains, this`table, this`ptes, this`pages, this`owner, ptab, pte`next
      ensures Valid() && HostPage(addr) != null && AtFront(addr) && pageCount == old(pageCount) + 1
      ensures ptes == old(ptes) + {pte} && pages == old(pages) + {pte.page}
    {
      var s := SetOf(addr);
      pte.next := ptab[s];
      ptab[s] := pte;
      pageCount := pageCount + 1;
      PteAddrInverts(addr, TagOf(addr), s);
      ghost var v := PageOf(addr);
      chains := chains[s := [pte] + chains[s]];
      table := table[v := pte];
      ptes := ptes + {pte};
      pages := pages + {pte.page};
      owner := owner[pte.page := v];
      InsertCard(old(table), v, pte);
      BucketEntered(v);
      EntriesKept(v);
      PageEntered(v);
    }

    method MakeEntry(tag: nat) returns (pte: Pte)
      ensures fresh(pte) && fresh(pte.page) && pte.tag == tag
      ensures pte.page.Length == PAGE_SIZE && forall i :: 0 <= i < PAGE_SIZE ==> pte.page[i] == 0
    {
      var page := new Byte[PAGE_SIZE](i => 0);
      pte := new Pte(tag, page);
    }

    // The three lemmas below compare the state before and after page `v` was entered in its bucket.

    twostate lemma EntriesKept(v: nat)
      requires v in table && v !in old(table) && v < PAGES && table[v].tag == v / TABLE_SIZE
      requires old(Tables()) && |chains| == TABLE_SIZE && table == old(table)[v := table[v]]
      requires var s := v % TABLE_SIZE; chains == old(chains)[s := [table[v]] + old(chains)[s]]
      requires ptes == old(ptes) + {table[v]} && pages == old(pages) + {table[v].page}
      requires table[v].page !in old(owner) && owner == old(owner)[table[v].page := v]
      requires table[v].page.Length == PAGE_SIZE
      ensures forall w {:trigger Entry(w)} :: w in table ==> Entry(w)
    {
      forall w | w in table
        ensures Entry(w)
      {
        assert w != v ==> old(Entry(w));
      }
    }

    twostate lemma BucketEntered(v: nat)
      requires old(Tables()) && v in table && v !in old(table) && v == EntryPage(table[v].tag, v % TABLE_SIZE)
      requires ptes == old(ptes) + {table[v]} && table[v] !in old(ptes) && table == old(table)[v := table[v]]
      requires var s := v % TABLE_SIZE;
               && chains == old(chains)[s := [table[v]] + old(chains)[s]]
               && ptab[s] == table[v] && table[v].next == old(ptab[s])
               && forall t :: 0 <= t < TABLE_SIZE && t != s ==> ptab[t] == old(ptab[t])
      requires forall b :: b in old(ptes) ==> b.next == old(b.next)
      ensures forall t {:trigger Bucket(t)} :: 0 <= t < TABLE_SIZE ==> Bucket(t)
    {
      forall t | 0 <= t < TABLE_SIZE
        ensures Bucket(t)
      {
        assert old(Bucket(t));
        if t == v % TABLE_SIZE {
          var chain, rest := chains[t], old(chains)[t];
          assert forall i :: 1 <= i < |chain| ==> chain[i] == rest[i - 1];
        }
      }
    }

    twostate lemma PageEntered(v: nat)
      requires old(Valid()) && v !in old(table) && v in table && flat == old(flat)
      requires table == old(table)[v := table[v]] && old(pages) <= pages
      requires forall i :: 0 <= i < table[v].page.Length ==> table[v].page[i] == 0
      requires forall p :: p in old(pages) ==> unchanged(p)
      ensures Contents()
    {
      forall a: Uint32
        ensures flat[a] == ByteAt(a)
      {
        assert old(ByteAt(a)) == old(flat)[a];
        if PageOf(a) in old(table) {
          assert old(Entry(PageOf(a)));
        }
      }
    }

    /** The table has grown by new entries and pages only. */
    twostate predicate Grown()
      reads this
    {
      fresh(ptes - old(ptes)) && fresh(pages - old(pages))
    }

    // ---- bytes ----

    /** MEM_PAGE: try the first entry of the bucket, then search it. */
    method Page(addr: Uint32) returns (page: array?<Byte>)
      requires Valid()
      modifies this`ptabMisses, this`ptabAccesses, this`chains, ptab, ptes`next
      ensures Valid() && page == HostPage(addr)
      ensures ptabAccesses == old(ptabAccesses) + 1
      ensures ptabMisses == old(ptabMisses) + if old(AtFront(addr)) then 0 else 1
      ensures page != null ==> AtFront(addr)
    {
      FrontIs(addr);
      if FrontHit(addr) {
        ptabAccesses := ptabAccesses + 1;
        page := FrontPage(addr);
      } else {
        page := Translate(addr);
      }
    }

    predicate FrontHit(addr: Uint32)
      requires ptab.Length == TABLE_SIZE
      reads ptab, ptab[SetOf(addr)]
    {
      var pte := ptab[SetOf(addr)];
      pte != null && pte.tag == TagOf(addr)
    }

    method FrontPage(addr: Uint32) returns (page: array<Byte>)
      requires Tables() && FrontHit(addr)
      ensures page == HostPage(addr) && AtFront(addr)
    {
      assert Bucket(SetOf(addr));
      PteAddrInverts(addr, TagOf(addr), SetOf(addr));
      page := ptab[SetOf(addr)].page;
    }

    lemma FrontIs(addr: Uint32)
      requires Tables()
      ensures FrontHit(addr) <==> AtFront(addr)
    {
      assert Bucket(SetOf(addr));
    }

    lemma HostBytes(addr: Uint32)
      requires Valid()
      ensures HostPage(addr) != null ==>
                HostPage(addr) in pages && HostPage(addr).Length == PAGE_SIZE
                    && flat[addr] == HostPage(addr)[Offset(addr)]
      ensures HostPage(addr) == null ==> flat[addr] == 0
    {
      assert ByteAt(addr) == flat[addr];
      if PageOf(addr) in table {
        assert Entry(PageOf(addr));
      }
    }

    /** MEM_READ of one byte: the page is looked up once to test it and, if allocated, once to read. */
    method ReadByte(addr: Uint32) returns (b: Byte)
      requires Valid()
      modifies this`ptabMisses, this`ptabAccesses, this`chains, ptab, ptes`next
      ensures Valid() && b == flat[addr]
      ensures ptabAccesses == old(ptabAccesses) + if HostPage(addr) == null then 1 else 2
      ensures ptabMisses == old(ptabMisses) + if old(AtFront(addr)) then 0 else 1
    {
      var page := Page(addr);
      HostBytes(addr);
      if page == null {
        return 0;
      }
      page := Page(addr);
      b := page[Offset(addr)];
    }

    /** MEM_TICKLE */
    method Tickle(addr: Uint32)
      requires Valid()
      modifies this`pageCount, this`ptabMisses, this`ptabAccesses, this`chains, this`table
      modifies this`ptes, this`pages, this`owner, ptab, ptes`next
      ensures Valid() && HostPage(addr) != null && AtFront(addr)
      ensures pageCount == old(pageCount) + if old(HostPage(addr)) == null then 1 else 0
      ensures ptabAccesses == old(ptabAccesses) + 1
      ensures fresh(ptes - old(ptes)) && fresh(pages - old(pages)) && pages >= old(pages) && ptes >= old(ptes)
    {
      var page := Page(addr);
      if page == null {
        NewPage(addr);
      }
    }

    /** MEM_WRITE of one byte. */
    method WriteByte(addr: Uint32, b: Byte)
      requires Valid()
      modifies this, ptab, ptes`next, pages
      ensures Valid() && flat == old(flat)[addr := b]
      ensures pageCount == old(pageCount) + if old(HostPage(addr)) == null then 1 else 0
      ensures ptabAccesses == old(ptabAccesses) + 2
      ensures Grown()
    {
      Tickle(addr);
      var page := Page(addr);
      HostBytes(addr);
      Poke(addr, page, b);
    }

    method Poke(addr: Uint32, page: array<Byte>, b: Byte)
      requires Valid() && page == HostPage(addr) && page in pages && page.Length == PAGE_SIZE
      modifies this`flat, page
      ensures Valid() && flat == old(flat)[addr := b]
    {
      PagesApart(addr);
      page[Offset(addr)] := b;
      flat := flat[addr := b];
      assert Contents() by {
        forall a: Uint32
          ensures flat[a] == ByteAt(a)
        {
          assert old(ByteAt(a)) == old(flat)[a];
        }
      }
    }

    /** Different addresses are different bytes of different pages. */
    lemma PagesApart(addr: Uint32)
      requires Valid() && PageOf(addr) in table
      ensures forall a: Uint32 {:trigger ByteAt(a)} ::
                a != addr && PageOf(a) in table && table[PageOf(a)].page == table[PageOf(addr)].page
                ==> Offset(a) != Offset(addr)
    {
      assert Entry(PageOf(addr));
      forall a: Uint32 | a != addr && PageOf(a) in table && table[PageOf(a)].page == table[PageOf(addr)].page
        ensures Offset(a) != Offset(addr)
      {
        assert Entry(PageOf(a));
      }
    }

    // ---- ranges ----

    /** The loop of mem_access that reads. */
    method ReadLoop(addr: Uint32, buf: array<Byte>, p: nat, n: nat)
      requires Valid() && buf !in pages && p + n <= buf.Length
      modifies this`ptabMisses, this`ptabAccesses, this`chains, ptab, ptes`next, buf
      ensures Valid()
      ensures buf[..] == old(buf[..p]) + Loaded(flat, addr, n) + old(buf[p + n..])
    {
      var k := 0;
      while k < n
        invariant k <= n && Valid()
        invariant forall i :: 0 <= i < k ==> buf[p + i] == flat[Plus(addr, i)]
        invariant forall i :: 0 <= i < buf.Length && !(p <= i < p + k) ==> buf[i] == old(buf[i])
      {
        var b := ReadByte(Plus(addr, k));
        buf[p + k] := b;
        k := k + 1;
      }
    }

    /** The loop of mem_access that writes. */
    method WriteLoop(addr: Uint32, buf: array<Byte>, p: nat, n: nat)
      requires Valid() && buf !in pages && p + n <= buf.Length
      modifies this, ptab, ptes`next, pages
      ensures Valid() && Grown() && flat == Stored(old(flat), addr, buf[p..p + n])
    {
      ghost var m := flat;
      var k := 0;
      assert buf[p..p] == [];
      while k < n
        invariant k <= n && Valid() && buf !in pages && Grown()
        invariant WrittenTo(m, buf, addr, p, k)
      {
        WriteNext(addr, buf, p, k, m);
        k := k + 1;
      }
    }

    /** `k` bytes of `buf` have been written to a memory that was `m`. */
    ghost predicate WrittenTo(m: Flat, buf: array<Byte>, addr: Uint32, p: nat, k: nat)
      reads this`flat, buf
    {
      Total(m) && p + k <= buf.Length && flat == Stored(m, addr, buf[p..p + k])
    }

    method WriteNext(addr: Uint32, buf: array<Byte>, p: nat, k: nat, ghost m: Flat)
      requires Valid() && buf !in pages && p + k < buf.Length && WrittenTo(m, buf, addr, p, k)
      modifies this, ptab, ptes`next, pages
      ensures Valid() && Grown() && WrittenTo(m, buf, addr, p, k + 1)
    {
      WriteByte(Plus(addr, k), buf[p + k]);
      assert buf[p..p + k + 1][..k] == buf[p..p + k];
    }

    /** mem_access */
    method Access(cmd: Command, addr: Uint32, buf: array<Byte>, p: nat, nbytes: int) returns (fault: Fault)
      requires Valid() && buf !in pages && p + (if nbytes < 0 then 0 else nbytes) <= buf.Length
      modifies this, ptab, ptes`next, pages, buf
      ensures Valid() && fault == AccessCheck(addr, nbytes)
      ensures Grown()
      ensures if fault == NoFault then Copied(cmd, old(flat), old(buf[..]), flat, buf[..], addr, p, nbytes)
              else flat == old(flat) && unchanged(buf)
    {
      if nbytes < 0 || (nbytes > 0 && And(nbytes, nbytes - 1) != 0) || nbytes > PAGE_SIZE {
        return AccessFault;
      }
      if (if nbytes == 0 then addr else And(addr, nbytes - 1)) != 0 {
        return AlignmentFault;
      }
      if cmd == Read {
        ReadLoop(addr, buf, p, nbytes);
      } else {
        WriteLoop(addr, buf, p, nbytes);
      }
      fault := NoFault;
    }

    /** mem_bcopy through mem_access: byte copies never fault, whatever the alignment, and wrap at the top of
        memory; a negative size copies nothing. */
    method Bcopy(cmd: Command, addr: Uint32, buf: array<Byte>, p: nat, nbytes: int) returns (fault: Fault)
      requires Valid() && buf !in pages && p + Positive(nbytes) <= buf.Length
      modifies this, ptab, ptes`next, pages, buf
      ensures Valid() && Grown() && fault == NoFault
      ensures Copied(cmd, old(flat), old(buf[..]), flat, buf[..], addr, p, if nbytes < 0 then 0 else nbytes)
    {
      fault := CopyBytes(cmd, addr, buf, p, Positive(nbytes));
    }

    method CopyBytes(cmd: Command, addr: Uint32, buf: array<Byte>, p: nat, n: nat) returns (fault: Fault)
      requires Valid() && buf !in pages && p + n <= buf.Length
      modifies this, ptab, ptes`next, pages, buf
      ensures Valid() && Grown() && fault == NoFault
      ensures CopyingBytes(cmd, old(flat), old(buf[..]), flat, buf[..], addr, p, n)
    {
      ghost var m, b := flat, buf[..];
      var k := 0;
      CopiedNone(cmd, m, b, addr, p);
      while k < n
        invariant k <= n && Valid() && Grown() && buf !in pages
        invariant CopyingBytes(cmd, m, b, flat, buf[..], addr, p, k)
      {
        fault := CopyByte(cmd, addr, buf, p, k, m, b);
        if fault != NoFault {
          return;
        }
        k := k + 1;
      }
      fault := NoFault;
    }

    /** One more byte of a copy of `k` bytes. */
    method CopyByte(cmd: Command, addr: Uint32, buf: array<Byte>, p: nat, k: nat, ghost m: Flat, ghost b: seq<Byte>)
      returns (fault: Fault)
      requires Valid() && buf !in pages && p + k + 1 <= buf.Length
      requires CopyingBytes(cmd, m, b, flat, buf[..], addr, p, k)
      modifies this, ptab, ptes`next, pages, buf
      ensures Valid() && Grown() && fault == NoFault
      ensures CopyingBytes(cmd, m, b, flat, buf[..], addr, p, k + 1)
    {
      fault := Access(cmd, Plus(addr, k), buf, p + k, 1);
      ByteAccess(Plus(addr, k));
      CopiedMore(cmd, m, b, old(flat), old(buf[..]), flat, buf[..], addr, p, k, 1);
    }

    /** mem_bcopy4 through mem_access: with an aligned address it is mem_bcopy of the whole words; otherwise its
        first access faults before anything is copied. */
    method Bcopy4(cmd: Command, addr: Uint32, buf: array<Byte>, p: nat, nbytes: int) returns (fault: Fault)
      requires Valid() && buf !in pages && p + Positive(nbytes) <= buf.Length
      modifies this, ptab, ptes`next, pages, buf
      ensures Valid() && Grown()
      ensures fault == if nbytes < 4 || addr % 4 == 0 then NoFault else AlignmentFault
      ensures if fault == NoFault
              then Copied(cmd, old(flat), old(buf[..]), flat, buf[..], addr, p,
                          if nbytes < 0 then 0 else nbytes / 4 * 4)
              else flat == old(flat) && buf[..] == old(buf[..])
    {
      var words := Positive(nbytes) / 4;
      assert 4 * words == if nbytes < 0 then 0 else nbytes / 4 * 4;
      fault := CopyWords(cmd, addr, buf, p, words);
    }

    method CopyWords(cmd: Command, addr: Uint32, buf: array<Byte>, p: nat, words: nat) returns (fault: Fault)
      requires Valid() && buf !in pages && p + 4 * words <= buf.Length
      modifies this, ptab, ptes`next, pages, buf
      ensures Valid() && Grown() && fault == if words == 0 || addr % 4 == 0 then NoFault else AlignmentFault
      ensures if fault == NoFault then Copied(cmd, old(flat), old(buf[..]), flat, buf[..], addr, p, 4 * words)
              else flat == old(flat) && buf[..] == old(buf[..])
    {
      ghost var m, b := flat, buf[..];
      var k := 0;
      CopiedNone(cmd, m, b, addr, p);
      while k < words
        invariant k <= words && Valid() && Grown() && buf !in pages
        invariant CopyingWords(cmd, m, b, flat, buf[..], addr, p, k)
      {
        fault := CopyWord(cmd, addr, buf, p, k, m, b);
        if fault != NoFault {
          return;
        }
        k := k + 1;
      }
      fault := NoFault;
    }

    /** One more word of a copy of `k` words; only the first can fail. */
    method CopyWord(cmd: Command, addr: Uint32, buf: array<Byte>, p: nat, k: nat, ghost m: Flat, ghost b: seq<Byte>)
      returns (fault: Fault)
      requires Valid() && buf !in pages && p + 4 * (k + 1) <= buf.Length
      requires CopyingWords(cmd, m, b, flat, buf[..], addr, p, k)
      modifies this, ptab, ptes`next, pages, buf
      ensures Valid() && Grown() && fault == if addr % 4 == 0 then NoFault else AlignmentFault
      ensures if fault == NoFault then CopyingWords(cmd, m, b, flat, buf[..], addr, p, k + 1)
              else flat == m && buf[..] == b
    {
      var j := 4 * k;
      fault := Access(cmd, Plus(addr, j), buf, p + j, 4);
      WordCopied(cmd, m, b, old(flat), old(buf[..]), flat, buf[..], addr, p, k, fault);
    }

    /** mem_bzero through mem_access; a negative size clears nothing. */
    method Bzero(addr: Uint32, nbytes: int) returns (fault: Fault)
      requires Valid()
      modifies this, ptab, ptes`next, pages
      ensures Valid() && Grown() && fault == NoFault
      ensures flat == Stored(old(flat), addr, Zeros(if nbytes < 0 then 0 else nbytes))
    {
      var c := new Byte[1][0];
      fault := ZeroBytes(addr, Positive(nbytes), c);
    }

    method ZeroBytes(addr: Uint32, n: nat, c: array<Byte>) returns (fault: Fault)
      requires Valid() && c !in pages && c.Length == 1 && c[0] == 0
      modifies this, ptab, ptes`next, pages, c
      ensures Valid() && Grown() && fault == NoFault
      ensures flat == Stored(old(flat), addr, Zeros(n))
    {
      ghost var m := flat;
      var k := 0;
      while k < n
        invariant k <= n && Valid() && Grown() && c !in pages && c[0] == 0
        invariant flat == Stored(m, addr, Zeros(k))
      {
        fault := ZeroByte(addr, k, c, m);
        if fault != NoFault {
          return;
        }
        k := k + 1;
      }
      fault := NoFault;
    }

    method ZeroByte(addr: Uint32, k: nat, c: array<Byte>, ghost m: Flat) returns (fault: Fault)
      requires Valid() && c !in pages && c.Length == 1 && c[0] == 0
      requires Total(m) && flat == Stored(m, addr, Zeros(k))
      modifies this, ptab, ptes`next, pages, c
      ensures Valid() && fault == NoFault && c[0] == 0
      ensures Grown()
      ensures flat == Stored(m, addr, Zeros(k + 1))
    {
      assert c[0..1] == c[..] == [0];
      fault := Access(Write, Plus(addr, k), c, 0, 1);
      ByteAccess(Plus(addr, k));
      StoreZero(m, addr, k);
      assert c[..][0] == 0;
    }
  }

  /** Copying a buffer into memory and back gives the same bytes, on every range, also one that wraps. */
  method RoundTrip(mem: Memory, addr: Uint32, src: array<Byte>, dst: array<Byte>, n: nat)
    requires mem.Valid() && src !in mem.pages && dst !in mem.pages && src != dst
    requires n <= src.Length && n <= dst.Length && n <= TOP
    modifies mem, mem.ptab, mem.ptes`next, mem.pages, src, dst
    ensures mem.Valid() && dst[..n] == src[..n] && src[..] == old(src[..])
  {
    var _ := mem.Bcopy(Write, addr, src, 0, n);
    ghost var data := src[0..n];
    WriteThenRead(old(mem.flat), addr, data);
    var _ := mem.Bcopy(Read, addr, dst, 0, n);
    assert dst[..n] == data;
  }
}
