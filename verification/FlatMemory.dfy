/**
 The flat, zero-initialised 32-bit byte memory that the page table implements:
 a total map from addresses to bytes, with ranges that wrap at the top.
 */
module FlatMemory {
  import opened Bits
  import opened Defs

  const PAGE_SIZE := 4096
  const TABLE_SIZE := 32768

  type Byte = x: int | 0 <= x < 256

  /** A memory: its domain is exactly the 32-bit addresses. */
  type Flat = imap<int, Byte>

  predicate IsAddress(a: int) {
    0 <= a < TOP
  }

  ghost predicate Total(m: Flat) {
    forall a {:trigger a in m} :: a in m <==> IsAddress(a)
  }

  ghost function Zeroed(): (m: Flat)
    ensures Total(m)
  {
    imap a | IsAddress(a) :: 0
  }

  /** The address `i` bytes after `addr`. */
  function Plus(addr: Uint32, i: nat): Uint32 {
    (addr + i) % TOP
  }

  // ---- pages ----

  /** MEM_PTAB_SET */
  function SetOf(addr: Uint32): nat {
    addr / PAGE_SIZE % TABLE_SIZE
  }

  /** MEM_PTAB_TAG */
  function TagOf(addr: Uint32): nat {
    addr / (PAGE_SIZE * TABLE_SIZE)
  }

  /** MEM_OFFSET */
  function Offset(addr: Uint32): nat {
    addr % PAGE_SIZE
  }

  /** The virtual page number. */
  function PageOf(addr: Uint32): nat {
    addr / PAGE_SIZE
  }

  /** The page number of a table entry with this tag in this bucket. */
  function EntryPage(tag: nat, bucket: nat): nat {
    tag * TABLE_SIZE + bucket
  }

  /** MEM_PTE_ADDR; the shifted tag and index have no bit in common, so `|` is a sum. */
  function PteAddr(tag: nat, bucket: nat): nat {
    tag * (PAGE_SIZE * TABLE_SIZE) + bucket * PAGE_SIZE
  }

  /** Bucket and tag determine the page: MEM_PTE_ADDR inverts the split of an address, offset aside, and is the
      only pair that gives that page. */
  lemma PteAddrInverts(addr: Uint32, tag: nat, bucket: nat)
    requires bucket < TABLE_SIZE
    ensures PteAddr(TagOf(addr), SetOf(addr)) == addr - Offset(addr)
    ensures PteAddr(tag, bucket) == addr - Offset(addr) <==> tag == TagOf(addr) && bucket == SetOf(addr)
    ensures EntryPage(tag, bucket) == PageOf(addr) <==> tag == TagOf(addr) && bucket == SetOf(addr)
  {
    assert addr / (PAGE_SIZE * TABLE_SIZE) == addr / PAGE_SIZE / TABLE_SIZE;
  }

  // ---- ranges ----

  /** The bytes at `addr` onward. */
  ghost function Loaded(m: Flat, addr: Uint32, n: nat): (data: seq<Byte>)
    requires Total(m)
    ensures |data| == n && forall i {:trigger data[i]} :: 0 <= i < n ==> data[i] == m[Plus(addr, i)]
  {
    seq(n, i requires 0 <= i => m[Plus(addr, i)])
  }

  /** The memory after storing `data` at `addr` onward, first byte first. */
  ghost function Stored(m: Flat, addr: Uint32, data: seq<Byte>): (r: Flat)
    requires Total(m)
    ensures Total(r)
  {
    if data == [] then m
    else
      var n := |data| - 1;
      Stored(m, addr, data[..n])[Plus(addr, n) := data[n]]
  }

  /** Bytes outside the range keep their value; this covers ranges that wrap. */
  lemma {:induction false} StoredElsewhere(m: Flat, addr: Uint32, data: seq<Byte>, a: Uint32)
    requires Total(m) && forall i :: 0 <= i < |data| ==> Plus(addr, i) != a
    ensures Stored(m, addr, data)[a] == m[a]
  {
    if data != [] {
      StoredElsewhere(m, addr, data[..|data| - 1], a);
      assert Plus(addr, |data| - 1) != a;
    }
  }

  lemma {:induction false} StoredAt(m: Flat, addr: Uint32, data: seq<Byte>, i: nat)
    requires Total(m) && i < |data| <= TOP
    ensures Stored(m, addr, data)[Plus(addr, i)] == data[i]
  {
    var n := |data| - 1;
    if i < n {
      StoredAt(m, addr, data[..n], i);
      assert Plus(addr, i) != Plus(addr, n);
    }
  }

  /** Every byte after a store, by its distance above the start of the range, counted round the top of memory. */
  lemma StoredEvery(m: Flat, addr: Uint32, data: seq<Byte>, a: Uint32)
    requires Total(m) && |data| <= 0x1_0000_0000
    ensures var i := if a >= addr then a - addr else a + 0x1_0000_0000 - addr;
            Stored(m, addr, data)[a] == if i < |data| then data[i] else m[a]
  {
    var i := if a >= addr then a - addr else a + TOP - addr;
    if i < |data| {
      StoredAt(m, addr, data, i);
    } else {
      forall j | 0 <= j < |data|
        ensures Plus(addr, j) != a
      {
        RoundTop(addr, j, a);
      }
      StoredElsewhere(m, addr, data, a);
    }
  }

  lemma RoundTop(addr: Uint32, j: nat, a: Uint32)
    requires j < TOP
    ensures Plus(addr, j) == (if addr + j < TOP then addr + j else addr + j - TOP)
    ensures Plus(addr, j) == a <==> j == if a >= addr then a - addr else a + TOP - addr
  {
  }

  /** Every byte of a load. */
  lemma LoadedEvery(m: Flat, addr: Uint32, n: nat, i: nat)
    requires Total(m) && i < n <= 0x1_0000_0000
    ensures Loaded(m, addr, n)[i] == m[if addr + i < 0x1_0000_0000 then addr + i else addr + i - 0x1_0000_0000]
  {
    RoundTop(addr, i, Plus(addr, i));
  }

  function Zeros(n: nat): seq<Byte> {
    seq(n, i => 0)
  }

  /** Every byte after a range has been cleared. */
  lemma ClearedEvery(m: Flat, addr: Uint32, n: nat, a: Uint32)
    requires Total(m) && n <= 0x1_0000_0000
    ensures var i := if a >= addr then a - addr else a + 0x1_0000_0000 - addr;
            Stored(m, addr, Zeros(n))[a] == if i < n then 0 else m[a]
  {
    StoredEvery(m, addr, Zeros(n), a);
  }

  /** Reading back what was just written, for every range up to the whole address space, wrapping or not. */
  lemma WriteThenRead(m: Flat, addr: Uint32, data: seq<Byte>)
    requires Total(m) && |data| <= TOP
    ensures Loaded(Stored(m, addr, data), addr, |data|) == data
  {
    forall i | 0 <= i < |data|
      ensures Loaded(Stored(m, addr, data), addr, |data|)[i] == data[i]
    {
      StoredAt(m, addr, data, i);
    }
  }

  /** Writing back what was just read changes nothing. */
  lemma {:induction false} ReadThenWrite(m: Flat, addr: Uint32, n: nat)
    requires Total(m)
    ensures Stored(m, addr, Loaded(m, addr, n)) == m
  {
    if n > 0 {
      ReadThenWrite(m, addr, n - 1);
      assert Loaded(m, addr, n)[..n - 1] == Loaded(m, addr, n - 1);
    }
  }

  lemma PlusPlus(addr: Uint32, j: nat, i: nat)
    ensures Plus(Plus(addr, j), i) == Plus(addr, j + i)
  {
  }

  /** Storing in two pieces is storing the whole. */
  lemma {:induction false} StoredSplit(m: Flat, addr: Uint32, a: seq<Byte>, b: seq<Byte>)
    requires Total(m)
    ensures Stored(Stored(m, addr, a), Plus(addr, |a|), b) == Stored(m, addr, a + b)
  {
    if b == [] {
      assert a + b == a;
    } else {
      var n := |b| - 1;
      StoredSplit(m, addr, a, b[..n]);
      PlusPlus(addr, |a|, n);
      SplitLast(a, b);
    }
  }

  lemma SplitLast(a: seq<Byte>, b: seq<Byte>)
    requires b != []
    ensures (a + b)[..|a + b| - 1] == a + b[..|b| - 1]
  {
  }

  lemma LoadedSplit(m: Flat, addr: Uint32, j: nat, k: nat)
    requires Total(m)
    ensures Loaded(m, addr, j) + Loaded(m, Plus(addr, j), k) == Loaded(m, addr, j + k)
  {
    var whole, parts := Loaded(m, addr, j + k), Loaded(m, addr, j) + Loaded(m, Plus(addr, j), k);
    forall i | 0 <= i < j + k
      ensures whole[i] == parts[i]
    {
      if j <= i {
        PlusPlus(addr, j, i - j);
      }
    }
  }
}
