/**
 The vocabulary shared by the coherence simulator: bus operations, line states,
 statistics, the machine configuration, and the split of an address into a set
 index and a tag.
 */
module Defs {
  datatype Option<+T> = None | Some(value: T)

  type Uint32 = x: int | 0 <= x < 0x1_0000_0000

  datatype Protocol = Mesi | Smart | Mesif | Moesi | Dragon

  datatype BusOp = BusRd | BusRdX | BusUpgr | Writeback | NoOp

  /** The union of the states of the five protocols; `Legal` says which protocol uses which. */
  datatype LineState =
    | Invalid | Shared | Exclusive | Modified
    | Forward                       // MESIF
    | Owned                         // MOESI
    | SharedClean | SharedModified  // Dragon

  predicate Legal(p: Protocol, st: LineState) {
    match p
    case Mesi => st in {Invalid, Shared, Exclusive, Modified}
    case Smart => st in {Invalid, Shared, Exclusive, Modified}
    case Mesif => st in {Invalid, Shared, Exclusive, Modified, Forward}
    case Moesi => st in {Invalid, Shared, Exclusive, Modified, Owned}
    case Dragon => st in {Invalid, SharedClean, SharedModified, Exclusive, Modified}
  }

  datatype CoreStats = CoreStats(
    computeCycles: nat, loads: nat, stores: nat, hits: nat, misses: nat,
    invSent: nat, invReceived: nat, privateAccesses: nat, sharedAccesses: nat)

  datatype GlobalStats = GlobalStats(
    traffic: nat, invalidations: nat, busReads: nat, busReadx: nat,
    busUpgrades: nat, busWritebacks: nat, cacheToCache: nat)

  const ZERO_CORE := CoreStats(0, 0, 0, 0, 0, 0, 0, 0, 0)
  const ZERO_GLOBAL := GlobalStats(0, 0, 0, 0, 0, 0, 0)

  function Pow2(n: nat): (r: nat)
    ensures r >= 1
  {
    if n == 0 then 1 else 2 * Pow2(n - 1)
  }

  function Shr(x: nat, n: nat): nat {
    DivNonneg(x, Pow2(n));
    x / Pow2(n)
  }

  lemma DivNonneg(x: nat, d: nat)
    requires d >= 1
    ensures x / d >= 0
  {
  }

  /** `offsetBits` and `setBits` are the logarithms of the block size and of the number of sets. */
  datatype Config = Config(protocol: Protocol, cores: nat, assoc: nat,
                           setBits: nat, offsetBits: nat, readPriority: bool)
  {
    predicate Valid() {
      cores >= 1 && assoc >= 1 && setBits + offsetBits < 32
    }

    function BlockSize(): (r: nat)
      ensures r >= 1
    {
      Pow2(offsetBits)
    }

    function NumSets(): (r: nat)
      ensures r >= 1
    {
      Pow2(setBits)
    }

    /** (addr >> offset_bits) & (num_sets - 1) */
    function SetIndex(addr: Uint32): (k: nat)
      ensures k < NumSets()
    {
      addr / BlockSize() % NumSets()
    }

    /** addr >> (offset_bits + set_bits) */
    function Tag(addr: Uint32): (t: nat) {
      Shr(addr, offsetBits + setBits)
    }
  }

  lemma {:induction false} Pow2Add(a: nat, b: nat)
    ensures Pow2(a + b) == Pow2(a) * Pow2(b)
    decreases b
  {
    if b == 0 {
    } else {
      Pow2Add(a, b - 1);
      assert Pow2(a + b) == 2 * Pow2(a + (b - 1));
    }
  }

  lemma DivDiv(x: nat, a: nat, b: nat)
    requires a >= 1 && b >= 1
    ensures a * b >= 1 && x / (a * b) == x / a / b
  {
    DivNonneg(x, a);
    var q, r := x / a, x % a;
    Compose(x, a, b, q, r, q / b, q % b);
    DivUnique(x, a * b, q / b, a * (q % b) + r);
  }

  lemma Compose(x: nat, a: nat, b: nat, q: nat, r: nat, q2: int, r2: nat)
    requires x == a * q + r && r < a && q == b * q2 + r2 && r2 < b && q2 >= 0
    ensures x == (a * b) * q2 + (a * r2 + r) && 0 <= a * r2 + r < a * b && a * b >= 1
  {
    Distribute(a, b, q2, r2);
    MulMono(a, r2, b - 1);
    assert a * (b - 1) == a * b - a;
  }

  lemma Distribute(a: nat, b: nat, c: nat, d: nat)
    ensures a * (b * c + d) == (a * b) * c + a * d
  {
    assert a * (b * c + d) == a * (b * c) + a * d;
    assert a * (b * c) == (a * b) * c;
  }

  lemma MulMono(a: nat, b: nat, c: nat)
    requires b <= c
    ensures a * b <= a * c
  {
  }

  lemma DivUnique(x: nat, d: nat, q: nat, r: nat)
    requires d >= 1 && x == d * q + r && r < d
    ensures x / d == q && x % d == r
  {
    var q', r' := x / d, x % d;
    assert x == d * q' + r' && 0 <= r' < d;
    assert d * (q' + 1) == d * q' + d && d * (q + 1) == d * q + d;
    if q' < q {
      MulMono(d, q' + 1, q);
    } else if q < q' {
      MulMono(d, q + 1, q');
    }
  }

  /** Two addresses fall on one line (same set index, same tag) exactly when they lie in one memory block. */
  lemma LineIsBlock(cfg: Config, a: Uint32, b: Uint32)
    ensures (cfg.SetIndex(a) == cfg.SetIndex(b) && cfg.Tag(a) == cfg.Tag(b))
            <==> a / cfg.BlockSize() == b / cfg.BlockSize()
  {
    var s, n := cfg.BlockSize(), cfg.NumSets();
    Pow2Add(cfg.offsetBits, cfg.setBits);
    DivDiv(a, s, n);
    DivDiv(b, s, n);
    var x, y := a / s, b / s;
    assert x == n * (x / n) + x % n && y == n * (y / n) + y % n;
  }

  /** Tag, set index and offset are the digits of the address. */
  lemma AddressSplit(cfg: Config, a: Uint32)
    ensures cfg.SetIndex(a) < Pow2(cfg.setBits)
    ensures a == cfg.Tag(a) * (Pow2(cfg.offsetBits) * Pow2(cfg.setBits)) + cfg.SetIndex(a) * Pow2(cfg.offsetBits)
                 + a % Pow2(cfg.offsetBits)
  {
    var s, n := cfg.BlockSize(), cfg.NumSets();
    Pow2Add(cfg.offsetBits, cfg.setBits);
    DivDiv(a, s, n);
    DivNonneg(a, s);
    DivNonneg(a / s, n);
    Quotient(a, s);
    Quotient(a / s, n);
    Join(a, s, n, a / s, a % s, a / s / n, a / s % n);
  }

  lemma Join(x: nat, s: nat, n: nat, q: nat, r: nat, t: nat, i: nat)
    requires x == s * q + r && q == n * t + i
    ensures x == t * (s * n) + i * s + r
  {
    Distribute(s, n, t, i);
  }

  lemma Quotient(x: nat, d: nat)
    requires d >= 1
    ensures x == d * (x / d) + x % d && 0 <= x % d < d
  {
  }

  /** The sum of `f` over a sequence. */
  ghost function SumBy<T>(s: seq<T>, f: T -> int): int {
    if s == [] then 0 else SumBy(s[..|s| - 1], f) + f(s[|s| - 1])
  }

  lemma {:induction false} SumUpdate<T>(s: seq<T>, f: T -> int, i: nat, x: T)
    requires i < |s|
    ensures SumBy(s[i := x], f) == SumBy(s, f) - f(s[i]) + f(x)
  {
    var n := |s| - 1;
    if i == n {
      assert s[i := x][..n] == s[..n];
    } else {
      SumUpdate(s[..n], f, i, x);
      assert s[i := x][..n] == s[..n][i := x];
    }
  }

  lemma {:induction false} SumNonneg<T>(s: seq<T>, f: T -> int)
    requires forall i :: 0 <= i < |s| ==> f(s[i]) >= 0
    ensures SumBy(s, f) >= 0
  {
    if s != [] {
      SumNonneg(s[..|s| - 1], f);
    }
  }

  lemma {:induction false} SumZero<T>(s: seq<T>, f: T -> int)
    requires forall i :: 0 <= i < |s| ==> f(s[i]) == 0
    ensures SumBy(s, f) == 0
  {
    if s != [] {
      SumZero(s[..|s| - 1], f);
    }
  }

  lemma InsertCard<K, V>(m: map<K, V>, k: K, v: V)
    requires k !in m
    ensures |m[k := v]| == |m| + 1
  {
    assert m[k := v].Keys == m.Keys + {k};
    assert |m[k := v]| == |m[k := v].Keys| && |m| == |m.Keys|;
  }
}
