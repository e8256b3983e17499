/**
 Bit operations on natural numbers, one bit at a time, and what the mask and shift
 idioms of the C sources mean in terms of division by powers of two.
 */
module Bits {
  import opened Defs

  /** One past the largest 32-bit address. */
  const TOP := 0x1_0000_0000

  /** x >> n */
  function High(x: nat, n: nat): nat {
    if n == 0 then x else High(x / 2, n - 1)
  }

  /** x & ((1 << n) - 1) */
  function Low(x: nat, n: nat): (r: nat)
    ensures r < Pow2(n) && r <= x
  {
    if n == 0 then 0 else x % 2 + 2 * Low(x / 2, n - 1)
  }

  /** x << n */
  function Shifted(x: nat, n: nat): nat {
    if n == 0 then x else 2 * Shifted(x, n - 1)
  }

  lemma {:induction false} HighIsDiv(x: nat, n: nat)
    ensures High(x, n) == x / Pow2(n)
  {
    if n > 0 {
      HighIsDiv(x / 2, n - 1);
      DivDiv(x, 2, Pow2(n - 1));
    }
  }

  lemma {:induction false} LowIsMod(x: nat, n: nat)
    ensures Low(x, n) == x % Pow2(n)
  {
    SplitBits(x, n);
    DivUnique(x, Pow2(n), High(x, n), Low(x, n));
  }

  lemma {:induction false} ShiftedIsMul(x: nat, n: nat)
    ensures Shifted(x, n) == x * Pow2(n)
  {
    if n > 0 {
      ShiftedIsMul(x, n - 1);
      Twice(Pow2(n - 1), x);
    }
  }

  lemma {:induction false} SplitBits(x: nat, n: nat)
    ensures x == Pow2(n) * High(x, n) + Low(x, n)
  {
    if n > 0 {
      SplitBits(x / 2, n - 1);
      Twice(Pow2(n - 1), High(x / 2, n - 1));
    }
  }

  lemma Twice(a: nat, b: nat)
    ensures (2 * a) * b == 2 * (a * b)
  {
  }

  function Xor(a: nat, b: nat): nat {
    if a == 0 && b == 0 then 0 else (a + b) % 2 + 2 * Xor(a / 2, b / 2)
  }

  function And(a: nat, b: nat): (r: nat)
    ensures r <= b
  {
    if a == 0 || b == 0 then 0
    else (if a % 2 == 1 && b % 2 == 1 then 1 else 0) + 2 * And(a / 2, b / 2)
  }

  /** Bit `j` of a number. */
  function Bit(x: nat, j: nat): nat {
    High(x, j) % 2
  }

  lemma XorHalf(a: nat, b: nat)
    ensures Xor(a, b) / 2 == Xor(a / 2, b / 2) && Xor(a, b) % 2 == (a + b) % 2
  {
  }

  lemma {:induction false} XorBit(a: nat, b: nat, j: nat)
    ensures Bit(Xor(a, b), j) == (Bit(a, j) + Bit(b, j)) % 2
  {
    var x := Xor(a, b);
    XorHalf(a, b);
    if j > 0 {
      XorBit(a / 2, b / 2, j - 1);
      NextBit(x, j);
      NextBit(a, j);
      NextBit(b, j);
    }
  }

  lemma NextBit(x: nat, j: nat)
    requires j > 0
    ensures Bit(x, j) == Bit(x / 2, j - 1)
  {
  }

  lemma {:induction false} LowBit(x: nat, m: nat, j: nat)
    requires j < m
    ensures Bit(Low(x, m), j) == Bit(x, j)
  {
    if j > 0 {
      LowBit(x / 2, m - 1, j - 1);
    }
  }

  lemma {:induction false} HighBit(x: nat, n: nat, j: nat)
    ensures Bit(High(x, n), j) == Bit(x, n + j)
  {
    if n > 0 {
      HighBit(x / 2, n - 1, j);
    }
  }

  predicate IsPow2(n: nat) {
    n == 1 || (n > 1 && n % 2 == 0 && IsPow2(n / 2))
  }

  function Log2(n: nat): (k: nat)
    requires IsPow2(n)
    ensures Pow2(k) == n
  {
    if n == 1 then 0 else 1 + Log2(n / 2)
  }

  lemma {:induction false} AndSelf(x: nat)
    ensures And(x, x) == x
  {
    if x > 0 {
      AndSelf(x / 2);
    }
  }

  /** The test n & (n - 1) == 0 recognises the powers of two. */
  lemma {:induction false} MaskTest(n: nat)
    requires n > 0
    ensures And(n, n - 1) == 0 <==> IsPow2(n)
  {
    if n % 2 == 1 {
      AndSelf(n / 2);
      assert n > 1 ==> (n - 1) / 2 == n / 2;
    } else {
      MaskTest(n / 2);
      assert (n - 1) / 2 == n / 2 - 1;
    }
  }

  lemma {:induction false} MaskIsLow(x: nat, k: nat)
    ensures And(x, Pow2(k) - 1) == Low(x, k)
  {
    if k > 0 {
      MaskIsLow(x / 2, k - 1);
      if x > 0 {
        assert (Pow2(k) - 1) / 2 == Pow2(k - 1) - 1 && (Pow2(k) - 1) % 2 == 1;
      } else {
        LowIsMod(0, k);
      }
    }
  }

  lemma DivMod(x: nat, d: nat)
    requires d >= 1
    ensures x == d * (x / d) + x % d && 0 <= x % d <= x && 0 <= x / d
  {
    DivNonneg(x, d);
    assert d * (x / d) >= 0;
  }

  lemma Pow2Mono(a: nat, b: nat)
    requires a <= b
    ensures Pow2(a) <= Pow2(b)
  {
    if a < b {
      Pow2Mono(a, b - 1);
    }
  }

  lemma Pow2Less(a: nat, b: nat)
    requires Pow2(a) < Pow2(b)
    ensures a < b
  {
    if b <= a {
      Pow2Mono(b, a);
    }
  }

  lemma TopIsPow2()
    ensures Pow2(32) == TOP
  {
    assert Pow2(8) == 0x100;
    assert Pow2(16) == 0x1_0000 by { Pow2Add(8, 8); }
    Pow2Add(16, 16);
  }

  /** A power-of-two aligned range of addresses ends at the top of memory or below. */
  lemma AlignedEnd(x: Uint32, k: nat)
    requires k < 32 && x % Pow2(k) == 0
    ensures x + Pow2(k) <= TOP
  {
    TopIsPow2();
    Pow2Add(k, 32 - k);
    DivMod(x, Pow2(k));
    MultipleBelow(Pow2(k), Pow2(32 - k), x / Pow2(k));
  }

  lemma MultipleBelow(d: nat, m: nat, q: nat)
    requires d * q < d * m
    ensures d * q + d <= d * m
  {
    if q >= m {
      MulMono(d, m, q);
    } else {
      MulMono(d, q + 1, m);
      assert d * (q + 1) == d * q + d;
    }
  }

  lemma {:induction false} PowersOfTwo(k: nat)
    ensures IsPow2(Pow2(k))
  {
    if k > 0 {
      PowersOfTwo(k - 1);
    }
  }

  /** The mask test for a power of two, and the mask test that it divides the address. */
  lemma MaskCheck(addr: Uint32, nbytes: nat)
    requires nbytes > 0
    ensures And(nbytes, nbytes - 1) == 0 <==> IsPow2(nbytes)
    ensures IsPow2(nbytes) ==> And(addr, nbytes - 1) == addr % nbytes
  {
    MaskTest(nbytes);
    if IsPow2(nbytes) {
      MaskIsLow(addr, Log2(nbytes));
      LowIsMod(addr, Log2(nbytes));
    }
  }
}
