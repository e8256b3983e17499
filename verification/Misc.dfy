/**
 The decimal printer and the number parsers of misc.c: digits written backwards
 into a buffer through casts to 32 bits, and an accumulator with an overflow flag.
 Each is proved against its meaning in `Decimal`.
 */
module Misc {
  import opened Bits
  import opened Defs
  import opened Decimal

  const MAXDIGS := 22

  // ---- machine arithmetic ----

  /** The cast to a 32-bit signed integer. */
  function Wrap32(x: int): int {
    (x + 0x8000_0000) % 0x1_0000_0000 - 0x8000_0000
  }

  /** The cast to a character. */
  function LowByte(x: int): char {
    (x % 256) as char
  }

  function AsUnsigned(v: Sqword): Qword {
    if v < 0 then v + 2 * HIBIT else v
  }

  function AsSigned(u: Qword): Sqword {
    if u < HIBIT then u else u - 2 * HIBIT
  }

  /** n - (int)qval * 10 + '0', where n is the cast of `q` and qval is `q / 10`. */
  function CastDigit(q: int): char {
    LowByte(Wrap32(Wrap32(Wrap32(q) - Wrap32(Wrap32(q / 10) * 10)) + '0' as int))
  }

  /** The casts lose nothing: the wrapped difference is still the low decimal digit. */
  lemma CastDigitIs(q: nat)
    ensures CastDigit(q) == Digit(q % 10)
  {
    var n, m := Wrap32(q), Wrap32(q / 10);
    var m10 := Wrap32(m * 10);
    var d := Wrap32(n - m10);
    WrapMod(q);
    WrapMod(q / 10);
    WrapMod(m * 10);
    WrapMod(n - m10);
    Cancel(q, n, m, m10, d);
    assert Wrap32(d + '0' as int) == d + '0' as int;
  }

  lemma WrapMod(x: int)
    ensures exists k :: Wrap32(x) == x + 0x1_0000_0000 * k
    ensures -0x8000_0000 <= Wrap32(x) < 0x8000_0000
  {
    var y := x + 0x8000_0000;
    assert Wrap32(x) == x + 0x1_0000_0000 * -(y / 0x1_0000_0000);
  }

  lemma Cancel(q: nat, n: int, m: int, m10: int, d: int)
    requires exists k :: n == q + 0x1_0000_0000 * k
    requires exists k :: m == q / 10 + 0x1_0000_0000 * k
    requires exists k :: m10 == m * 10 + 0x1_0000_0000 * k
    requires exists k :: d == n - m10 + 0x1_0000_0000 * k
    requires -0x8000_0000 <= d < 0x8000_0000
    ensures d == q % 10
  {
    var a :| n == q + 0x1_0000_0000 * a;
    var b :| m == q / 10 + 0x1_0000_0000 * b;
    var c :| m10 == m * 10 + 0x1_0000_0000 * c;
    var e :| d == n - m10 + 0x1_0000_0000 * e;
    assert d == q - q / 10 * 10 + 0x1_0000_0000 * (a - 10 * b - c + e);
    assert q == q / 10 * 10 + q % 10;
  }

  // ---- printing ----

  /** _lowdigit: the low decimal digit and the tenth of the bits of `val` read as unsigned. */
  method LowDigit(val: Sqword) returns (c: char, rest: Sqword)
    ensures c == Digit(AsUnsigned(val) % 10) && rest == AsUnsigned(val) / 10
  {
    var lowbit := val % 2;
    var value := val / 2 % HIBIT;
    Halves(val);
    Fifths(value, lowbit);
    rest := value / 5;
    c := LowByte(value % 5 * 2 + lowbit + '0' as int);
  }

  /** The last digit of a value whose high bit is set, and what is left of the value. */
  method PushLowDigit(buf: array<char>, p: nat, val: Sqword) returns (bp: nat, rest: Sqword)
    requires 0 < p <= buf.Length && val < 0
    modifies buf
    ensures bp == p - 1 && 0 <= rest
    ensures Digits(AsUnsigned(val)) == Digits(rest) + buf[bp..p]
  {
    var c;
    c, rest := LowDigit(val);
    bp := p - 1;
    buf[bp] := c;
    assert buf[bp..p] == [c];
  }

  /** The arithmetic shift with the sign bit cleared is the unsigned half. */
  lemma Halves(val: Sqword)
    ensures AsUnsigned(val) == 2 * (val / 2 % HIBIT) + val % 2 && 0 <= val % 2 <= 1
  {
    if val < 0 {
      assert val / 2 + HIBIT == val / 2 % HIBIT;
    } else {
      assert val / 2 == val / 2 % HIBIT;
    }
  }

  lemma Fifths(value: nat, bit: nat)
    requires bit <= 1
    ensures (2 * value + bit) / 10 == value / 5 && (2 * value + bit) % 10 == value % 5 * 2 + bit
  {
  }

  /** The code at label `decimal`: write the digits of `val` in front of position `end`. */
  method WriteDigits(buf: array<char>, end: nat, val: Sqword) returns (bp: nat)
    requires 0 <= val && |Digits(val)| <= end <= buf.Length
    modifies buf
    ensures bp == end - |Digits(val)| && buf[bp..end] == Digits(val)
    ensures forall i :: 0 <= i < buf.Length && !(bp <= i < end) ==> buf[i] == old(buf[i])
  {
    var qval := val;
    bp := end;
    while qval > 9
      invariant 0 <= qval && bp <= end && |Digits(qval)| <= bp
      invariant Digits(val) == Digits(qval) + buf[bp..end]
      invariant forall i :: 0 <= i < buf.Length && !(bp <= i < end) ==> buf[i] == old(buf[i])
    {
      bp, qval := NextDigit(buf, bp, end, qval, val);
    }
    bp := PutDigit(buf, bp, end, LowByte(Wrap32(qval) + '0' as int));
  }

  /** One turn of the digit loop: the low digit of `qval` goes in front of what is written of `val`. */
  method NextDigit(buf: array<char>, p: nat, end: nat, qval: Sqword, ghost val: nat) returns (bp: nat, rest: Sqword)
    requires 9 < qval && p <= end <= buf.Length && |Digits(qval)| <= p && Digits(val) == Digits(qval) + buf[p..end]
    modifies buf
    ensures bp == p - 1 && rest == qval / 10 && |Digits(rest)| <= bp
    ensures Digits(val) == Digits(rest) + buf[bp..end]
    ensures forall i :: 0 <= i < buf.Length && !(bp <= i < end) ==> buf[i] == old(buf[i])
  {
    CastDigitIs(qval);
    bp := PutDigit(buf, p, end, CastDigit(qval));
    rest := qval / 10;
  }

  method PutDigit(buf: array<char>, p: nat, end: nat, c: char) returns (bp: nat)
    requires 0 < p <= end <= buf.Length
    modifies buf
    ensures bp == p - 1 && buf[bp..end] == [c] + old(buf[p..end])
    ensures forall i :: 0 <= i < buf.Length && !(bp <= i < end) ==> buf[i] == old(buf[i])
  {
    ghost var tail := buf[p..end];
    bp := p - 1;
    buf[bp] := c;
    assert buf[bp..end] == [c] + tail;
  }

  /** The digits of `val`, in front of what is already developed. */
  method WriteInFront(buf: array<char>, end: nat, p: nat, val: Sqword) returns (bp: nat)
    requires 0 <= val && |Digits(val)| <= end <= p <= buf.Length
    modifies buf
    ensures bp <= p && buf[bp..p] == Digits(val) + old(buf[end..p])
  {
    ghost var done := buf[end..p];
    bp := WriteDigits(buf, end, val);
    assert buf[end..p] == done;
    assert buf[bp..p] == buf[bp..end] + buf[end..p];
  }

  method Pad(obuf: string, c: char, n: nat) returns (out: string)
    ensures out == obuf + Repeat(c, n)
  {
    out := obuf;
    var nn := n;
    while nn > 0
      invariant 0 <= nn <= n && out == obuf + Repeat(c, n - nn)
    {
      out := out + [c];
      nn := nn - 1;
      assert Repeat(c, n - nn) == Repeat(c, n - nn - 1) + [c];
    }
  }

  /** The common end of all conversions: padding blanks, prefix, padding zeros, and the developed value. */
  method Emit(buf: array<char>, bp: nat, p: nat, prefix: string, width: nat, padZero: bool) returns (out: string)
    requires bp <= p <= buf.Length
    ensures out == Padded(prefix, buf[bp..p], width, padZero)
  {
    var k := p - bp + |prefix|;
    var lzero := 0;
    out := "";
    if width > k {
      if padZero {
        lzero := width - k;
      } else {
        out := Pad(out, ' ', width - k);
      }
    }
    out := EmitValue(out, buf[bp..p], prefix, lzero);
    EmittedIs(prefix, buf[bp..p], width, padZero);
  }

  /** Prefix, padding zeros, and the developed value. */
  method EmitValue(obuf: string, digits: string, prefix: string, lzero: nat) returns (out: string)
    ensures out == obuf + prefix + Repeat('0', lzero) + digits
  {
    out := obuf + prefix;
    out := Pad(out, '0', lzero);
    out := out + digits;
  }

  lemma EmittedIs(prefix: string, digits: string, width: nat, padZero: bool)
    ensures var k := |digits| + |prefix|;
            var lead := if width > k && !padZero then "" + Repeat(' ', width - k) else "";
            Padded(prefix, digits, width, padZero)
            == lead + prefix + Repeat('0', if width > k && padZero then width - k else 0) + digits
  {
    assert Repeat(' ', 0) == "" && Repeat('0', 0) == "";
  }

  lemma QwordDigits(n: nat)
    requires n <= ULL_MAX
    ensures |Digits(n)| <= 20
  {
    assert Power10(10) == 1_00000_00000;
    Power10Add(10, 10);
    DigitsLength(n, 20);
  }

  lemma {:induction false} Power10Add(a: nat, b: nat)
    ensures Power10(a + b) == Power10(a) * Power10(b)
  {
    if a > 0 {
      Power10Add(a - 1, b);
      Twenty(Power10(a - 1), Power10(b));
    }
  }

  lemma Twenty(x: nat, y: nat)
    ensures (10 * x) * y == 10 * (x * y)
  {
  }

  /** The %d conversion; the least value loses its last digit before its sign can be dropped. */
  method FormatSigned(arg: Sqword, width: nat, padZero: bool) returns (out: string)
    ensures out == Signed(arg, width, padZero)
  {
    var buf := new char[MAXDIGS * 4];
    var val, prefix, p, bp := arg, "", MAXDIGS, MAXDIGS;
    QwordDigits(Magnitude(arg));
    if val < 0 {
      prefix := "-";
      if val != LL_MIN {
        val := -val;
      } else {
        bp, val := PushLowDigit(buf, bp, val);
      }
    }
    assert Digits(Magnitude(arg)) == Digits(val) + buf[bp..p];
    bp := WriteInFront(buf, bp, p, val);
    out := Emit(buf, bp, p, prefix, width, padZero);
  }

  /** The digits of bits read as unsigned: if the high bit is set, the low digit is written first. */
  method WriteUnsigned(buf: array<char>, p: nat, val: Sqword) returns (bp: nat)
    requires p <= buf.Length && |Digits(AsUnsigned(val))| <= p
    modifies buf
    ensures bp <= p && buf[bp..p] == Digits(AsUnsigned(val))
  {
    if val < 0 {
      var rest;
      bp, rest := PushLowDigit(buf, p, val);
      bp := WriteInFront(buf, bp, p, rest);
    } else {
      bp := WriteDigits(buf, p, val);
    }
  }

  /** The %u conversion; the argument is held in a signed variable. */
  method FormatUnsigned(arg: Qword, width: nat, padZero: bool) returns (out: string)
    ensures out == Unsigned(arg, width, padZero)
  {
    var buf := new char[MAXDIGS * 4];
    QwordDigits(arg);
    var bp := WriteUnsigned(buf, MAXDIGS, AsSigned(arg));
    out := Emit(buf, bp, MAXDIGS, "", width, padZero);
  }

  // ---- parsing ----

  method SkipWhite(s: string) returns (i: nat)
    ensures i == SkipSpace(s, 0)
  {
    i := 0;
    while i < |s| && IsSpace(s[i])
      invariant i <= |s| && SkipSpace(s, 0) == SkipSpace(s, i)
    {
      i := i + 1;
    }
  }

  /** The division test for overflow is exact. */
  lemma CutoffExact(limit: nat, base: nat, i: nat, c: nat)
    requires base > 0 && c < base
    ensures i > limit / base || (i == limit / base && c > limit % base) <==> i * base + c > limit
  {
    DivMod(limit, base);
    var q, r := limit / base, limit % base;
    if i > q {
      MulMono(base, q + 1, i);
      assert base * (q + 1) == base * q + base;
    } else if i < q {
      MulMono(base, i + 1, q);
      assert base * (i + 1) == base * i + base;
    }
  }

  /** After the digits `t`: the flag says that their value exceeds the limit, and otherwise `i` is the value. */
  ghost predicate Holds(t: string, base: nat, limit: nat, i: nat, overflow: bool) {
    Numeral(t, base) && i <= limit && if overflow then Value(t, base) > limit else i == Value(t, base)
  }

  /** The digit loop: it runs over the longest numeral, and the flag is raised exactly when the numeral exceeds
      the limit; the accumulator itself never does. */
  method Accumulate(s: string, start: nat, base: nat, limit: nat) returns (i: nat, end: nat, overflow: bool)
    requires start <= |s| && 2 <= base <= 36
    ensures end == NumeralEnd(s, start, base)
    ensures Holds(s[start..end], base, limit, i, overflow)
  {
    overflow, i, end := false, 0, start;
    while end < |s|
      invariant start <= end <= |s| && Holds(s[start..end], base, limit, i, overflow)
      invariant NumeralEnd(s, start, base) == NumeralEnd(s, end, base)
    {
      if !IsDigit(s[end]) && !IsAlpha(s[end]) {
        break;
      }
      var c := DigitValue(s[end]);
      if c >= base {
        break;
      }
      i, overflow := AddDigit(i, overflow, c, base, limit, s[start..end], s[end]);
      assert s[start..end + 1] == s[start..end] + [s[end]];
      end := end + 1;
    }
  }

  /** Append a digit unless the result would exceed the limit. */
  method AddDigit(i: nat, overflow: bool, c: nat, base: nat, limit: nat, ghost t: string, ghost last: char)
    returns (r: nat, over: bool)
    requires InBase(last, base) && c == DigitValue(last) && Holds(t, base, limit, i, overflow)
    ensures Holds(t + [last], base, limit, r, over)
  {
    var exceeds, next := Exceeds(i, c, base, limit);
    OneMore(t, last, base, limit);
    if exceeds {
      r, over := i, true;
    } else {
      r, over := next, overflow;
    }
  }

  method Exceeds(i: nat, c: nat, base: nat, limit: nat) returns (exceeds: bool, next: nat)
    requires c < base
    ensures next == Times(i, base) + c && (exceeds <==> next > limit)
  {
    CutoffExact(limit, base, i, c);
    var cutoff, cutlim := limit / base, limit % base;
    exceeds := i > cutoff || (i == cutoff && c > cutlim);
    next := Times(i, base) + c;
  }

  lemma OneMore(t: string, last: char, base: nat, limit: nat)
    requires Numeral(t, base) && InBase(last, base)
    ensures Numeral(t + [last], base)
    ensures Value(t + [last], base) == Times(Value(t, base), base) + DigitValue(last)
    ensures Value(t, base) > limit ==> Value(t + [last], base) > limit
  {
    assert (t + [last])[..|t|] == t;
    MulMono(Value(t, base), 1, base);
  }

  /** myatosq */
  method MyAtoSq(nptr: string, base0: int) returns (r: Parsed)
    ensures r == Parse(nptr, base0, true)
  {
    if nptr == "" {
      return Panic;
    }
    var s := SkipWhite(nptr);
    if s == |nptr| {
      return Parsed(0, 0, Unchanged);
    }
    ghost var first := s;
    var base := base0;
    if base == 0 {
      base := if HexAt(nptr, s) then 16 else 10;
    }
    if base <= 1 || base > 36 {
      return Panic;
    }
    var negative := false;
    if nptr[s] == '-' {
      negative, s := true, s + 1;
    } else if nptr[s] == '+' {
      s := s + 1;
    }
    if base == 16 && HexAt(nptr, s) {
      s := s + 2;
    }
    assert s == NumeralStart(nptr, first, base, true);
    var i, end, overflow := Accumulate(nptr, s, base, LL_MAX);
    if end == s {
      return Parsed(0, 0, Unchanged);
    }
    if overflow {
      r := Parsed(if negative then LL_MIN else LL_MAX, end, Range);
    } else {
      r := Parsed(Negated(negative, i), end, Clear);
    }
  }

  /** myatoq: no sign is accepted. */
  method MyAtoQ(nptr: string, base0: int) returns (r: Parsed)
    ensures r == Parse(nptr, base0, false)
  {
    if nptr == "" {
      return Panic;
    }
    var s := SkipWhite(nptr);
    if s == |nptr| {
      return Parsed(0, 0, Unchanged);
    }
    var base := base0;
    if base == 0 {
      base := if HexAt(nptr, s) then 16 else 10;
    }
    if base <= 1 || base > 36 {
      return Panic;
    }
    if base == 16 && HexAt(nptr, s) {
      s := s + 2;
    }
    var i, end, overflow := Accumulate(nptr, s, base, ULL_MAX);
    if end == s {
      return Parsed(0, 0, Unchanged);
    }
    r := if overflow then Parsed(ULL_MAX, end, Range) else Parsed(i, end, Clear);
  }

  /** Print and parse, end to end. */
  method SignedThere(v: Sqword, width: nat, padZero: bool) returns (back: Parsed)
    ensures back.Parsed? && back.value == v
  {
    var s := FormatSigned(v, width, padZero);
    back := MyAtoSq(s, 10);
    SignedRoundTrip(v, width, padZero, 10);
  }

  method UnsignedThere(v: Qword, width: nat, padZero: bool) returns (back: Parsed)
    ensures back.Parsed? && back.value == v
  {
    var s := FormatUnsigned(v, width, padZero);
    back := MyAtoQ(s, 10);
    UnsignedRoundTrip(v, width, padZero, 10);
  }
}
