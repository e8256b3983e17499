/**
 Numerals and what the %d, %u printer and the myatosq, myatoq parsers of misc.c
 are to compute, stated on mathematical integers: printing gives the canonical
 numeral with padding, parsing gives the saturated value of the longest numeral.
 */
module Decimal {
  const HIBIT := 0x8000_0000_0000_0000
  const LL_MAX := HIBIT - 1
  const LL_MIN := -HIBIT
  const ULL_MAX := 2 * HIBIT - 1

  type Sqword = x: int | LL_MIN <= x <= LL_MAX
  type Qword = x: int | 0 <= x <= ULL_MAX

  // ---- characters ----

  predicate IsSpace(c: char) {
    c == ' ' || '\t' <= c <= '\r'
  }

  predicate IsDigit(c: char) {
    '0' <= c <= '9'
  }

  predicate IsAlpha(c: char) {
    'a' <= c <= 'z' || 'A' <= c <= 'Z'
  }

  /** The value of a digit or letter as a digit. */
  function DigitValue(c: char): (d: nat)
    requires IsDigit(c) || IsAlpha(c)
    ensures d < 36
  {
    if IsDigit(c) then c as int - '0' as int
    else if 'a' <= c <= 'z' then c as int - 'a' as int + 10
    else c as int - 'A' as int + 10
  }

  predicate InBase(c: char, base: nat) {
    (IsDigit(c) || IsAlpha(c)) && DigitValue(c) < base
  }

  function Digit(d: nat): (c: char)
    requires d < 10
    ensures IsDigit(c) && DigitValue(c) == d
  {
    (d + '0' as int) as char
  }

  // ---- numerals ----

  predicate Numeral(s: string, base: nat) {
    forall i :: 0 <= i < |s| ==> InBase(s[i], base)
  }

  function Times(x: nat, y: nat): nat {
    x * y
  }

  function Value(s: string, base: nat): nat
    requires Numeral(s, base)
  {
    if s == "" then 0 else Times(Value(s[..|s| - 1], base), base) + DigitValue(s[|s| - 1])
  }

  /** The canonical decimal numeral. */
  function Digits(n: nat): (s: string)
    ensures |s| > 0 && Numeral(s, 10)
  {
    if n < 10 then [Digit(n)] else Digits(n / 10) + [Digit(n % 10)]
  }

  predicate Canonical(s: string) {
    s != "" && Numeral(s, 10) && (|s| > 1 ==> s[0] != '0')
  }

  lemma {:induction false} ValueOfDigits(n: nat)
    ensures Value(Digits(n), 10) == n
  {
    if n >= 10 {
      ValueOfDigits(n / 10);
      assert Digits(n)[..|Digits(n)| - 1] == Digits(n / 10);
    } else {
      assert Digits(n)[..0] == "";
    }
  }

  lemma {:induction false} DigitsCanonical(n: nat)
    ensures Canonical(Digits(n)) && (Digits(n)[0] == '0' <==> n == 0)
  {
    if n >= 10 {
      DigitsCanonical(n / 10);
      assert Digits(n)[0] == Digits(n / 10)[0];
    }
  }

  /** Every canonical numeral is the numeral of its value. */
  lemma {:induction false} DigitsOfValue(s: string)
    requires Canonical(s)
    ensures Digits(Value(s, 10)) == s
  {
    var n := |s| - 1;
    var d := DigitValue(s[n]);
    assert s == s[..n] + [s[n]];
    if n == 0 {
      assert s[..0] == "";
    } else {
      DigitsOfValue(s[..n]);
      DigitsCanonical(Value(s[..n], 10));
      assert Value(s, 10) / 10 == Value(s[..n], 10) && Value(s, 10) % 10 == d;
    }
  }

  function Power10(k: nat): nat {
    if k == 0 then 1 else 10 * Power10(k - 1)
  }

  lemma {:induction false} DigitsLength(n: nat, k: nat)
    requires k > 0 && n < Power10(k)
    ensures |Digits(n)| <= k
  {
    if n >= 10 {
      DigitsLength(n / 10, k - 1);
    }
  }

  function Repeat(c: char, n: nat): string {
    seq(n, i => c)
  }

  lemma {:induction false} ValueOfZeros(n: nat, s: string)
    requires Numeral(s, 10)
    ensures Numeral(Repeat('0', n) + s, 10) && Value(Repeat('0', n) + s, 10) == Value(s, 10)
  {
    var t := Repeat('0', n) + s;
    if s != "" {
      ValueOfZeros(n, s[..|s| - 1]);
      assert t[..|t| - 1] == Repeat('0', n) + s[..|s| - 1];
    } else if n > 0 {
      ValueOfZeros(n - 1, s);
      assert t[..|t| - 1] == Repeat('0', n - 1) + s;
    }
  }

  // ---- printing ----

  function Sign(negative: bool): string {
    if negative then "-" else ""
  }

  /** Sign and numeral, widened with blanks on the left or, on request, with zeros between the two. */
  function Padded(sign: string, digits: string, width: nat, padZero: bool): string {
    var k := |digits| + |sign|;
    var gap: nat := if width <= k then 0 else width - k;
    if padZero then sign + Repeat('0', gap) + digits else Repeat(' ', gap) + sign + digits
  }

  function Magnitude(v: int): nat {
    if v < 0 then -v else v
  }

  /** %d, and with the length flag %ld, of `v`. */
  function Signed(v: int, width: nat, padZero: bool): string {
    Padded(Sign(v < 0), Digits(Magnitude(v)), width, padZero)
  }

  /** %u, and with the length flag %lu, of `v`. */
  function Unsigned(v: nat, width: nat, padZero: bool): string {
    Padded("", Digits(v), width, padZero)
  }

  // ---- parsing ----

  datatype Errno = Unchanged | Clear | Range

  datatype Parsed = Panic | Parsed(value: int, end: nat, errno: Errno)

  /** The first position from `i` on that is not white space. */
  function SkipSpace(s: string, i: nat): (j: nat)
    requires i <= |s|
    ensures i <= j <= |s| && (forall k :: i <= k < j ==> IsSpace(s[k])) && (j < |s| ==> !IsSpace(s[j]))
    decreases |s| - i
  {
    if i < |s| && IsSpace(s[i]) then SkipSpace(s, i + 1) else i
  }

  /** The end of the longest numeral that starts at `i`. */
  function NumeralEnd(s: string, i: nat, base: nat): (j: nat)
    requires i <= |s|
    ensures i <= j <= |s| && Numeral(s[i..j], base) && (j < |s| ==> !InBase(s[j], base))
    decreases |s| - i
  {
    if i < |s| && InBase(s[i], base) then
      var j := NumeralEnd(s, i + 1, base);
      assert forall k :: 1 <= k < j - i ==> s[i..j][k] == s[i + 1..j][k - 1];
      j
    else i
  }

  /** "0x" or "0X" at position `i`. */
  predicate HexAt(s: string, i: nat) {
    i + 1 < |s| && s[i] == '0' && (s[i + 1] == 'x' || s[i + 1] == 'X')
  }

  function ActualBase(s: string, i: nat, base: int): int {
    if base != 0 then base else if HexAt(s, i) then 16 else 10
  }

  /** Where the numeral starts: past a sign if one is allowed, and past a hexadecimal prefix. */
  function NumeralStart(s: string, i: nat, base: int, signs: bool): (j: nat)
    requires i < |s|
    ensures i <= j <= |s|
  {
    var k := if signs && (s[i] == '-' || s[i] == '+') then i + 1 else i;
    if base == 16 && HexAt(s, k) then k + 2 else k
  }

  /** The value of the longest numeral after white space, sign and prefix, handed to `Saturate`; if there is
      none the result is 0 at the start of the string. */
  function Parse(s: string, base: int, signs: bool): Parsed {
    if s == "" then Panic
    else
      var i := SkipSpace(s, 0);
      if i == |s| then Parsed(0, 0, Unchanged)
      else
        var b := ActualBase(s, i, base);
        if b <= 1 || b > 36 then Panic
        else
          var start := NumeralStart(s, i, b, signs);
          var end := NumeralEnd(s, start, b);
          if start == end then Parsed(0, 0, Unchanged)
          else Saturate(signs, signs && s[i] == '-', Value(s[start..end], b), end)
  }

  function Negated(negative: bool, n: nat): int {
    if negative then 0 - n else n
  }

  /** Clamp to the type.  The range error is raised by the magnitude alone, so also for LL_MIN, whose value is exact. */
  function Saturate(signs: bool, negative: bool, magnitude: nat, end: nat): Parsed {
    var limit := if signs then LL_MAX else ULL_MAX;
    var value :=
      if magnitude <= limit then Negated(negative, magnitude)
      else if negative then LL_MIN
      else limit;
    Parsed(value, end, if magnitude <= limit then Clear else Range)
  }

  // ---- round trips ----

  lemma {:induction false} SkipBlanks(n: nat, t: string, i: nat)
    requires i <= n && t != "" && !IsSpace(t[0])
    ensures SkipSpace(Repeat(' ', n) + t, i) == n
    decreases n - i
  {
    var s := Repeat(' ', n) + t;
    if i < n {
      SkipBlanks(n, t, i + 1);
    } else {
      assert s[n] == t[0];
    }
  }

  lemma {:induction false} WholeNumeral(s: string, i: nat, base: nat)
    requires i <= |s| && Numeral(s[i..], base)
    ensures NumeralEnd(s, i, base) == |s|
    decreases |s| - i
  {
    if i < |s| {
      assert s[i..][0] == s[i];
      assert s[i + 1..] == s[i..][1..];
      WholeNumeral(s, i + 1, base);
    }
  }

  lemma ParseAt(s: string, base: int, signs: bool, negative: bool, i: nat, start: nat)
    requires s != "" && SkipSpace(s, 0) == i < start + 1 <= |s| && ActualBase(s, i, base) == 10
    requires NumeralStart(s, i, 10, signs) == start && Numeral(s[start..], 10)
    requires negative == (signs && s[i] == '-')
    ensures Parse(s, base, signs) == Saturate(signs, negative, Value(s[start..], 10), |s|)
  {
    WholeNumeral(s, start, 10);
    assert s[start..] == s[start..|s|];
  }

  /** Blanks, a sign and digits, cut up again. */
  lemma Layout(blanks: nat, negative: bool, digits: string)
    requires digits != "" && Numeral(digits, 10)
    ensures var s := Repeat(' ', blanks) + Sign(negative) + digits;
            && SkipSpace(s, 0) == blanks < |s|
            && (s[blanks] == '-' <==> negative) && s[blanks] != '+'
            && s[blanks + |Sign(negative)|..] == digits
            && (blanks + 1 < |s| && !negative ==> IsDigit(s[blanks + 1]))
  {
    var t := Sign(negative) + digits;
    var s := Repeat(' ', blanks) + Sign(negative) + digits;
    assert s == Repeat(' ', blanks) + t;
    assert s[blanks] == t[0];
    SkipBlanks(blanks, t, 0);
    if blanks + 1 < |s| && !negative {
      assert s[blanks + 1] == digits[1];
    }
  }

  /** What parsing blanks, a sign and a numeral gives. */
  lemma ParseNumber(blanks: nat, negative: bool, digits: string, base: int, signs: bool)
    requires digits != "" && Numeral(digits, 10) && (base == 10 || base == 0) && (negative ==> signs)
    ensures var s := Repeat(' ', blanks) + Sign(negative) + digits;
            Parse(s, base, signs) == Saturate(signs, negative, Value(digits, 10), |s|)
  {
    var s := Repeat(' ', blanks) + Sign(negative) + digits;
    Layout(blanks, negative, digits);
    ParseAt(s, base, signs, negative, blanks, blanks + |Sign(negative)|);
  }

  function Gap(negative: bool, digits: string, width: nat): nat {
    var k := |digits| + |Sign(negative)|;
    if width <= k then 0 else width - k
  }

  lemma ParseZeros(width: nat, negative: bool, digits: string, base: int, signs: bool)
    requires digits != "" && Numeral(digits, 10) && (base == 10 || base == 0) && (negative ==> signs)
    ensures var s := Padded(Sign(negative), digits, width, true);
            Parse(s, base, signs) == Saturate(signs, negative, Value(digits, 10), |s|)
  {
    var zeros := Gap(negative, digits, width);
    var wide := Repeat('0', zeros) + digits;
    ValueOfZeros(zeros, digits);
    ParseNumber(0, negative, wide, base, signs);
    ZerosLaid(width, negative, digits);
  }

  lemma ZerosLaid(width: nat, negative: bool, digits: string)
    ensures Repeat(' ', 0) + Sign(negative) + (Repeat('0', Gap(negative, digits, width)) + digits)
            == Padded(Sign(negative), digits, width, true)
  {
  }

  lemma ParseBlanks(width: nat, negative: bool, digits: string, base: int, signs: bool)
    requires digits != "" && Numeral(digits, 10) && (base == 10 || base == 0) && (negative ==> signs)
    ensures var s := Padded(Sign(negative), digits, width, false);
            Parse(s, base, signs) == Saturate(signs, negative, Value(digits, 10), |s|)
  {
    ParseNumber(Gap(negative, digits, width), negative, digits, base, signs);
  }

  /** The same for blank or zero padding to a width. */
  lemma ParsePadded(width: nat, negative: bool, digits: string, padZero: bool, base: int, signs: bool)
    requires digits != "" && Numeral(digits, 10) && (base == 10 || base == 0) && (negative ==> signs)
    ensures var s := Padded(Sign(negative), digits, width, padZero);
            Parse(s, base, signs) == Saturate(signs, negative, Value(digits, 10), |s|)
  {
    if padZero {
      ParseZeros(width, negative, digits, base, signs);
    } else {
      ParseBlanks(width, negative, digits, base, signs);
    }
  }

  /** Parsing what was printed gives the value back, for every 64-bit value (the least one through
      saturation), every field width, and blank or zero padding. */
  lemma SignedRoundTrip(v: Sqword, width: nat, padZero: bool, base: int)
    requires base == 10 || base == 0
    ensures var s := Signed(v, width, padZero);
            Parse(s, base, true) == Parsed(v, |s|, if v == LL_MIN then Range else Clear)
  {
    ValueOfDigits(Magnitude(v));
    ParsePadded(width, v < 0, Digits(Magnitude(v)), padZero, base, true);
  }

  lemma UnsignedRoundTrip(v: Qword, width: nat, padZero: bool, base: int)
    requires base == 10 || base == 0
    ensures var s := Unsigned(v, width, padZero); Parse(s, base, false) == Parsed(v, |s|, Clear)
  {
    ValueOfDigits(v);
    ParsePadded(width, false, Digits(v), padZero, base, false);
  }

  lemma Plain(negative: bool, digits: string)
    ensures Padded(Sign(negative), digits, 0, false) == Sign(negative) + digits
  {
    assert Repeat(' ', 0) == "";
  }

  lemma SignedInjective(v: int, w: int)
    requires Signed(v, 0, false) == Signed(w, 0, false)
    ensures v == w
  {
    Plain(v < 0, Digits(Magnitude(v)));
    Plain(w < 0, Digits(Magnitude(w)));
    SameSign(v < 0, Digits(Magnitude(v)), w < 0, Digits(Magnitude(w)));
    ValueOfDigits(Magnitude(v));
    ValueOfDigits(Magnitude(w));
  }

  lemma SameSign(a: bool, s: string, b: bool, t: string)
    requires s != "" && t != "" && Numeral(s, 10) && Numeral(t, 10) && Sign(a) + s == Sign(b) + t
    ensures a == b && s == t
  {
    var x := Sign(a) + s;
    assert x[0] == if a then '-' else s[0];
    assert x[0] == if b then '-' else t[0];
    assert s == x[|Sign(a)|..] && t == (Sign(b) + t)[|Sign(b)|..];
  }

  /** Printing what was parsed gives the text back exactly if its value is in range, the text being a canonical
      numeral with an optional minus sign, which a zero does not take. */
  lemma PrintParsed(negative: bool, digits: string)
    requires Canonical(digits) && (negative ==> digits != "0")
    ensures var s := Sign(negative) + digits;
            var p := Parse(s, 10, true);
            && p.Parsed?
            && (Signed(p.value, 0, false) == s
                <==> LL_MIN <= Negated(negative, Value(digits, 10)) <= LL_MAX)
  {
    var v := Negated(negative, Value(digits, 10));
    var p := Parse(Sign(negative) + digits, 10, true);
    ParsePadded(0, negative, digits, false, 10, true);
    Plain(negative, digits);
    PrintValue(negative, digits);
    if Signed(p.value, 0, false) == Signed(v, 0, false) {
      SignedInjective(p.value, v);
    }
  }

  lemma PrintValue(negative: bool, digits: string)
    requires Canonical(digits) && (negative ==> digits != "0")
    ensures Signed(Negated(negative, Value(digits, 10)), 0, false) == Sign(negative) + digits
  {
    DigitsOfValue(digits);
    assert Digits(0) == "0";
    Plain(negative, digits);
  }
}
