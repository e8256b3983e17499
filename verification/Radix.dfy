/**
 What the parsers read, from the literal digit strings: for every base, every
 numeral of a value, in letters of either case, behind white space, a sign and a
 prefix, gives that value clamped to 64 bits.
 */
module Radix {
  import opened Decimal

  const LOWER := "0123456789abcdefghijklmnopqrstuvwxyz"
  const UPPER := "0123456789ABCDEFGHIJKLMNOPQRSTUVWXYZ"
  const WHITE := " \t\n\U{0B}\U{0C}\r"

  // ---- characters ----

  lemma SpaceIsWhite(c: char)
    ensures IsSpace(c) <==> c in WHITE
  {
    assert WHITE[0] == ' ' && WHITE[1] == '\t' && WHITE[2] == '\n' && WHITE[5] == '\r';
    assert WHITE[3] == '\U{0B}' && WHITE[4] == '\U{0C}';
    if IsSpace(c) && c != ' ' {
      assert c as int in {9, 10, 11, 12, 13};
    }
  }

  lemma LowerCode(d: nat)
    requires d < 36
    ensures LOWER[d] as int == if d < 10 then 48 + d else 87 + d
  {
  }

  lemma UpperCode(d: nat)
    requires d < 36
    ensures UPPER[d] as int == if d < 10 then 48 + d else 55 + d
  {
  }

  predicate Figure(c: char, d: nat) {
    (IsDigit(c) || IsAlpha(c)) && DigitValue(c) == d
  }

  lemma CodeIsFigure(c: char, d: nat)
    requires d < 36 && c as int == if d < 10 then 48 + d else if 'a' <= c then 87 + d else 55 + d
    ensures Figure(c, d) && (d < 10 ==> Digit(d) == c)
  {
  }

  /** A digit has the value of its place in either digit string. */
  lemma DigitPlace(d: nat)
    requires d < 36
    ensures Figure(LOWER[d], d) && Figure(UPPER[d], d)
    ensures d < 10 ==> Digit(d) == LOWER[d]
  {
    LowerCode(d);
    UpperCode(d);
    var a, b := LOWER[d], UPPER[d];
    CodeIsFigure(a, d);
    CodeIsFigure(b, d);
  }

  // ---- numerals ----

  /** Two strings of the 36 digits, in their order. */
  ghost predicate Alphabets(lower: string, upper: string) {
    && |lower| == |upper| == 36
    && forall d: nat :: d < 36 ==> Figure(lower[d], d) && Figure(upper[d], d) && lower[d] >= upper[d]
                                   && (d >= 10 ==> lower[d] >= 'a' > upper[d])
  }

  lemma LiteralAlphabets()
    ensures Alphabets(LOWER, UPPER)
  {
    forall d: nat | d < 36
      ensures Figure(LOWER[d], d) && Figure(UPPER[d], d) && LOWER[d] >= UPPER[d]
      ensures d >= 10 ==> LOWER[d] >= 'a' > UPPER[d]
    {
      DigitPlace(d);
      LowerCode(d);
      UpperCode(d);
    }
  }

  /** The last digit of `n` is `d`, and `q` is what precedes it. */
  predicate Appends(n: nat, base: nat, q: nat, d: nat) {
    d < base && n == Times(q, base) + d
  }

  /** `s` is a numeral of `n`: digits from either string, and any number of leading zeros. */
  ghost predicate Denotes(lower: string, upper: string, s: string, base: nat, n: nat)
    requires base <= |lower| && base <= |upper|
  {
    && s != ""
    && exists q: nat, d: nat {:trigger Appends(n, base, q, d)} ::
      && Appends(n, base, q, d)
      && (s[|s| - 1] == lower[d] || s[|s| - 1] == upper[d])
      && (if |s| == 1 then q == 0 else Denotes(lower, upper, s[..|s| - 1], base, q))
  }

  lemma Recompose(n: nat, base: nat)
    requires base > 0
    ensures n / base >= 0 && Appends(n, base, n / base, n % base)
  {
  }

  lemma QuotientLess(n: nat, base: nat)
    requires base >= 2
    ensures 0 <= n / base && 0 <= n % base < base && (n >= base ==> n / base < n)
  {
  }

  /** The numeral without leading zeros in the digits of one string. */
  function Written(digits: string, base: nat, n: nat): (s: string)
    requires 2 <= base <= |digits|
    ensures s != ""
    decreases n
  {
    QuotientLess(n, base);
    if n < base then [digits[n]] else Written(digits, base, n / base) + [digits[n % base]]
  }

  lemma LastDigit(lower: string, upper: string, s: string, base: nat, n: nat, q: nat, d: nat)
    requires base <= |lower| && base <= |upper| && s != "" && Appends(n, base, q, d)
    requires s[|s| - 1] == lower[d] || s[|s| - 1] == upper[d]
    requires if |s| == 1 then q == 0 else Denotes(lower, upper, s[..|s| - 1], base, q)
    ensures Denotes(lower, upper, s, base, n)
  {
  }

  lemma {:induction false} WrittenDenotes(lower: string, upper: string, digits: string, base: nat, n: nat)
    requires 2 <= base <= |lower| && base <= |upper| && (digits == lower || digits == upper)
    ensures Denotes(lower, upper, Written(digits, base, n), base, n)
    decreases n
  {
    if n < base {
      LastDigit(lower, upper, [digits[n]], base, n, 0, n);
    } else {
      QuotientLess(n, base);
      Recompose(n, base);
      WrittenDenotes(lower, upper, digits, base, n / base);
      WrittenMore(lower, upper, digits, base, n, n / base, n % base);
    }
  }

  lemma WrittenMore(lower: string, upper: string, digits: string, base: nat, n: nat, q: nat, d: nat)
    requires 2 <= base <= |lower| && base <= |upper| && (digits == lower || digits == upper)
    requires n >= base && q == n / base && d == n % base && Appends(n, base, q, d)
    requires Denotes(lower, upper, Written(digits, base, q), base, q)
    ensures Denotes(lower, upper, Written(digits, base, n), base, n)
  {
    WrittenLast(digits, base, n, q, d);
    LastDigit(lower, upper, Written(digits, base, n), base, n, q, d);
  }

  lemma WrittenLast(digits: string, base: nat, n: nat, q: nat, d: nat)
    requires 2 <= base <= |digits| && n >= base && q == n / base && d == n % base
    ensures var s, t := Written(digits, base, n), Written(digits, base, q);
            s[..|s| - 1] == t && |s| > 1 && s[|s| - 1] == digits[d]
  {
    var t := Written(digits, base, q);
    assert (t + [digits[d]])[..|t|] == t;
  }

  /** The numerals that the printer develops are those of base ten. */
  lemma {:induction false} DigitsWritten(n: nat)
    ensures Digits(n) == Written(LOWER, 10, n)
  {
    DigitPlace(n % 10);
    if n >= 10 {
      DigitsWritten(n / 10);
    }
  }

  lemma AppendFigure(s: string, base: nat, q: nat, d: nat)
    requires s != "" && Numeral(s[..|s| - 1], base) && Value(s[..|s| - 1], base) == q
    requires d < base && Figure(s[|s| - 1], d)
    ensures Numeral(s, base) && Value(s, base) == Times(q, base) + d
  {
    assert s == s[..|s| - 1] + [s[|s| - 1]];
  }

  lemma {:induction false} DenotedValue(lower: string, upper: string, s: string, base: nat, n: nat)
    requires Alphabets(lower, upper) && base <= 36 && Denotes(lower, upper, s, base, n)
    ensures Numeral(s, base) && Value(s, base) == n
  {
    var k := |s| - 1;
    var q: nat, d: nat :| Appends(n, base, q, d) && (s[k] == lower[d] || s[k] == upper[d])
      && (if |s| == 1 then q == 0 else Denotes(lower, upper, s[..k], base, q));
    assert Figure(lower[d], d) && Figure(upper[d], d);
    if k > 0 {
      DenotedValue(lower, upper, s[..k], base, q);
    } else {
      assert s[..k] == "";
    }
    AppendFigure(s, base, q, d);
  }

  /** A character is a digit in a base exactly if it is one of the first `base` of either string. */
  lemma DigitsOfBase(lower: string, upper: string, c: char, base: nat)
    requires Alphabets(lower, upper) && base <= 36
    ensures InBase(c, base) <==> c in lower[..base] || c in upper[..base]
  {
    forall d: nat | d < base && (c == lower[d] || c == upper[d])
      ensures InBase(c, base)
    {
      assert Figure(lower[d], d) && Figure(upper[d], d);
    }
    if InBase(c, base) {
      var d := DigitValue(c);
      assert Figure(lower[d], d) && Figure(upper[d], d);
      assert lower[..base][d] == lower[d] && upper[..base][d] == upper[d];
      assert c == lower[d] || c == upper[d];
    }
  }

  // ---- printing ----

  /** `text` is sign and digits, at least `width` wide: with zeros between the two, or with blanks in front. */
  ghost predicate Laid(text: string, sign: string, digits: string, width: nat, padZero: bool) {
    var natural := |sign| + |digits|;
    && |text| == (if width > natural then width else natural)
    && text[|text| - |digits|..] == digits
    && (padZero ==> text[..|sign|] == sign && forall j :: |sign| <= j < |text| - |digits| ==> text[j] == '0')
    && (!padZero ==> text[|text| - natural..|text| - |digits|] == sign
                     && forall j :: 0 <= j < |text| - natural ==> text[j] == ' ')
  }

  lemma PaddedLaid(sign: string, digits: string, width: nat, padZero: bool)
    ensures Laid(Padded(sign, digits, width, padZero), sign, digits, width, padZero)
  {
  }

  /** What %d prints: a minus sign exactly for a negative value, the numeral of the magnitude, and the padding. */
  lemma SignedLaid(v: int, width: nat, padZero: bool)
    ensures Laid(Signed(v, width, padZero), if v < 0 then "-" else "", Written(LOWER, 10, if v < 0 then 0 - v else v),
                 width, padZero)
  {
    var digits := Digits(Magnitude(v));
    DigitsWritten(Magnitude(v));
    PaddedLaid(Sign(v < 0), digits, width, padZero);
  }

  lemma UnsignedLaid(v: nat, width: nat, padZero: bool)
    ensures Laid(Unsigned(v, width, padZero), "", Written(LOWER, 10, v), width, padZero)
  {
    DigitsWritten(v);
    PaddedLaid("", Digits(v), width, padZero);
  }

  // ---- parsing ----

  lemma {:induction false} SkipsWhite(blanks: string, t: string, i: nat)
    requires i <= |blanks| && (forall c :: c in blanks ==> IsSpace(c)) && (t == "" || !IsSpace(t[0]))
    ensures SkipSpace(blanks + t, i) == |blanks|
    decreases |blanks| - i
  {
    var s := blanks + t;
    if i < |blanks| {
      assert s[i] in blanks;
      SkipsWhite(blanks, t, i + 1);
    }
  }

  lemma {:induction false} EndsAt(s: string, i: nat, base: nat, j: nat)
    requires i <= j <= |s| && Numeral(s[i..j], base) && (j < |s| ==> !InBase(s[j], base))
    ensures NumeralEnd(s, i, base) == j
    decreases j - i
  {
    if i < j {
      assert s[i..j][0] == s[i] && s[i + 1..j] == s[i..j][1..];
      EndsAt(s, i + 1, base, j);
    }
  }

  predicate StartsHex(t: string) {
    |t| >= 2 && t[0] == '0' && (t[1] == 'x' || t[1] == 'X')
  }

  /** The pieces of a text: white space, a sign, a prefix, digits, and the rest. */
  datatype Text = Text(blanks: string, sign: string, prefix: string, digits: string, rest: string)
  {
    function Body(): string {
      prefix + (digits + rest)
    }

    function Whole(): string {
      blanks + (sign + Body())
    }

    /** Signs only if allowed; a prefix only in base 16, and there always taken. */
    predicate Fits(base: nat, signs: bool) {
      && (sign == "" || (signs && (sign == "-" || sign == "+")))
      && (if prefix == "" then base == 16 ==> !StartsHex(digits + rest)
          else base == 16 && (prefix == "0x" || prefix == "0X"))
    }

    /** White space ends here, and a sign has not been overlooked. */
    predicate Begins(signs: bool) {
      && (forall c :: c in blanks ==> IsSpace(c))
      && Body() != ""
      && (sign == "" ==> !IsSpace(Body()[0]) && (signs ==> Body()[0] != '-' && Body()[0] != '+'))
    }

    /** Base 0 stands for base 16 before an unsigned prefix, and for base 10 otherwise. */
    predicate Stands(base0: nat, base: nat) {
      base0 == base || (base0 == 0 && base == if sign == "" && StartsHex(Body()) then 16 else 10)
    }

    predicate Splits(base0: nat, base: nat, signs: bool) {
      Fits(base, signs) && Begins(signs) && Stands(base0, base)
    }
  }

  lemma Slices(t: Text)
    ensures var s, i, k := t.Whole(), |t.blanks|, |t.blanks| + |t.sign|;
            k + |t.prefix| <= |s| && s[i..] == t.sign + t.Body() && s[k..] == t.Body()
            && s[k + |t.prefix|..] == t.digits + t.rest
  {
  }

  /** The sign, or the first character of what follows it. */
  lemma FirstThere(t: Text, s: string, base: nat, signs: bool)
    requires s == t.Whole() && t.Fits(base, signs) && t.Begins(signs)
    ensures var i := |t.blanks|;
            && SkipSpace(s, 0) == i < |s|
            && (signs && s[i] == '-' <==> t.sign == "-")
            && (signs && s[i] == '+' <==> t.sign == "+")
            && (t.sign == "" ==> s[i..] == t.Body())
            && (t.sign != "" ==> s[i] != '0')
  {
    var i, u := |t.blanks|, t.sign + t.Body();
    Slices(t);
    assert u[0] == if t.sign == "" then t.Body()[0] else t.sign[0];
    assert s[i] == s[i..][0];
    SkipsWhite(t.blanks, u, 0);
    if t.sign == "" {
      assert u == t.Body();
    }
  }

  lemma BaseThere(t: Text, s: string, base0: nat, base: nat, signs: bool)
    requires s == t.Whole() && 2 <= base <= 36 && t.Splits(base0, base, signs)
    ensures |t.blanks| <= |s| && ActualBase(s, |t.blanks|, base0) == base
  {
    FirstThere(t, s, base, signs);
    if t.sign == "" {
      HexThere(s, |t.blanks|, t.Body());
    }
  }

  /** Where the digits start. */
  lemma StartThere(t: Text, s: string, base: nat, signs: bool, k: nat, start: nat)
    requires s == t.Whole() && k == |t.blanks| + |t.sign| && start == k + |t.prefix|
    requires t.Fits(base, signs) && t.Begins(signs)
    ensures |t.blanks| < |s| && start <= |s| && NumeralStart(s, |t.blanks|, base, signs) == start
  {
    FirstThere(t, s, base, signs);
    Slices(t);
    HexThere(s, k, t.Body());
    PrefixTaken(t, base, signs);
    StartIs(s, |t.blanks|, base, signs, k, start);
  }

  lemma StartIs(s: string, i: nat, base: nat, signs: bool, k: nat, start: nat)
    requires i < |s| && k == i + (if signs && (s[i] == '-' || s[i] == '+') then 1 else 0)
    requires start == k + if base == 16 && HexAt(s, k) then 2 else 0
    ensures NumeralStart(s, i, base, signs) == start
  {
  }

  lemma PrefixTaken(t: Text, base: nat, signs: bool)
    requires t.Fits(base, signs)
    ensures base == 16 && StartsHex(t.Body()) <==> t.prefix != ""
    ensures |t.prefix| == if t.prefix == "" then 0 else 2
  {
    var u := t.digits + t.rest;
    if t.prefix == "" {
      assert t.Body() == u;
    } else {
      assert t.Body()[0] == t.prefix[0] && t.Body()[1] == t.prefix[1];
    }
  }

  lemma HexThere(s: string, i: nat, t: string)
    requires i <= |s| && s[i..] == t
    ensures HexAt(s, i) <==> StartsHex(t)
  {
    if |t| >= 2 {
      assert t[0] == s[i] && t[1] == s[i + 1];
    }
  }

  /** The 64-bit limits, and ERANGE for a magnitude above the greatest value of the type. */
  function Clamped(signs: bool, negative: bool, n: nat, end: nat): Parsed {
    if !signs then
      if n <= 0xFFFF_FFFF_FFFF_FFFF then Parsed(n, end, Clear) else Parsed(0xFFFF_FFFF_FFFF_FFFF, end, Range)
    else if n <= 0x7FFF_FFFF_FFFF_FFFF then Parsed(if negative then 0 - n else n, end, Clear)
    else Parsed(if negative then -0x8000_0000_0000_0000 else 0x7FFF_FFFF_FFFF_FFFF, end, Range)
  }

  lemma NumeralEnds(t: Text, s: string, base: nat, start: nat, end: nat)
    requires s == t.Whole() && start == |t.blanks| + |t.sign| + |t.prefix| && end == start + |t.digits|
    requires Numeral(t.digits, base) && (t.rest != "" ==> !InBase(t.rest[0], base))
    ensures end == |s| - |t.rest| && s[start..end] == t.digits && NumeralEnd(s, start, base) == end
  {
    var u := t.digits + t.rest;
    Slices(t);
    assert s[start..end] == u[..|t.digits|];
    if t.rest != "" {
      assert s[end] == u[|t.digits|];
    }
    EndsAt(s, start, base, end);
  }

  /** The parser, once the positions of the pieces are known. */
  lemma ReadsNumeral(t: Text, s: string, base0: nat, base: nat, signs: bool, start: nat, end: nat)
    requires s == t.Whole() && 2 <= base <= 36 && t.Splits(base0, base, signs)
    requires start == |t.blanks| + |t.sign| + |t.prefix| && end == start + |t.digits|
    requires end == |s| - |t.rest| && s[start..end] == t.digits && NumeralEnd(s, start, base) == end
    ensures Numeral(t.digits, base)
    ensures Parse(s, base0, signs)
            == if t.digits == "" then Parsed(0, 0, Unchanged)
               else Saturate(signs, t.sign == "-", Value(t.digits, base), end)
  {
    FirstThere(t, s, base, signs);
    BaseThere(t, s, base0, base, signs);
    StartThere(t, s, base, signs, |t.blanks| + |t.sign|, start);
    ReadsAt(s, base0, base, signs, |t.blanks|, start, end, t.digits);
  }

  lemma ReadsAt(s: string, base0: nat, base: nat, signs: bool, i: nat, start: nat, end: nat, digits: string)
    requires SkipSpace(s, 0) == i < |s| && start <= end <= |s| && 2 <= base <= 36 && ActualBase(s, i, base0) == base
    requires NumeralStart(s, i, base, signs) == start && NumeralEnd(s, start, base) == end
    requires s[start..end] == digits
    ensures Numeral(digits, base)
    ensures Parse(s, base0, signs)
            == if digits == "" then Parsed(0, 0, Unchanged)
               else Saturate(signs, signs && s[i] == '-', Value(digits, base), end)
  {
  }

  lemma ReadsIn(lower: string, upper: string, t: Text, base0: nat, base: nat, signs: bool, n: nat)
    requires Alphabets(lower, upper) && 2 <= base <= 36 && t.Splits(base0, base, signs)
    requires t.digits == "" || Denotes(lower, upper, t.digits, base, n)
    requires t.rest == "" || (t.rest[0] !in lower[..base] && t.rest[0] !in upper[..base])
    ensures Parse(t.Whole(), base0, signs)
            == if t.digits == "" then Parsed(0, 0, Unchanged)
               else Clamped(signs, t.sign == "-", n, |t.Whole()| - |t.rest|)
  {
    if t.digits != "" {
      DenotedValue(lower, upper, t.digits, base, n);
    }
    if t.rest != "" {
      DigitsOfBase(lower, upper, t.rest[0], base);
    }
    var start := |t.blanks| + |t.sign| + |t.prefix|;
    var end := start + |t.digits|;
    NumeralEnds(t, t.Whole(), base, start, end);
    ReadsNumeral(t, t.Whole(), base0, base, signs, start, end);
    SaturateIs(signs, t.sign == "-", Value(t.digits, base), end);
  }

  lemma SaturateIs(signs: bool, negative: bool, n: nat, end: nat)
    requires negative ==> signs
    ensures Saturate(signs, negative, n, end) == Clamped(signs, negative, n, end)
  {
  }

  /** In every base from 2 to 36, with or without sign and prefix, a numeral of `n` behind white space and before
      anything that is not one more digit gives `n`, clamped; without digits nothing is converted. */
  lemma Reads(t: Text, base0: nat, base: nat, signs: bool, n: nat)
    requires 2 <= base <= 36 && t.Splits(base0, base, signs)
    requires t.digits == "" || Denotes(LOWER, UPPER, t.digits, base, n)
    requires t.rest == "" || (t.rest[0] !in LOWER[..base] && t.rest[0] !in UPPER[..base])
    ensures Parse(t.Whole(), base0, signs)
            == if t.digits == "" then Parsed(0, 0, Unchanged)
               else Clamped(signs, t.sign == "-", n, |t.Whole()| - |t.rest|)
  {
    LiteralAlphabets();
    ReadsIn(LOWER, UPPER, t, base0, base, signs, n);
  }

  /** The digits of a numeral begin no prefix, are no sign and no white space. */
  lemma PlainDigits(t: Text, base: nat)
    requires t.blanks == "" && t.rest == "" && 2 <= base <= 36 && t.digits != "" && Numeral(t.digits, base)
    requires t.prefix == "" || (base == 16 && (t.prefix == "0x" || t.prefix == "0X"))
    ensures t.Begins(true) && (t.prefix == "" && base == 16 ==> !StartsHex(t.digits + t.rest))
    ensures t.prefix == "" && base == 10 ==> !StartsHex(t.Body())
    ensures t.prefix != "" ==> StartsHex(t.Body())
    ensures t.Whole() == t.sign + t.prefix + t.digits
  {
    assert t.digits + t.rest == t.digits;
    assert t.prefix == "" ==> t.Body() == t.digits;
    assert InBase(t.digits[0], base) && (|t.digits| > 1 ==> InBase(t.digits[1], base));
    if t.prefix != "" {
      assert t.Body()[0] == t.prefix[0] && t.Body()[1] == t.prefix[1];
    }
  }

  /** Which prefix, sign and base argument a numeral may be read with. */
  predicate Readable(base: nat, sign: string, prefix: string, base0: nat, signs: bool) {
    && 2 <= base <= 36
    && (sign == "" || (signs && (sign == "-" || sign == "+")))
    && (prefix == "" || (base == 16 && (prefix == "0x" || prefix == "0X")))
    && (base0 == base || (base0 == 0 && (if base == 16 then prefix != "" && sign == "" else base == 10)))
  }

  lemma ReadsWhole(lower: string, upper: string, digits: string, n: nat, base: nat, sign: string, prefix: string,
                   base0: nat, signs: bool)
    requires Alphabets(lower, upper) && Readable(base, sign, prefix, base0, signs)
    requires Denotes(lower, upper, digits, base, n)
    ensures var s := sign + prefix + digits; Parse(s, base0, signs) == Clamped(signs, sign == "-", n, |s|)
  {
    var t := Text("", sign, prefix, digits, "");
    DenotedValue(lower, upper, digits, base, n);
    PlainDigits(t, base);
    ReadsIn(lower, upper, t, base0, base, signs, n);
  }

  /** Reading any numeral of a value in any base: in digits of either case, with or without a sign, and in base 16 with
      or without a prefix. Base 0 reads decimal numerals, and hexadecimal ones with a prefix and no sign. */
  lemma NumeralRead(digits: string, n: nat, base: nat, sign: string, prefix: string, base0: nat, signs: bool)
    requires Readable(base, sign, prefix, base0, signs) && Denotes(LOWER, UPPER, digits, base, n)
    ensures var s := sign + prefix + digits; Parse(s, base0, signs) == Clamped(signs, sign == "-", n, |s|)
  {
    LiteralAlphabets();
    ReadsWhole(LOWER, UPPER, digits, n, base, sign, prefix, base0, signs);
  }

  /** Every value has a numeral in the digits of each case, and reading it gives the value back. */
  lemma WrittenRead(n: nat, base: nat, capital: bool, sign: string, prefix: string, base0: nat, signs: bool)
    requires Readable(base, sign, prefix, base0, signs)
    ensures var s := sign + prefix + Written(if capital then UPPER else LOWER, base, n);
            Parse(s, base0, signs) == Clamped(signs, sign == "-", n, |s|)
  {
    WrittenDenotes(LOWER, UPPER, if capital then UPPER else LOWER, base, n);
    NumeralRead(Written(if capital then UPPER else LOWER, base, n), n, base, sign, prefix, base0, signs);
  }

  /** Hexadecimal: every unsigned 64-bit value through myatoq and every non-negative one through myatosq, under base 0
      or 16, and with a sign under base 16. */
  lemma HexRead(digits: string, n: nat, prefix: string, base0: nat)
    requires prefix in ["0x", "0X"] && base0 in [0, 16] && Denotes(LOWER, UPPER, digits, 16, n)
    ensures n <= 0xFFFF_FFFF_FFFF_FFFF ==>
              Parse("" + prefix + digits, base0, false) == Parsed(n, 2 + |digits|, Clear)
    ensures n <= 0x7FFF_FFFF_FFFF_FFFF ==>
              && Parse("" + prefix + digits, base0, true) == Parsed(n, 2 + |digits|, Clear)
              && Parse("+" + prefix + digits, 16, true) == Parsed(n, 3 + |digits|, Clear)
              && Parse("-" + prefix + digits, 16, true) == Parsed(0 - n, 3 + |digits|, Clear)
  {
    NumeralRead(digits, n, 16, "", prefix, base0, false);
    NumeralRead(digits, n, 16, "", prefix, base0, true);
    NumeralRead(digits, n, 16, "+", prefix, 16, true);
    NumeralRead(digits, n, 16, "-", prefix, 16, true);
  }

  /** Parsing panics exactly on the empty text, and on a text that is not blank in a base that is 1, negative or above
      36; a blank text is not converted, whatever the base. */
  lemma PanicExact(s: string, base: int, signs: bool)
    ensures Parse(s, base, signs).Panic?
            <==> s == "" || ((exists c :: c in s && c !in WHITE) && (base < 0 || base == 1 || base > 36))
    ensures s != "" && (forall c :: c in s ==> c in WHITE) ==> Parse(s, base, signs) == Parsed(0, 0, Unchanged)
  {
    forall c: char
      ensures IsSpace(c) <==> c in WHITE
    {
      SpaceIsWhite(c);
    }
    var i := SkipSpace(s, 0);
    if i < |s| {
      assert s[i] in s && s[i] !in WHITE;
    }
  }
}
