/**
 * convertTokensToNumber: turns a usage listing's human-readable amount
 * ("1.2M", "900 k", "42") into the exact integer it denotes, rendered with
 * en-US digit grouping ("1,200,000"). A string the amount pattern does not
 * match is returned unchanged. The same function appears twice in the
 * collector (batch-collect.ts and usage.ts); both use this one definition.
 */
module TokenAmount {
  import opened Wrappers

  // ---------------------------------------------------------------------
  // Characters and decimal digit strings
  // ---------------------------------------------------------------------

  /** `\d` of a JavaScript regular expression without the `u` flag. */
  predicate IsDigit(c: char) {
    '0' <= c <= '9'
  }

  /**
   * JavaScript white space and line terminators: the class `\s` of a regular
   * expression, and the characters `parseInt` skips before the number.
   */
  predicate IsJsWhitespace(c: char) {
    var k := c as int;
    k == 0x09 || k == 0x0A || k == 0x0B || k == 0x0C || k == 0x0D || k == 0x20
    || k == 0xA0 || k == 0x1680 || (0x2000 <= k <= 0x200A) || k == 0x2028
    || k == 0x2029 || k == 0x202F || k == 0x205F || k == 0x3000 || k == 0xFEFF
  }

  predicate AllDigits(s: string) {
    forall i :: 0 <= i < |s| ==> IsDigit(s[i])
  }

  predicate AllWhitespace(s: string) {
    forall i :: 0 <= i < |s| ==> IsJsWhitespace(s[i])
  }

  function DigitValue(c: char): nat
    requires IsDigit(c)
  {
    (c as int) - ('0' as int)
  }

  function DigitChar(d: nat): (c: char)
    requires d < 10
    ensures IsDigit(c) && DigitValue(c) == d
  {
    (('0' as int) + d) as char
  }

  function Pow10(n: nat): (p: nat)
    ensures p >= 1
  {
    if n == 0 then 1 else 10 * Pow10(n - 1)
  }

  /** The number a string of decimal digits denotes, read left to right. */
  function DigitsValue(s: string): nat
    requires AllDigits(s)
  {
    if s == [] then 0 else DigitsValue(s[..|s| - 1]) * 10 + DigitValue(s[|s| - 1])
  }

  lemma {:induction false} DigitsValueAppend(x: string, y: string)
    requires AllDigits(x) && AllDigits(y)
    ensures AllDigits(x + y)
    ensures DigitsValue(x + y) == DigitsValue(x) * Pow10(|y|) + DigitsValue(y)
  {
    if y != [] {
      var y' := y[..|y| - 1];
      var d := DigitValue(y[|y| - 1]);
      assert (x + y)[..|x + y| - 1] == x + y';
      assert (x + y)[|x + y| - 1] == y[|y| - 1];
      DigitsValueAppend(x, y');
      var a, b, p := DigitsValue(x), DigitsValue(y'), Pow10(|y'|);
      assert (a * p + b) * 10 == a * (10 * p) + b * 10 by { ShiftDigit(a, p, b); }
    } else {
      assert x + y == x;
    }
  }

  lemma ShiftDigit(a: int, p: int, b: int)
    ensures (a * p + b) * 10 == a * (10 * p) + b * 10
  {
  }

  /** Length of the longest prefix of `s` made of digits. */
  function DigitSpan(s: string): (n: nat)
    ensures n <= |s|
    ensures AllDigits(s[..n])
    ensures n < |s| ==> !IsDigit(s[n])
  {
    if s != [] && IsDigit(s[0]) then 1 + DigitSpan(s[1..]) else 0
  }

  /** Length of the longest prefix of `s` made of white space. */
  function WhitespaceSpan(s: string): (n: nat)
    ensures n <= |s|
    ensures AllWhitespace(s[..n])
    ensures n < |s| ==> !IsJsWhitespace(s[n])
  {
    if s != [] && IsJsWhitespace(s[0]) then 1 + WhitespaceSpan(s[1..]) else 0
  }

  lemma {:induction false} DigitSpanOf(d: string, t: string)
    requires AllDigits(d)
    requires t == [] || !IsDigit(t[0])
    ensures DigitSpan(d + t) == |d|
  {
    if d != [] {
      assert (d + t)[1..] == d[1..] + t;
      DigitSpanOf(d[1..], t);
    } else {
      assert d + t == t;
    }
  }

  lemma {:induction false} WhitespaceSpanOf(w: string, t: string)
    requires AllWhitespace(w)
    requires t == [] || !IsJsWhitespace(t[0])
    ensures WhitespaceSpan(w + t) == |w|
  {
    if w != [] {
      assert (w + t)[1..] == w[1..] + t;
      WhitespaceSpanOf(w[1..], t);
    } else {
      assert w + t == t;
    }
  }

  // ---------------------------------------------------------------------
  // The amount pattern: digits, an optional fraction, optional white space
  // and an optional unit letter B, M or K in either case, filling the string
  // ---------------------------------------------------------------------

  /** A unit letter; the pattern is case-insensitive. */
  predicate IsUnitLetter(c: char) {
    c in "BMKbmk"
  }

  /**
   * The parts of a matched amount: integer digits, the optional fraction
   * digits after '.', the white space before the unit, and the unit text
   * as written (empty or one unit letter).
   */
  datatype Amount = Amount(intDigits: string, fraction: Option<string>, spaces: string, unit: string)

  /** The strings the pattern accepts are exactly the spellings of well-formed amounts. */
  predicate WellFormed(a: Amount) {
    && a.intDigits != [] && AllDigits(a.intDigits)
    && (a.fraction.Some? ==> a.fraction.value != [] && AllDigits(a.fraction.value))
    && AllWhitespace(a.spaces)
    && (a.unit == [] || (|a.unit| == 1 && IsUnitLetter(a.unit[0])))
  }

  function Spell(a: Amount): string {
    a.intDigits + (FractionText(a.fraction) + (a.spaces + a.unit))
  }

  function FractionText(fraction: Option<string>): string {
    if fraction.Some? then "." + fraction.value else ""
  }

  /** The optional fraction (a point and at least one digit) at the start of `rest`, and what follows it. */
  function FractionPart(rest: string): (r: (Option<string>, string))
    ensures FractionText(r.0) + r.1 == rest
    ensures r.0.Some? ==> r.0.value != [] && AllDigits(r.0.value)
  {
    if |rest| >= 2 && rest[0] == '.' && IsDigit(rest[1]) then
      var m := DigitSpan(rest[1..]);
      assert rest[1..][..m] == rest[1..1 + m];
      assert rest == "." + rest[1..1 + m] + rest[1 + m..];
      (Some(rest[1..1 + m]), rest[1 + m..])
    else
      (None, rest)
  }

  /** After the number: white space, then at most one unit letter, then the end; the white space and the unit text. */
  function UnitPart(after: string): (r: Option<(string, string)>)
    ensures r.Some? ==> r.value.0 + r.value.1 == after && AllWhitespace(r.value.0)
    ensures r.Some? ==> r.value.1 == [] || (|r.value.1| == 1 && IsUnitLetter(r.value.1[0]))
  {
    var w := WhitespaceSpan(after);
    var tail := after[w..];
    assert after == after[..w] + tail;
    if tail == [] || (|tail| == 1 && IsUnitLetter(tail[0])) then Some((after[..w], tail)) else None
  }

  /** The regular-expression match, as a left-to-right scan. */
  function MatchAmount(s: string): Option<Amount> {
    var n := DigitSpan(s);
    if n == 0 then None
    else
      var number := FractionPart(s[n..]);
      var unit := UnitPart(number.1);
      if unit.None? then None
      else Some(Amount(s[..n], number.0, unit.value.0, unit.value.1))
  }

  lemma SplitAt(s: string, n: nat)
    requires n <= |s|
    ensures s[..n] + s[n..] == s
  {
  }

  /** Soundness: a match is a well-formed amount spelling the whole input. */
  lemma MatchIsSpelling(s: string)
    requires MatchAmount(s).Some?
    ensures WellFormed(MatchAmount(s).value)
    ensures Spell(MatchAmount(s).value) == s
  {
    var n := DigitSpan(s);
    var number := FractionPart(s[n..]);
    var unit := UnitPart(number.1).value;
    assert MatchAmount(s).value == Amount(s[..n], number.0, unit.0, unit.1);
    SplitAt(s, n);
  }

  lemma FractionPartOf(fraction: Option<string>, t: string)
    requires fraction.Some? ==> fraction.value != [] && AllDigits(fraction.value)
    requires t == [] || (!IsDigit(t[0]) && t[0] != '.')
    ensures FractionPart(FractionText(fraction) + t) == (fraction, t)
  {
    if fraction.Some? {
      var f := fraction.value;
      var rest := "." + f + t;
      assert rest[1..] == f + t;
      DigitSpanOf(f, t);
      assert rest[1..1 + |f|] == f;
      assert rest[1 + |f|..] == t;
    } else {
      assert FractionText(fraction) + t == t;
    }
  }

  lemma UnitPartOf(spaces: string, unit: string)
    requires AllWhitespace(spaces)
    requires unit == [] || (|unit| == 1 && IsUnitLetter(unit[0]))
    ensures UnitPart(spaces + unit) == Some((spaces, unit))
  {
    assert unit == [] || !IsJsWhitespace(unit[0]);
    WhitespaceSpanOf(spaces, unit);
    assert (spaces + unit)[..|spaces|] == spaces;
    assert (spaces + unit)[|spaces|..] == unit;
  }

  /** Completeness: every well-formed amount's spelling matches, as that amount. */
  lemma SpellingMatches(a: Amount)
    requires WellFormed(a)
    ensures MatchAmount(Spell(a)) == Some(a)
  {
    var after := a.spaces + a.unit;
    var rest := FractionText(a.fraction) + after;
    var s := Spell(a);
    assert s == a.intDigits + rest;
    assert after == [] || (!IsDigit(after[0]) && after[0] != '.') by {
      if a.spaces != [] { assert after[0] == a.spaces[0]; }
    }
    assert rest == [] || !IsDigit(rest[0]) by {
      if a.fraction.None? { assert rest == after; }
    }
    DigitSpanOf(a.intDigits, rest);
    assert s[..|a.intDigits|] == a.intDigits;
    assert s[|a.intDigits|..] == rest;
    FractionPartOf(a.fraction, after);
    UnitPartOf(a.spaces, a.unit);
  }

  /** The unit letter, in either case, chooses the factor; no unit means 1. */
  function Multiplier(unit: string): (m: nat)
    ensures unit == "B" || unit == "b" ==> m == 1_000_000_000
    ensures unit == "M" || unit == "m" ==> m == 1_000_000
    ensures unit == "K" || unit == "k" ==> m == 1_000
    ensures unit == "" ==> m == 1
    ensures m >= 1
  {
    if unit == "B" || unit == "b" then 1_000_000_000
    else if unit == "M" || unit == "m" then 1_000_000
    else if unit == "K" || unit == "k" then 1_000
    else 1
  }

  /**
   * Math.round on the non-negative rational num / den: the nearest integer,
   * halves rounded up.
   */
  function RoundHalfUp(num: nat, den: nat): (r: nat)
    requires den > 0
    ensures (2 * r - 1) * den <= 2 * num < (2 * r + 1) * den
  {
    var q := (2 * num + den) / (2 * den);
    assert q * (2 * den) <= 2 * num + den < (q + 1) * (2 * den);
    q
  }

  /**
   * The exact decimal the matched number denotes is
   * DigitsValue(intDigits ++ fraction) / 10^|fraction|; the result is that
   * number times the unit's multiplier, rounded.
   */
  function AmountValue(a: Amount): nat
    requires WellFormed(a)
  {
    var frac := a.fraction.GetOr("");
    DigitsValueAppend(a.intDigits, frac);
    RoundHalfUp(DigitsValue(a.intDigits + frac) * Multiplier(a.unit), Pow10(|frac|))
  }

  /** Without a fraction no rounding happens: the value is the integer times the multiplier. */
  lemma WholeAmountValue(a: Amount)
    requires WellFormed(a) && a.fraction.None?
    ensures AmountValue(a) == DigitsValue(a.intDigits) * Multiplier(a.unit)
  {
    assert a.intDigits + "" == a.intDigits;
    var x := DigitsValue(a.intDigits) * Multiplier(a.unit);
    assert (2 * x + 1) / 2 == x;
  }

  // ---------------------------------------------------------------------
  // en-US rendering (Number.prototype.toLocaleString)
  // ---------------------------------------------------------------------

  /** Plain decimal rendering, no leading zeros. */
  function DecimalDigits(n: nat): (s: string)
    ensures s != [] && AllDigits(s)
  {
    if n < 10 then [DigitChar(n)] else DecimalDigits(n / 10) + [DigitChar(n % 10)]
  }

  /** A group of exactly three digits, zero-padded. */
  function Pad3(r: nat): (s: string)
    requires r < 1000
    ensures |s| == 3 && AllDigits(s)
  {
    [DigitChar(r / 100), DigitChar(r / 10 % 10), DigitChar(r % 10)]
  }

  /** Digit grouping: a comma before every group of three digits from the right. */
  function Grouped(n: nat): string {
    if n < 1000 then DecimalDigits(n) else Grouped(n / 1000) + "," + Pad3(n % 1000)
  }

  lemma {:induction false} DecimalDigitsValue(n: nat)
    ensures DigitsValue(DecimalDigits(n)) == n
  {
    if n >= 10 {
      var s := DecimalDigits(n);
      assert s[..|s| - 1] == DecimalDigits(n / 10);
      DecimalDigitsValue(n / 10);
    }
  }

  lemma Pad3Value(r: nat)
    requires r < 1000
    ensures DigitsValue(Pad3(r)) == r
  {
    var s := Pad3(r);
    var a, b, c := r / 100, r / 10 % 10, r % 10;
    var s1, s2 := [DigitChar(a)], [DigitChar(a), DigitChar(b)];
    assert s[..2] == s2 && s2[..1] == s1 && s1[..0] == [];
    assert DigitsValue(s1) == a;
    assert DigitsValue(s2) == a * 10 + b;
    assert DigitsValue(s) == (a * 10 + b) * 10 + c;
    assert r / 10 / 10 == a;
    assert r == 10 * (r / 10) + c;
    assert r / 10 == 10 * a + b;
  }

  /** en-US layout: one to three leading digits, then groups of a comma and three digits. */
  predicate GroupedLayout(s: string)
    decreases |s|
  {
    (1 <= |s| <= 3 && AllDigits(s))
    || (|s| >= 5 && s[|s| - 4] == ',' && AllDigits(s[|s| - 3..]) && GroupedLayout(s[..|s| - 4]))
  }

  lemma {:induction false} GroupedHasLayout(n: nat)
    ensures GroupedLayout(Grouped(n))
    ensures Grouped(n)[0] == '0' ==> n == 0
  {
    if n < 1000 {
      var s := DecimalDigits(n);
      DecimalDigitsShape(n);
    } else {
      GroupedHasLayout(n / 1000);
      var g := Grouped(n / 1000);
      var s := Grouped(n);
      assert s == g + "," + Pad3(n % 1000);
      assert s[..|s| - 4] == g;
      assert s[|s| - 3..] == Pad3(n % 1000);
      assert s[0] == g[0];
    }
  }

  lemma {:induction false} DecimalDigitsShape(n: nat)
    ensures n < 10 ==> |DecimalDigits(n)| == 1
    ensures n < 100 ==> |DecimalDigits(n)| <= 2
    ensures n < 1000 ==> 1 <= |DecimalDigits(n)| <= 3
    ensures DecimalDigits(n)[0] == '0' ==> n == 0
  {
    if n >= 10 {
      DecimalDigitsShape(n / 10);
      assert DecimalDigits(n)[0] == DecimalDigits(n / 10)[0];
    }
  }

  // ---------------------------------------------------------------------
  // convertTokensToNumber
  // ---------------------------------------------------------------------

  function ConvertTokensToNumber(tokenStr: string): string {
    match MatchAmount(tokenStr)
    case None => tokenStr
    case Some(a) => (MatchIsSpelling(tokenStr); Grouped(AmountValue(a)))
  }

  /** Input the pattern rejects comes back unchanged. */
  lemma UnmatchedUnchanged(s: string)
    requires forall a :: WellFormed(a) ==> Spell(a) != s
    ensures ConvertTokensToNumber(s) == s
  {
    if MatchAmount(s).Some? {
      MatchIsSpelling(s);
      assert false;
    }
  }

  /** Input the pattern accepts becomes the grouped rendering of its rounded value. */
  lemma MatchedConverted(a: Amount)
    requires WellFormed(a)
    ensures ConvertTokensToNumber(Spell(a)) == Grouped(AmountValue(a))
  {
    SpellingMatches(a);
  }

  lemma SpellingHasNoComma(a: Amount)
    requires WellFormed(a)
    ensures ',' !in Spell(a)
  {
    assert ',' !in a.intDigits;
    assert ',' !in FractionText(a.fraction) by {
      if a.fraction.Some? { assert ',' !in a.fraction.value; }
    }
    assert ',' !in a.spaces;
    assert ',' !in a.unit;
  }

  /** The pattern rejects any text holding a comma. */
  lemma CommaRejected(s: string)
    requires ',' in s
    ensures MatchAmount(s).None?
  {
    if MatchAmount(s).Some? {
      MatchIsSpelling(s);
      SpellingHasNoComma(MatchAmount(s).value);
      assert false;
    }
  }

  /** A value below 1,000 renders as the spelling of a plain integer amount. */
  lemma PlainSpelling(v: nat)
    requires v < 1000
    ensures WellFormed(Amount(DecimalDigits(v), None, "", ""))
    ensures Spell(Amount(DecimalDigits(v), None, "", "")) == Grouped(v)
  {
    assert DecimalDigits(v) + ("" + ("" + "")) == DecimalDigits(v);
  }

  lemma TimesOne(x: nat, m: nat)
    requires m == 1
    ensures x * m == x
  {
  }

  /** A value below 1,000 renders as a plain integer, which converts to itself. */
  lemma SmallGroupedFixpoint(v: nat)
    requires v < 1000
    ensures ConvertTokensToNumber(Grouped(v)) == Grouped(v)
  {
    var plain := Amount(DecimalDigits(v), None, "", "");
    PlainSpelling(v);
    WholeAmountValue(plain);
    TimesOne(DigitsValue(plain.intDigits), Multiplier(plain.unit));
    DecimalDigitsValue(v);
    MatchedConverted(plain);
  }

  /** A rendered amount converts to itself. */
  lemma {:induction false} GroupedIsFixpoint(v: nat)
    ensures ConvertTokensToNumber(Grouped(v)) == Grouped(v)
  {
    if v < 1000 {
      SmallGroupedFixpoint(v);
    } else {
      var r := Grouped(v);
      assert r == Grouped(v / 1000) + "," + Pad3(v % 1000);
      assert r[|Grouped(v / 1000)|] == ',';
      CommaRejected(r);
    }
  }

  /**
   * Converting twice is converting once: a result below 1,000 is a plain
   * integer that converts to itself, and a larger one holds a comma, which
   * the pattern rejects.
   */
  lemma ConvertIdempotent(s: string)
    ensures ConvertTokensToNumber(ConvertTokensToNumber(s)) == ConvertTokensToNumber(s)
  {
    if MatchAmount(s).Some? {
      GroupedIsFixpoint(AmountValue(MatchAmount(s).value));
    }
  }

  // ---------------------------------------------------------------------
  // Worked examples
  // ---------------------------------------------------------------------

  lemma GroupedExamples()
    ensures Grouped(42) == "42"
    ensures Grouped(900_000) == "900,000"
  {
    assert Pad3(0) == "000";
    assert DecimalDigits(900) == "900";
  }

  lemma GroupedMillions()
    ensures Grouped(2_500_000) == "2,500,000"
  {
    assert Pad3(0) == "000";
    assert Pad3(500) == "500";
    assert Grouped(2_500) == "2,500";
  }

  lemma GroupedBillion()
    ensures Grouped(1_000_000_000) == "1,000,000,000"
  {
    assert Pad3(0) == "000";
    assert Grouped(1_000) == "1,000";
    assert Grouped(1_000_000) == "1,000,000";
  }

  lemma AmountValueMillions()
    ensures AmountValue(Amount("2", Some("5"), "", "M")) == 2_500_000
  {
    var a := Amount("2", Some("5"), "", "M");
    assert a.intDigits + a.fraction.GetOr("") == "25";
    assert DigitsValue("25") == 25;
    assert Pow10(1) == 10;
    assert RoundHalfUp(25_000_000, 10) == 2_500_000;
  }

  lemma AmountValueThousands()
    ensures AmountValue(Amount("900", None, "", "K")) == 900_000
    ensures AmountValue(Amount("900", None, " ", "k")) == 900_000
  {
    DigitsValueOf900();
    WholeAmountValue(Amount("900", None, "", "K"));
    WholeAmountValue(Amount("900", None, " ", "k"));
  }

  lemma DigitsValueOf900()
    ensures DigitsValue("900") == 900
  {
    assert "900"[..2] == "90";
    assert "90"[..1] == "9";
  }

  lemma AmountValuePlain()
    ensures AmountValue(Amount("1", None, "", "B")) == 1_000_000_000
    ensures AmountValue(Amount("42", None, "", "")) == 42
  {
    assert DigitsValue("1") == 1;
    WholeAmountValue(Amount("1", None, "", "B"));
    assert DigitsValue("42") == 42;
    WholeAmountValue(Amount("42", None, "", ""));
  }

  /** "2.5M" is 2,500,000. */
  lemma ConvertExampleMillions()
    ensures ConvertTokensToNumber("2.5M") == "2,500,000"
  {
    var a := Amount("2", Some("5"), "", "M");
    assert Spell(a) == "2.5M";
    MatchedConverted(a);
    AmountValueMillions();
    GroupedMillions();
  }

  /** "900K" is 900,000. */
  lemma ConvertExampleThousands()
    ensures ConvertTokensToNumber("900K") == "900,000"
  {
    var b := Amount("900", None, "", "K");
    assert Spell(b) == "900K";
    MatchedConverted(b);
    AmountValueThousands();
    GroupedExamples();
  }

  /** "900 k" is 900,000 too: the unit is case-insensitive and may follow white space. */
  lemma ConvertExampleSpacedUnit()
    ensures ConvertTokensToNumber("900 k") == "900,000"
  {
    var b := Amount("900", None, " ", "k");
    assert Spell(b) == "900 k";
    MatchedConverted(b);
    AmountValueThousands();
    GroupedExamples();
  }

  /** "1B" is 1,000,000,000. */
  lemma ConvertExampleBillions()
    ensures ConvertTokensToNumber("1B") == "1,000,000,000"
  {
    var c := Amount("1", None, "", "B");
    assert Spell(c) == "1B";
    MatchedConverted(c);
    AmountValuePlain();
    GroupedBillion();
  }

  /** "42" stays "42". */
  lemma ConvertExamplePlain()
    ensures ConvertTokensToNumber("42") == "42"
  {
    var d := Amount("42", None, "", "");
    assert Spell(d) == "42";
    MatchedConverted(d);
    AmountValuePlain();
    GroupedExamples();
  }

  /** "not-a-number" does not match and is kept as it is. */
  lemma ConvertExampleUnmatched()
    ensures ConvertTokensToNumber("not-a-number") == "not-a-number"
  {
    assert DigitSpan("not-a-number") == 0;
  }
}
