/**
 * parseTokenString (the statistics report's reader of stored amounts):
 * remove every comma, then `parseInt(_, 10)`, with NaN read as 0.
 */
module TokenParse {
  import opened Wrappers
  import opened TokenAmount

  /** Every comma removed. */
  function RemoveCommas(s: string): string {
    if s == [] then [] else (if s[0] == ',' then [] else [s[0]]) + RemoveCommas(s[1..])
  }

  lemma {:induction false} RemoveCommasAppend(x: string, y: string)
    ensures RemoveCommas(x + y) == RemoveCommas(x) + RemoveCommas(y)
  {
    if x != [] {
      assert (x + y)[1..] == x[1..] + y;
      RemoveCommasAppend(x[1..], y);
    } else {
      assert x + y == y;
    }
  }

  /** Every comma goes and every other character stays, in order. */
  lemma {:induction false} RemoveCommasSpec(s: string)
    ensures ',' !in RemoveCommas(s)
    ensures ',' !in s ==> RemoveCommas(s) == s
  {
    if s != [] {
      RemoveCommasSpec(s[1..]);
      if ',' !in s {
        assert s[0] != ',' && ',' !in s[1..];
        assert s == [s[0]] + s[1..];
      }
    }
  }

  /**
   * `parseInt(s, 10)`: skip leading white space, take an optional sign, then
   * the longest run of digits; no digit gives NaN (None).
   */
  function ParseInt(s: string): Option<int> {
    ParseSigned(SkipWhitespace(s))
  }

  /** An optional sign and the digits after it. */
  function ParseSigned(t: string): Option<int> {
    match ParseDigits(SkipSign(t))
    case None => None
    case Some(v) => Some(if t != [] && t[0] == '-' then -v else v)
  }

  /** The value of the longest run of leading digits, if there is one. */
  function ParseDigits(u: string): Option<int> {
    var n := DigitSpan(u);
    if n == 0 then None else Some(DigitsValue(u[..n]))
  }

  function SkipWhitespace(s: string): string {
    s[WhitespaceSpan(s)..]
  }

  function SkipSign(t: string): string {
    if t != [] && (t[0] == '-' || t[0] == '+') then t[1..] else t
  }

  lemma SkipWhitespaceOf(ws: string, t: string)
    requires AllWhitespace(ws)
    requires t == [] || !IsJsWhitespace(t[0])
    ensures SkipWhitespace(ws + t) == t
  {
    WhitespaceSpanOf(ws, t);
    assert (ws + t)[|ws|..] == t;
  }

  lemma SkipSignOf(sign: string, u: string)
    requires IsSign(sign)
    requires sign == "" ==> u == [] || (u[0] != '-' && u[0] != '+')
    ensures SkipSign(sign + u) == u
    ensures (sign + u != [] && (sign + u)[0] == '-') == (sign == "-")
  {
    if sign == "" {
      assert sign + u == u;
    } else {
      assert (sign + u)[1..] == u;
    }
  }

  function ParseTokenString(tokenStr: string): int {
    ParseInt(RemoveCommas(tokenStr)).GetOr(0)
  }

  /** The signed value of a sign ("", "+" or "-") and a run of digits. */
  function Signed(sign: string, digits: string): int
    requires AllDigits(digits)
  {
    var v: int := DigitsValue(digits);
    if sign == "-" then -v else v
  }

  predicate IsSign(sign: string) {
    sign == "" || sign == "+" || sign == "-"
  }

  /**
   * On comma-free text, the result is the leading integer: white space, a
   * sign, digits, and then anything that does not continue the digits.
   */
  lemma LeadingInteger(ws: string, sign: string, digits: string, rest: string)
    requires AllWhitespace(ws) && IsSign(sign)
    requires digits != [] && AllDigits(digits)
    requires rest == [] || !IsDigit(rest[0])
    requires ',' !in ws + sign + digits + rest
    ensures ParseTokenString(ws + sign + digits + rest) == Signed(sign, digits)
  {
    RemoveCommasSpec(ws + sign + digits + rest);
    ParseIntOf(ws, sign, digits, rest);
  }

  lemma ParseIntOf(ws: string, sign: string, digits: string, rest: string)
    requires AllWhitespace(ws) && IsSign(sign)
    requires digits != [] && AllDigits(digits)
    requires rest == [] || !IsDigit(rest[0])
    ensures ParseInt(ws + sign + digits + rest) == Some(Signed(sign, digits))
  {
    var u := digits + rest;
    var after := sign + u;
    assert ws + sign + digits + rest == ws + after;
    assert u[0] == digits[0];
    assert !IsJsWhitespace(after[0]) by {
      if sign == [] { assert after[0] == u[0]; }
    }
    SkipWhitespaceOf(ws, after);
    assert after == sign + digits + rest;
    ParseSignedOf(sign, digits, rest);
  }

  lemma ParseSignedOf(sign: string, digits: string, rest: string)
    requires IsSign(sign)
    requires digits != [] && AllDigits(digits)
    requires rest == [] || !IsDigit(rest[0])
    ensures ParseSigned(sign + digits + rest) == Some(Signed(sign, digits))
  {
    var u := digits + rest;
    assert sign + digits + rest == sign + u;
    assert u[0] == digits[0];
    SkipSignOf(sign, u);
    ParseDigitsOf(digits, rest);
  }

  lemma ParseDigitsOf(digits: string, rest: string)
    requires digits != [] && AllDigits(digits)
    requires rest == [] || !IsDigit(rest[0])
    ensures ParseDigits(digits + rest) == Some(DigitsValue(digits) as int)
  {
    DigitSpanOf(digits, rest);
    assert (digits + rest)[..|digits|] == digits;
  }

  /** With no digit after the white space and the optional sign, the result is 0. */
  lemma NoLeadingInteger(ws: string, sign: string, rest: string)
    requires AllWhitespace(ws) && IsSign(sign)
    requires rest == [] || !IsDigit(rest[0])
    requires sign == "" ==> rest == [] || (!IsJsWhitespace(rest[0]) && rest[0] != '+' && rest[0] != '-')
    requires ',' !in ws + sign + rest
    ensures ParseTokenString(ws + sign + rest) == 0
  {
    RemoveCommasSpec(ws + sign + rest);
    ParseIntNone(ws, sign, rest);
  }

  lemma ParseIntNone(ws: string, sign: string, rest: string)
    requires AllWhitespace(ws) && IsSign(sign)
    requires rest == [] || !IsDigit(rest[0])
    requires sign == "" ==> rest == [] || (!IsJsWhitespace(rest[0]) && rest[0] != '+' && rest[0] != '-')
    ensures ParseInt(ws + sign + rest) == None
  {
    var after := sign + rest;
    assert ws + after == ws + sign + rest;
    assert after == [] || !IsJsWhitespace(after[0]) by {
      if sign == [] { assert after == rest; }
    }
    SkipWhitespaceOf(ws, after);
    SkipSignOf(sign, rest);
  }

  /** A comma anywhere is ignored. */
  lemma CommaIgnored(x: string, y: string)
    ensures ParseTokenString(x + "," + y) == ParseTokenString(x + y)
  {
    RemoveCommasAppend(x + ",", y);
    RemoveCommasAppend(x, ",");
    RemoveCommasAppend(x, y);
    assert ","[1..] == [];
    assert RemoveCommas(",") == [];
    assert RemoveCommas(x + ",") == RemoveCommas(x);
    assert RemoveCommas(x + "," + y) == RemoveCommas(x + y);
  }

  /** Removing the commas of a grouped rendering leaves its digits, which denote the number. */
  lemma {:induction false} GroupedDigits(n: nat)
    ensures RemoveCommas(Grouped(n)) != [] && AllDigits(RemoveCommas(Grouped(n)))
    ensures DigitsValue(RemoveCommas(Grouped(n))) == n
  {
    if n < 1000 {
      var d := DecimalDigits(n);
      assert ',' !in d;
      RemoveCommasSpec(d);
      DecimalDigitsValue(n);
    } else {
      var g := Grouped(n / 1000);
      var p := Pad3(n % 1000);
      GroupedDigits(n / 1000);
      RemoveCommasAppend(g + ",", p);
      RemoveCommasAppend(g, ",");
      assert ","[1..] == [];
      assert RemoveCommas(",") == [];
      assert ',' !in p;
      RemoveCommasSpec(p);
      var head := RemoveCommas(g);
      assert RemoveCommas(Grouped(n)) == head + p;
      DigitsValueAppend(head, p);
      Pad3Value(n % 1000);
      assert Pow10(3) == 1000;
    }
  }

  /** Reading back a grouped rendering gives the number. */
  lemma GroupedRoundTrip(n: nat)
    ensures ParseTokenString(Grouped(n)) == n
  {
    GroupedDigits(n);
    var d := RemoveCommas(Grouped(n));
    RemoveCommasSpec(d);
    assert d == "" + "" + d + "";
    LeadingInteger("", "", d, "");
    assert RemoveCommas(d) == d;
  }

  /**
   * The round trip between the collectors and the report: an amount the
   * pattern accepts, once converted and stored, is read back as its value.
   */
  lemma ConvertRoundTrip(a: Amount)
    requires WellFormed(a)
    ensures ParseTokenString(ConvertTokensToNumber(Spell(a))) == AmountValue(a)
  {
    MatchedConverted(a);
    GroupedRoundTrip(AmountValue(a));
  }
}
