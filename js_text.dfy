/**
 * The JavaScript text conversions the page objects rely on:
 * `parseInt` with radix 10, `toString` on integral numbers and booleans,
 * and the `||` fallback on strings.
 */
module JsText {
  import opened Wrappers

  /** A JavaScript number as produced by `parseInt`: an integer, or NaN. */
  datatype JsNumber = Num(value: int) | NaN

  predicate IsDigit(c: char) { '0' <= c <= '9' }

  predicate AllDigits(s: string) { forall i :: 0 <= i < |s| ==> IsDigit(s[i]) }

  function DigitValue(c: char): (d: nat)
    requires IsDigit(c)
    ensures d < 10
  {
    (c as int) - ('0' as int)
  }

  function DigitChar(d: nat): (c: char)
    requires d < 10
    ensures IsDigit(c) && DigitValue(c) == d
  {
    (('0' as int) + d) as char
  }

  /** The characters `parseInt` skips before the number (StrWhiteSpaceChar of ECMAScript). */
  predicate IsWhiteSpace(c: char)
  {
    var k := c as int;
    k == 0x09 || k == 0x0A || k == 0x0B || k == 0x0C || k == 0x0D || k == 0x20 ||
    k == 0xA0 || k == 0x1680 || (0x2000 <= k <= 0x200A) || k == 0x2028 || k == 0x2029 ||
    k == 0x202F || k == 0x205F || k == 0x3000 || k == 0xFEFF
  }

  /** `s` without its leading white space. */
  function TrimStart(s: string): (r: string)
    ensures |r| <= |s| && r == s[|s| - |r|..]
    ensures r == [] || !IsWhiteSpace(r[0])
    ensures forall i :: 0 <= i < |s| - |r| ==> IsWhiteSpace(s[i])
  {
    if s != [] && IsWhiteSpace(s[0]) then TrimStart(s[1..]) else s
  }

  /** The longest prefix of `s` made of decimal digits. */
  function DigitPrefix(s: string): (r: string)
    ensures r <= s && AllDigits(r)
    ensures |r| == |s| || !IsDigit(s[|r|])
  {
    if s == [] || !IsDigit(s[0]) then [] else [s[0]] + DigitPrefix(s[1..])
  }

  /** The value of a string of decimal digits, most significant first. */
  function DigitsValue(ds: string): nat
    requires AllDigits(ds)
  {
    if ds == [] then 0 else DigitsValue(ds[..|ds| - 1]) * 10 + DigitValue(ds[|ds| - 1])
  }

  /**
   * `parseInt` with radix 10: skip leading white space, read an optional sign, then
   * the longest run of decimal digits; NaN when that run is empty. What
   * follows the digits is ignored.
   */
  function ParseInt(s: string): JsNumber
  {
    ReadSigned(TrimStart(s))
  }

  /** An optional sign, then the leading digits. */
  function ReadSigned(t: string): JsNumber
  {
    if t != [] && t[0] == '-' then Negate(ReadDigits(t[1..]))
    else if t != [] && t[0] == '+' then ReadDigits(t[1..])
    else ReadDigits(t)
  }

  /** The value of the leading digits, NaN when there are none. */
  function ReadDigits(body: string): JsNumber
  {
    var ds := DigitPrefix(body);
    if ds == [] then NaN else Num(DigitsValue(ds))
  }

  function Negate(x: JsNumber): JsNumber
  {
    match x
    case Num(v) => Num(-v)
    case NaN => NaN
  }

  /** The decimal numeral of `n` without leading zeros. */
  function NatToDecimal(n: nat): (r: string)
    ensures r != [] && AllDigits(r)
    ensures n > 0 ==> r[0] != '0'
    ensures |r| == 1 <==> n < 10
  {
    (if n < 10 then [] else NatToDecimal(n / 10)) + [DigitChar(n % 10)]
  }

  /** `n.toString()` for an integral JavaScript number `n`. */
  function IntToDecimal(n: int): (r: string)
    ensures r != [] && (n < 0 <==> r[0] == '-')
    ensures forall i :: 0 <= i < |r| ==> IsDigit(r[i]) || (i == 0 && r[i] == '-')
  {
    if n < 0 then "-" + NatToDecimal(-n) else NatToDecimal(n)
  }

  /** `x.toString()` for a number `parseInt` can produce: its numeral, or "NaN". */
  function NumberToString(x: JsNumber): string
  {
    match x
    case Num(v) => IntToDecimal(v)
    case NaN => "NaN"
  }

  /** `b.toString()` for a boolean. */
  function BoolToString(b: bool): (r: string)
    ensures r == "true" <==> b
  {
    if b then "true" else "false"
  }

  /** The `||` fallback on text: the fallback replaces absent and empty text. */
  function TextOr(text: Option<string>, fallback: string): (r: string)
    ensures text.Some? && text.value != "" ==> r == text.value
    ensures text.None? || text.value == "" ==> r == fallback
  {
    if text.Some? && text.value != "" then text.value else fallback
  }

  lemma {:induction false} DigitPrefixOfDigits(ds: string, rest: string)
    requires AllDigits(ds)
    requires rest == [] || !IsDigit(rest[0])
    ensures DigitPrefix(ds + rest) == ds
  {
    if ds != [] {
      assert (ds + rest)[0] == ds[0];
      assert (ds + rest)[1..] == ds[1..] + rest;
      DigitPrefixOfDigits(ds[1..], rest);
    }
  }

  lemma {:induction false} DecimalValue(n: nat)
    ensures DigitsValue(NatToDecimal(n)) == n
  {
    var ds := NatToDecimal(n);
    assert ds[..|ds| - 1] == if n < 10 then [] else NatToDecimal(n / 10);
    if n >= 10 {
      DecimalValue(n / 10);
    }
  }

  /** Text that does not start with white space is read as it is. */
  lemma TrimStartKeeps(s: string)
    requires s != [] && !IsWhiteSpace(s[0])
    ensures TrimStart(s) == s
  {
  }

  /** A digit is neither white space nor a sign. */
  lemma DigitIsPlain(c: char)
    requires IsDigit(c)
    ensures !IsWhiteSpace(c) && c != '-' && c != '+'
  {
  }

  /** The leading digits of digits followed by a non-digit are those digits. */
  lemma ReadDigitsOf(ds: string, rest: string)
    requires ds != [] && AllDigits(ds)
    requires rest == [] || !IsDigit(rest[0])
    ensures ReadDigits(ds + rest) == Num(DigitsValue(ds))
  {
    DigitPrefixOfDigits(ds, rest);
  }

  /** Reading stops at the first non-digit: only the leading digits count. */
  lemma ParseIntLeadingDigits(ds: string, rest: string)
    requires ds != [] && AllDigits(ds)
    requires rest == [] || !IsDigit(rest[0])
    ensures ParseInt(ds + rest) == Num(DigitsValue(ds))
  {
    var s := ds + rest;
    assert s[0] == ds[0];
    DigitIsPlain(s[0]);
    TrimStartKeeps(s);
    assert ReadSigned(s) == ReadDigits(s);
    ReadDigitsOf(ds, rest);
  }

  /** Text that does not start with a digit, a sign or white space is NaN, not 0. */
  lemma ParseIntNoLeadingDigit(s: string)
    requires s != [] && !IsDigit(s[0]) && !IsWhiteSpace(s[0]) && s[0] != '-' && s[0] != '+'
    ensures ParseInt(s) == NaN
  {
    TrimStartKeeps(s);
    assert ReadSigned(s) == ReadDigits(s);
  }

  /** A run made only of digits is read whole. */
  lemma ReadAllDigits(ds: string)
    requires ds != [] && AllDigits(ds)
    ensures ReadDigits(ds) == Num(DigitsValue(ds))
  {
    assert ds + [] == ds;
    DigitPrefixOfDigits(ds, []);
  }

  /** A minus sign before the digits negates their value. */
  lemma ParseIntNegative(ds: string)
    requires ds != [] && AllDigits(ds)
    ensures ParseInt("-" + ds) == Num(-(DigitsValue(ds) as int))
  {
    var s := "-" + ds;
    assert s[0] == '-' && s[1..] == ds;
    TrimStartKeeps(s);
    ReadAllDigits(ds);
    assert ReadSigned(s) == Negate(ReadDigits(ds));
  }

  predicate AllWhiteSpace(w: string) { forall i :: 0 <= i < |w| ==> IsWhiteSpace(w[i]) }

  /** The text after a run of white space is what the sign and digits are read from. */
  lemma {:induction false} TrimStartAfterWhite(w: string, t: string)
    requires AllWhiteSpace(w)
    requires t == [] || !IsWhiteSpace(t[0])
    ensures TrimStart(w + t) == t
  {
    if w == [] {
      assert w + t == t;
    } else {
      assert (w + t)[0] == w[0];
      assert (w + t)[1..] == w[1..] + t;
      TrimStartAfterWhite(w[1..], t);
    }
  }

  lemma ParseAfterWhite(w: string, t: string)
    requires AllWhiteSpace(w)
    requires t == [] || !IsWhiteSpace(t[0])
    ensures ParseInt(w + t) == ReadSigned(t)
  {
    TrimStartAfterWhite(w, t);
  }

  /** What an optional sign leaves for the digits, and how it acts on their value. */
  lemma ReadSignedBySign(sign: string, body: string)
    requires sign == "" || sign == "-" || sign == "+"
    requires sign == "" && body != [] ==> body[0] != '-' && body[0] != '+'
    ensures ReadSigned(sign + body) ==
            if sign == "-" then Negate(ReadDigits(body)) else ReadDigits(body)
  {
    var t := sign + body;
    if sign == "" {
      assert t == body;
    } else {
      assert t[0] == sign[0] && t[1..] == body;
    }
  }

  /** Signed digits do not start with white space. */
  lemma SignedDigitsStartPlain(sign: string, body: string)
    requires sign == "" || sign == "-" || sign == "+"
    requires body != [] && IsDigit(body[0])
    ensures !IsWhiteSpace((sign + body)[0])
  {
    if sign == "" {
      assert (sign + body)[0] == body[0];
      DigitIsPlain(body[0]);
    } else {
      assert (sign + body)[0] == sign[0];
    }
  }

  /** An optional sign, then digits and what follows them. */
  lemma ReadSignedDigits(sign: string, ds: string, rest: string)
    requires sign == "" || sign == "-" || sign == "+"
    requires ds != [] && AllDigits(ds)
    requires rest == [] || !IsDigit(rest[0])
    ensures ReadSigned(sign + (ds + rest)) ==
            if sign == "-" then Num(-(DigitsValue(ds) as int)) else Num(DigitsValue(ds))
  {
    var body := ds + rest;
    assert body[0] == ds[0];
    DigitIsPlain(body[0]);
    ReadSignedBySign(sign, body);
    ReadDigitsOf(ds, rest);
  }

  /**
   * Leading white space and an optional sign are skipped, then the leading digits are
   * read and whatever follows them ignored; a minus sign negates the value.
   */
  lemma ParseIntSignedDigits(w: string, sign: string, ds: string, rest: string)
    requires AllWhiteSpace(w)
    requires sign == "" || sign == "-" || sign == "+"
    requires ds != [] && AllDigits(ds)
    requires rest == [] || !IsDigit(rest[0])
    ensures ParseInt(w + sign + ds + rest) ==
            if sign == "-" then Num(-(DigitsValue(ds) as int)) else Num(DigitsValue(ds))
  {
    var body := ds + rest;
    assert w + sign + ds + rest == w + (sign + body);
    assert body[0] == ds[0];
    SignedDigitsStartPlain(sign, body);
    ReadSignedDigits(sign, ds, rest);
    ParseAfterWhite(w, sign + body);
  }

  /**
   * Text with no digit after its leading white space and optional sign is NaN, not 0:
   * `" "`, `"-"`, `"+x"`, `"- 5"` and `" abc"` among them.
   */
  lemma ParseIntNoDigits(w: string, sign: string, rest: string)
    requires AllWhiteSpace(w)
    requires sign == "" || sign == "-" || sign == "+"
    requires rest == [] || !IsDigit(rest[0])
    requires sign == "" && rest != [] ==> !IsWhiteSpace(rest[0]) && rest[0] != '-' && rest[0] != '+'
    ensures ParseInt(w + sign + rest) == NaN
  {
    var t := sign + rest;
    assert w + sign + rest == w + t;
    assert t == [] || t[0] == if sign == "" then rest[0] else sign[0];
    ParseAfterWhite(w, t);
    ReadSignedBySign(sign, rest);
    assert ReadDigits(rest) == NaN;
  }

  /** `parseInt` reads back what `toString` writes. */
  lemma ParseIntRoundTrip(n: int)
    ensures ParseInt(IntToDecimal(n)) == Num(n)
  {
    if n < 0 {
      NegativeRoundTrip(n);
    } else {
      NaturalRoundTrip(n);
    }
  }

  lemma NegativeRoundTrip(n: int)
    requires n < 0
    ensures ParseInt(IntToDecimal(n)) == Num(n)
  {
    var m: nat := -n;
    var ds := NatToDecimal(m);
    assert IntToDecimal(n) == "-" + ds;
    DecimalValue(m);
    ParseIntNegative(ds);
  }

  lemma NaturalRoundTrip(n: nat)
    ensures ParseInt(IntToDecimal(n)) == Num(n)
  {
    var ds := NatToDecimal(n);
    assert ds + [] == ds;
    DecimalValue(n);
    ParseIntLeadingDigits(ds, []);
  }

  /** `parseInt` reads back what `toString` writes, NaN included. */
  lemma NumberRoundTrip(x: JsNumber)
    ensures ParseInt(NumberToString(x)) == x
  {
    match x
    case Num(v) => ParseIntRoundTrip(v);
    case NaN => ParseIntNoLeadingDigit("NaN");
  }
}
