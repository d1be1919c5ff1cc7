/**
 * Reading a printed monetary amount: `float(vl_total.replace(',', '.'))`,
 * over exact decimals instead of binary floating point. A failed parse is
 * None, the model of the ValueError the extractor swallows.
 */
module Amount {
  import opened Options
  import opened Text

  /** vl_total.replace(',', '.'): every comma becomes a period, nothing else moves. */
  function ReplaceCommas(s: string): (r: string)
    ensures |r| == |s|
  {
    if |s| == 0 then [] else [if s[0] == ',' then '.' else s[0]] + ReplaceCommas(s[1..])
  }

  /** Only commas change, and each becomes a period. */
  lemma {:induction false} ReplaceCommasAt(s: string)
    ensures forall k :: 0 <= k < |s| ==> ReplaceCommas(s)[k] == (if s[k] == ',' then '.' else s[k])
  {
    if |s| > 0 {
      ReplaceCommasAt(s[1..]);
      assert forall k :: 1 <= k < |s| ==> s[k] == s[1..][k - 1];
    }
  }

  function Pow10(n: nat): (r: nat)
    ensures r > 0
  {
    if n == 0 then 1 else 10 * Pow10(n - 1)
  }

  /** Index of the first '.' of `s`, or |s| when there is none. */
  function DotIndex(s: string): (i: nat)
    ensures i <= |s|
  {
    if |s| == 0 || s[0] == '.' then 0 else 1 + DotIndex(s[1..])
  }

  /** DotIndex finds the FIRST period. */
  lemma {:induction false} DotIndexIsFirst(s: string)
    ensures forall k :: 0 <= k < DotIndex(s) ==> s[k] != '.'
    ensures DotIndex(s) < |s| ==> s[DotIndex(s)] == '.'
  {
    if |s| > 0 && s[0] != '.' {
      DotIndexIsFirst(s[1..]);
      assert forall k :: 1 <= k < |s| ==> s[k] == s[1..][k - 1];
    }
  }

  /**
   * An unsigned decimal literal: digits, optionally a '.' followed by
   * digits, with at least one digit in all ("1.", ".5" and "12.50" parse;
   * ".", "" and "1.2.3" do not).
   */
  function ParseUnsigned(s: string): (r: Option<real>)
    ensures r.Some? ==> r.value >= 0.0
  {
    var i := DotIndex(s);
    var whole := s[..i];
    var frac := if i < |s| then s[i + 1..] else [];
    if OnlyDigits(whole) && OnlyDigits(frac) && |whole| + |frac| > 0 then
      Some(DigitsValue(whole) as real + DigitsValue(frac) as real / Pow10(|frac|) as real)
    else
      None
  }

  /** Python's float() on a decimal literal with an optional sign. */
  function ParseDecimal(s: string): Option<real> {
    if |s| > 0 && s[0] == '-' then
      match ParseUnsigned(s[1..])
      case None => None
      case Some(v) => Some(-v)
    else if |s| > 0 && s[0] == '+' then
      ParseUnsigned(s[1..])
    else
      ParseUnsigned(s)
  }

  /** The amount of a printed `Vl. total` token, comma read as the decimal point. */
  function ParseAmount(s: string): Option<real> {
    ParseDecimal(ReplaceCommas(s))
  }

  /** What a token adds to the running total: its amount, or nothing when it does not parse. */
  function AmountOrZero(s: string): real {
    match ParseAmount(s)
    case None => 0.0
    case Some(v) => v
  }

  /** A token with no digit at all is never an amount ("abc", "-", ","). */
  lemma NoDigitNoAmount(s: string)
    requires forall k :: 0 <= k < |s| ==> !IsDigit(s[k])
    ensures ParseAmount(s) == None
  {
    var t := ReplaceCommas(s);
    ReplaceCommasAt(s);
    assert forall k :: 0 <= k < |t| ==> !IsDigit(t[k]);
    if |t| > 0 && (t[0] == '-' || t[0] == '+') {
      var u := t[1..];
      assert forall k :: 0 <= k < |u| ==> !IsDigit(u[k]);
    }
  }

  /** Digits, a period, digits: the period splits the whole part from the fraction. */
  lemma {:induction false} UnsignedWithDot(a: string, b: string)
    requires OnlyDigits(a) && OnlyDigits(b) && |a| + |b| > 0
    ensures ParseUnsigned(a + "." + b)
         == Some(DigitsValue(a) as real + DigitsValue(b) as real / Pow10(|b|) as real)
  {
    var t := a + "." + b;
    assert DotIndex(t) == |a| by {
      DotIndexIsFirst(t);
      assert forall k :: 0 <= k < |a| ==> t[k] == a[k];
      assert t[|a|] == '.';
    }
    assert t[..|a|] == a;
    assert t[|a| + 1..] == b;
  }

  lemma {:induction false} ReplaceCommasAtSeparator(a: string, b: string)
    requires OnlyDigits(a) && OnlyDigits(b)
    ensures ReplaceCommas(a + "," + b) == a + "." + b
  {
    var s := a + "," + b;
    var t := ReplaceCommas(s);
    ReplaceCommasAt(s);
    assert forall k :: 0 <= k < |a| ==> s[k] == a[k] && IsDigit(s[k]);
    assert forall k :: |a| < k < |s| ==> s[k] == b[k - |a| - 1] && IsDigit(s[k]);
    assert forall k :: 0 <= k < |s| ==> t[k] == (a + "." + b)[k];
  }

  /**
   * The Brazilian notation: digits, a comma, digits (at least one digit in
   * all) is read as the whole part plus the fraction.
   */
  lemma CommaDecimal(a: string, b: string)
    requires OnlyDigits(a) && OnlyDigits(b) && |a| + |b| > 0
    ensures ParseAmount(a + "," + b)
         == Some(DigitsValue(a) as real + DigitsValue(b) as real / Pow10(|b|) as real)
  {
    var t := a + "." + b;
    ReplaceCommasAtSeparator(a, b);
    UnsignedWithDot(a, b);
    assert t[0] != '-' && t[0] != '+' by {
      if |a| > 0 { assert t[0] == a[0]; }
    }
  }

  /** A plain run of digits is an integral amount. */
  lemma IntegerAmount(a: string)
    requires IsDigitString(a)
    ensures ParseAmount(a) == Some(DigitsValue(a) as real)
  {
    DigitsUntouched(a);
    NoDotIndex(a);
    assert a[..|a|] == a;
    assert DigitsValue([]) == 0;
    assert ParseUnsigned(a) == Some(DigitsValue(a) as real + 0 as real / Pow10(0) as real);
    assert a[0] != '-' && a[0] != '+';
  }

  lemma DigitsUntouched(a: string)
    requires OnlyDigits(a)
    ensures ReplaceCommas(a) == a
  {
    ReplaceCommasAt(a);
    assert forall k :: 0 <= k < |a| ==> ReplaceCommas(a)[k] == a[k];
  }

  lemma {:induction false} NoDotIndex(a: string)
    requires OnlyDigits(a)
    ensures DotIndex(a) == |a|
  {
    if |a| > 0 {
      assert IsDigit(a[0]);
      assert forall k :: 0 <= k < |a| - 1 ==> a[1..][k] == a[k + 1];
      NoDotIndex(a[1..]);
    }
  }

  function DigitChar(d: nat): (c: char)
    requires d < 10
    ensures IsDigit(c) && c as int - '0' as int == d
  {
    ('0' as int + d) as char
  }

  /** The decimal digits of `n`, most significant first, without leading zeros. */
  function NatDigits(n: nat): (s: string)
    ensures IsDigitString(s) && DigitsValue(s) == n
    ensures |s| > 1 ==> s[0] != '0'
  {
    if n < 10 then [DigitChar(n)]
    else
      var p := NatDigits(n / 10);
      var s := p + [DigitChar(n % 10)];
      assert s[..|s| - 1] == p;
      s
  }

  /** How the receipt prints an amount of `cents` centavos: "12,50". */
  function FormatCents(cents: nat): string {
    var r := cents % 100;
    NatDigits(cents / 100) + "," + [DigitChar(r / 10), DigitChar(r % 10)]
  }

  lemma TwoDigitsValue(hi: nat, lo: nat)
    requires hi < 10 && lo < 10
    ensures DigitsValue([DigitChar(hi), DigitChar(lo)]) == 10 * hi + lo
  {
    var b := [DigitChar(hi), DigitChar(lo)];
    assert b[..1] == [DigitChar(hi)];
    assert [DigitChar(hi)][..0] == [];
    assert DigitsValue(b[..1]) == hi;
  }

  lemma CentsAsReal(q: nat, r: nat, cents: nat)
    requires cents == 100 * q + r
    ensures q as real + r as real / 100.0 == cents as real / 100.0
  {
  }

  lemma CentsDigits(cents: nat)
    ensures cents == 100 * (cents / 100) + 10 * (cents % 100 / 10) + cents % 100 % 10
    ensures cents % 100 / 10 < 10 && cents % 100 % 10 < 10
  {
    var r := cents % 100;
    assert cents == 100 * (cents / 100) + r;
    assert r == 10 * (r / 10) + r % 10;
  }

  /** Reading back a printed amount gives exactly the centavos it was printed from. */
  lemma ParseFormattedCents(cents: nat)
    ensures ParseAmount(FormatCents(cents)) == Some(cents as real / 100.0)
  {
    var q, hi, lo := cents / 100, cents % 100 / 10, cents % 100 % 10;
    CentsDigits(cents);
    var a := NatDigits(q);
    var b := [DigitChar(hi), DigitChar(lo)];
    TwoDigitsValue(hi, lo);
    assert |b| == 2 && Pow10(1) == 10 && Pow10(2) == 100;
    calc {
      ParseAmount(FormatCents(cents));
      ParseAmount(a + "," + b);
      { CommaDecimal(a, b); }
      Some(DigitsValue(a) as real + DigitsValue(b) as real / Pow10(|b|) as real);
      Some(q as real + (10 * hi + lo) as real / 100.0);
      { CentsAsReal(q, 10 * hi + lo, cents); }
      Some(cents as real / 100.0);
    }
  }

  /** "12,50" is twelve reais and fifty centavos. */
  lemma TwelveFifty()
    ensures AmountOrZero("12,50") == 12.5
  {
    assert FormatCents(1250) == "12,50";
    ParseFormattedCents(1250);
  }

  /** "7,00" is seven reais. */
  lemma SevenReais()
    ensures AmountOrZero("7,00") == 7.0
  {
    assert FormatCents(700) == "7,00";
    ParseFormattedCents(700);
  }
}
