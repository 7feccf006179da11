/** Text helpers the tracker needs: Ruby's `Integer#to_s` for non-negative
    integers, its inverse on canonical decimal strings, and `Array#join`. */
module Text {

  predicate IsDigit(c: char) {
    '0' <= c <= '9'
  }

  predicate AllDigits(s: string) {
    forall i :: 0 <= i < |s| ==> IsDigit(s[i])
  }

  /** A decimal numeral as `to_s` prints it: at least one digit, and no
      leading zero unless the numeral is "0" itself. */
  predicate IsCanonical(s: string) {
    && |s| >= 1
    && AllDigits(s)
    && (s[0] == '0' ==> |s| == 1)
  }

  /** The character for a single decimal digit. */
  function DigitChar(d: nat): (c: char)
    requires d < 10
    ensures IsDigit(c)
  {
    (('0' as int) + d) as char
  }

  /** The value of a single decimal digit character. */
  function DigitValue(c: char): (d: nat)
    requires IsDigit(c)
    ensures d < 10
    ensures DigitChar(d) == c
  {
    (c as int) - ('0' as int)
  }

  /** The decimal rendering of `n`, most significant digit first. */
  function NatToString(n: nat): (s: string)
    ensures IsCanonical(s)
    ensures s[0] == '0' <==> n == 0
  {
    if n < 10 then [DigitChar(n)] else NatToString(n / 10) + [DigitChar(n % 10)]
  }

  /** The value of a string of decimal digits (the empty string reads as 0). */
  function ParseDecimal(s: string): (n: nat)
    requires AllDigits(s)
  {
    if |s| == 0 then 0 else ParseDecimal(s[..|s| - 1]) * 10 + DigitValue(s[|s| - 1])
  }

  /** Reading back a rendered number gives the number. */
  lemma {:induction false} ParseNatToString(n: nat)
    ensures ParseDecimal(NatToString(n)) == n
  {
    var s := NatToString(n);
    if n < 10 {
      assert s[..|s| - 1] == [];
      assert DigitValue(DigitChar(n)) == n;
    } else {
      var p := NatToString(n / 10);
      assert s == p + [DigitChar(n % 10)];
      assert s[..|s| - 1] == p;
      assert DigitValue(DigitChar(n % 10)) == n % 10;
      ParseNatToString(n / 10);
    }
  }

  /** A canonical numeral whose first digit is not '0' has a positive value. */
  lemma {:induction false} LeadingDigitPositive(s: string)
    requires AllDigits(s) && |s| >= 1 && s[0] != '0'
    ensures ParseDecimal(s) >= 1
  {
    if |s| > 1 {
      var p := s[..|s| - 1];
      assert p[0] == s[0];
      assert AllDigits(p);
      LeadingDigitPositive(p);
    }
  }

  /** Every canonical numeral is the rendering of its own value. */
  lemma {:induction false} NatToStringOfCanonical(s: string)
    requires IsCanonical(s)
    ensures NatToString(ParseDecimal(s)) == s
  {
    var n := ParseDecimal(s);
    var d := DigitValue(s[|s| - 1]);
    if |s| == 1 {
      assert s[..0] == [];
      assert ParseDecimal(s[..0]) == 0;
      assert n == d;
      assert NatToString(n) == [DigitChar(d)];
    } else {
      var p := s[..|s| - 1];
      assert AllDigits(p);
      assert p[0] == s[0] && |p| >= 1;
      LeadingDigitPositive(p);
      NatToStringOfCanonical(p);
      assert n == ParseDecimal(p) * 10 + d;
      assert n / 10 == ParseDecimal(p) && n % 10 == d;
      assert s == p + [s[|s| - 1]];
    }
  }

  /** `s` is the rendering of `n` exactly when `s` is canonical and reads
      back as `n`: so "01", "+1" or " 1" are never the rendering of 1. */
  lemma NatToStringCharacterization(n: nat, s: string)
    ensures s == NatToString(n) <==> IsCanonical(s) && ParseDecimal(s) == n
  {
    if s == NatToString(n) {
      ParseNatToString(n);
    }
    if IsCanonical(s) && ParseDecimal(s) == n {
      NatToStringOfCanonical(s);
    }
  }

  /** Different numbers render differently. */
  lemma NatToStringInjective(a: nat, b: nat)
    ensures NatToString(a) == NatToString(b) ==> a == b
  {
    ParseNatToString(a);
    ParseNatToString(b);
  }

  /** Ruby's `Array#join(sep)`. */
  function Join(words: seq<string>, sep: string): (s: string)
    ensures |words| == 0 ==> s == ""
    ensures |words| == 1 ==> s == words[0]
  {
    if |words| == 0 then ""
    else if |words| == 1 then words[0]
    else words[0] + sep + Join(words[1..], sep)
  }
}
