/** Decimal rendering of natural numbers, as Python's string formatting writes an `int`:
    digits only, no sign, no leading zeros. */
module Text {

  predicate IsDigit(c: char)
  {
    '0' <= c <= '9'
  }

  predicate AllDigits(s: string)
  {
    forall k :: 0 <= k < |s| ==> IsDigit(s[k])
  }

  function DigitChar(d: nat): (c: char)
    requires d < 10
    ensures IsDigit(c) && DigitValue(c) == d
  {
    ('0' as int + d) as char
  }

  function DigitValue(c: char): nat
    requires IsDigit(c)
  {
    c as int - '0' as int
  }

  /** The decimal text of `n`: a non-empty run of digits with no leading zero. */
  function Decimal(n: nat): (s: string)
    ensures |s| > 0 && AllDigits(s)
    ensures |s| > 1 ==> s[0] != '0'
    decreases n
  {
    if n < 10 then [DigitChar(n)] else Decimal(n / 10) + [DigitChar(n % 10)]
  }

  /** The number a run of digits denotes (the inverse of Decimal). */
  function ParseDecimal(s: string): nat
    requires AllDigits(s)
  {
    if s == [] then 0 else 10 * ParseDecimal(s[..|s| - 1]) + DigitValue(s[|s| - 1])
  }

  lemma {:induction false} DecimalRoundTrip(n: nat)
    ensures ParseDecimal(Decimal(n)) == n
    decreases n
  {
    if n >= 10 {
      var s := Decimal(n);
      assert s[..|s| - 1] == Decimal(n / 10);
      DecimalRoundTrip(n / 10);
    }
  }

  /** Different numbers have different decimal texts. */
  lemma DecimalInjective(m: nat, n: nat)
    requires Decimal(m) == Decimal(n)
    ensures m == n
  {
    DecimalRoundTrip(m);
    DecimalRoundTrip(n);
  }

  /** Where each part of a text made of five parts lies. */
  lemma FiveParts(p: string, q: string, r: string, s: string, t: string)
    ensures var m := p + (q + (r + (s + t)));
            && |m| == |p| + |q| + |r| + |s| + |t|
            && m[..|p|] == p
            && m[|p|..|p| + |q|] == q
            && m[|p| + |q|..|p| + |q| + |r|] == r
            && m[|p| + |q| + |r|..|p| + |q| + |r| + |s|] == s
            && m[|p| + |q| + |r| + |s|..] == t
  {
    var m := p + (q + (r + (s + t)));
    assert m[|p|..] == q + (r + (s + t));
    assert m[|p| + |q|..] == r + (s + t);
    assert m[|p| + |q| + |r|..] == s + t;
  }

  /** Equal texts that start with the same prefix are equal after it. */
  lemma PrefixCancel(p: string, s: string, t: string)
    requires p + s == p + t
    ensures s == t
  {
    assert s == (p + s)[|p|..];
    assert t == (p + t)[|p|..];
  }

  /** A run of digits followed by text that starts with a non-digit can be split in one way only. */
  lemma DigitRunSplit(d1: string, r1: string, d2: string, r2: string)
    requires AllDigits(d1) && AllDigits(d2)
    requires |r1| > 0 && !IsDigit(r1[0]) && |r2| > 0 && !IsDigit(r2[0])
    requires d1 + r1 == d2 + r2
    ensures d1 == d2 && r1 == r2
  {
    var s := d1 + r1;
    assert forall k :: 0 <= k < |d1| ==> IsDigit(s[k]);
    assert !IsDigit(s[|d1|]);
    assert forall k :: 0 <= k < |d2| ==> IsDigit(s[k]);
    assert !IsDigit(s[|d2|]);
    assert |d1| == |d2|;
    assert d1 == s[..|d1|] == d2;
    assert r1 == s[|d1|..] == r2;
  }
}
