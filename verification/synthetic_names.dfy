/** Synthetic column names `v0, v1, ...` introduced by simulate hoisting:
    the letter `v` followed by the counter in decimal. The names are
    injective in the counter, which is what keeps hoisted columns apart. */
module SyntheticNames {

  predicate IsDigit(c: char) {
    '0' <= c <= '9'
  }

  predicate AllDigits(s: string) {
    forall i :: 0 <= i < |s| ==> IsDigit(s[i])
  }

  function DigitChar(d: nat): (c: char)
    requires d < 10
    ensures IsDigit(c)
  {
    (d + '0' as int) as char
  }

  function DigitValue(c: char): (d: nat)
    requires IsDigit(c)
    ensures d < 10
  {
    c as int - '0' as int
  }

  /** Decimal spelling of `n`, most significant digit first, no leading zeros. */
  function Decimal(n: nat): (s: string)
    ensures 1 <= |s|
    ensures AllDigits(s)
    ensures n < 10 <==> |s| == 1
    ensures 10 <= n ==> s[0] != '0'
    decreases n
  {
    if n < 10 then [DigitChar(n)] else Decimal(n / 10) + [DigitChar(n % 10)]
  }

  /** Reads a string of decimal digits back as a number. */
  function ParseDecimal(s: string): nat
    requires AllDigits(s)
    decreases |s|
  {
    if |s| == 0 then 0 else ParseDecimal(s[..|s| - 1]) * 10 + DigitValue(s[|s| - 1])
  }

  lemma {:induction false} ParseDecimalInverse(n: nat)
    ensures ParseDecimal(Decimal(n)) == n
    decreases n
  {
    var s := Decimal(n);
    if n < 10 {
      assert s[..|s| - 1] == [];
    } else {
      ParseDecimalInverse(n / 10);
      assert s[..|s| - 1] == Decimal(n / 10);
    }
  }

  /** A digit string with no leading zero is at least 1. */
  lemma {:induction false} ParseDecimalPositive(s: string)
    requires AllDigits(s) && 1 <= |s| && s[0] != '0'
    ensures ParseDecimal(s) >= 1
    decreases |s|
  {
    if |s| > 1 {
      var init := s[..|s| - 1];
      assert init[0] == s[0];
      ParseDecimalPositive(init);
    }
  }

  /** Decimal is the only canonical spelling: a non-empty digit string
      without a leading zero (other than "0" itself) is the decimal
      spelling of the number it denotes. */
  lemma {:induction false} DecimalCanonical(s: string)
    requires AllDigits(s) && 1 <= |s|
    requires |s| > 1 ==> s[0] != '0'
    ensures Decimal(ParseDecimal(s)) == s
    decreases |s|
  {
    var c := s[|s| - 1];
    assert DigitChar(DigitValue(c)) == c;
    if |s| == 1 {
      assert s[..0] == [];
      assert s == [c];
    } else {
      var init := s[..|s| - 1];
      assert init[0] == s[0];
      ParseDecimalPositive(init);
      DecimalCanonical(init);
      var n := ParseDecimal(s);
      assert n / 10 == ParseDecimal(init) && n % 10 == DigitValue(c);
      assert s == init + [c];
    }
  }

  /** The name of the k-th hoisted column. */
  function SyntheticName(k: nat): (nm: string)
    ensures |nm| >= 2 && nm[0] == 'v'
  {
    "v" + Decimal(k)
  }

  lemma SyntheticNameInjective(j: nat, k: nat)
    ensures SyntheticName(j) == SyntheticName(k) <==> j == k
  {
    if SyntheticName(j) == SyntheticName(k) {
      assert Decimal(j) == SyntheticName(j)[1..];
      assert Decimal(k) == SyntheticName(k)[1..];
      ParseDecimalInverse(j);
      ParseDecimalInverse(k);
    }
  }

  /** The shape of synthetic names: `v` followed by decimal digits. Every
      synthetic name has it; a user column name without it can never clash
      with one. */
  predicate LooksSynthetic(nm: string) {
    |nm| >= 2 && nm[0] == 'v' && AllDigits(nm[1..])
  }

  lemma SyntheticNameLooksSynthetic(k: nat)
    ensures LooksSynthetic(SyntheticName(k))
  {
  }
}
