/** Decimal rendering of natural numbers, as Python's `str(n)` / f-string `{n}`
    produces it. Model keys, target column names and horizon labels all embed
    a horizon number this way, so their distinctness rests on `NatToString`
    being injective, which follows from the round trip with `ParseNat`. */
module Decimal {

  predicate IsDigit(c: char) {
    '0' <= c <= '9'
  }

  predicate AllDigits(s: string) {
    forall k :: 0 <= k < |s| ==> IsDigit(s[k])
  }

  function DigitChar(d: nat): (c: char)
    requires d < 10
    ensures IsDigit(c)
  {
    ('0' as int + d) as char
  }

  function DigitValue(c: char): (d: nat)
    requires IsDigit(c)
    ensures d < 10
  {
    c as int - '0' as int
  }

  /** `str(n)`: the shortest decimal numeral for `n`, without leading zeros. */
  function NatToString(n: nat): (s: string)
    ensures |s| >= 1 && AllDigits(s)
    ensures s[0] == '0' <==> n == 0
    ensures n < 10 <==> |s| == 1
    decreases n
  {
    if n < 10 then [DigitChar(n)] else NatToString(n / 10) + [DigitChar(n % 10)]
  }

  /** The value of a decimal numeral (Python's `int(s)` on digit strings). */
  function ParseNat(s: string): nat
    requires AllDigits(s)
  {
    if s == [] then 0 else ParseNat(s[..|s| - 1]) * 10 + DigitValue(s[|s| - 1])
  }

  /** Parsing the rendered numeral gives the number back. */
  lemma {:induction false} ParseNatToString(n: nat)
    ensures ParseNat(NatToString(n)) == n
  {
    var s := NatToString(n);
    if n >= 10 {
      ParseNatToString(n / 10);
      assert s[..|s| - 1] == NatToString(n / 10);
    }
  }

  lemma NatToStringInjective(a: nat, b: nat)
    ensures NatToString(a) == NatToString(b) ==> a == b
  {
    ParseNatToString(a);
    ParseNatToString(b);
  }

  /** Two names built as `prefix + str(n) + suffix` with the same prefix and
      suffix are equal only for equal numbers. */
  lemma {:induction false} NumberedNameInjective(prefix: string, a: nat, b: nat, suffix: string)
    ensures prefix + NatToString(a) + suffix == prefix + NatToString(b) + suffix ==> a == b
  {
    var sa, sb := NatToString(a), NatToString(b);
    var x, y := prefix + sa + suffix, prefix + sb + suffix;
    if x == y {
      assert |sa| == |sb|;
      assert sa == x[|prefix|..|prefix| + |sa|];
      assert sb == y[|prefix|..|prefix| + |sb|];
      NatToStringInjective(a, b);
    }
  }
}
