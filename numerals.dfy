/**
 * Number.prototype.toString(radix) on non-negative integers, as used for the
 * generated category colour (radix 16) and for the `{#limit}` of the
 * validation messages (radix 10), together with its inverse.
 */
module Numerals {

  /** Whether `c` is one of the lower-case digits toString writes for `radix`. */
  predicate IsDigit(c: char, radix: nat) {
    ('0' <= c <= '9' || 'a' <= c <= 'f') && DigitValue(c) < radix
  }

  function DigitValue(c: char): nat {
    if '0' <= c <= '9' then c as int - '0' as int
    else if 'a' <= c <= 'f' then c as int - 'a' as int + 10
    else 0
  }

  function DigitChar(d: nat): (c: char)
    requires d < 16
    ensures IsDigit(c, d + 1) && DigitValue(c) == d
  {
    if d < 10 then ('0' as int + d) as char else ('a' as int + d - 10) as char
  }

  /** Euclidean division by a radix: the facts ToString and its lemmas rely on. */
  lemma DivMod(n: nat, radix: nat)
    requires 2 <= radix
    ensures n == (n / radix) * radix + n % radix && 0 <= n % radix < radix
    ensures n >= radix ==> 1 <= n / radix < n
  {
  }

  /** The digits of `n` in `radix`, most significant first, without leading zeros. */
  function ToString(n: nat, radix: nat): (s: string)
    requires 2 <= radix <= 16
    ensures |s| >= 1
    ensures forall i :: 0 <= i < |s| ==> IsDigit(s[i], radix)
    ensures s[0] == '0' <==> n == 0
    decreases n
  {
    if n < radix then [DigitChar(n)]
    else
      DivMod(n, radix);
      ToString(n / radix, radix) + [DigitChar(n % radix)]
  }

  /** The number a string of digits denotes in `radix`. */
  function Parse(s: string, radix: nat): nat
    decreases |s|
  {
    if s == [] then 0 else Parse(s[..|s| - 1], radix) * radix + DigitValue(s[|s| - 1])
  }

  function Pow(b: nat, k: nat): nat {
    if k == 0 then 1 else b * Pow(b, k - 1)
  }

  /** Reading back what toString wrote gives the number again. */
  lemma {:induction false} ParseToString(n: nat, radix: nat)
    requires 2 <= radix <= 16
    ensures Parse(ToString(n, radix), radix) == n
    decreases n
  {
    var s := ToString(n, radix);
    if n >= radix {
      DivMod(n, radix);
      ParseToString(n / radix, radix);
      assert s[..|s| - 1] == ToString(n / radix, radix);
    }
  }

  lemma DivBound(n: nat, b: nat, m: nat)
    requires 2 <= b && n < b * m
    ensures n / b < m
  {
    DivMod(n, b);
  }

  /** A number below radix^k takes at most k digits. */
  lemma {:induction false} ToStringLength(n: nat, radix: nat, k: nat)
    requires 2 <= radix <= 16 && 1 <= k && n < Pow(radix, k)
    ensures |ToString(n, radix)| <= k
    decreases k
  {
    if n >= radix {
      DivMod(n, radix);
      var q := n / radix;
      DivBound(n, radix, Pow(radix, k - 1));
      ToStringLength(q, radix, k - 1);
    }
  }

  /** The two limits the validation messages write out. */
  lemma Three()
    ensures ToString(3, 10) == "3"
  {
  }

  lemma SixtyFour()
    ensures ToString(64, 10) == "64"
  {
    assert ToString(6, 10) == "6";
  }
}
