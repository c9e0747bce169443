// Decimal numerals in strings.
module Decimals {
  import opened CStrings

  // The number that the digits between i and j spell.
  function ValueAt(m: string, i: nat, j: nat): nat
    requires i <= j <= |m| && forall k :: i <= k < j ==> IsDigit(m[k])
  {
    if i == j then 0 else
    assert IsDigit(m[j - 1]);
    ValueAt(m, i, j - 1) * 10 + (m[j - 1] as int - '0' as int)
  }

  // The numeral of n.
  function Decimal(n: nat): string
  {
    var last := [(n % 10) as char + '0'];
    if n < 10 then last else Decimal(n / 10) + last
  }

  lemma PrefixParts(m: string, i: nat, a: string, b: string)
    requires HasPrefix(m, i, a + b)
    ensures HasPrefix(m, i, a) && HasPrefix(m, i + |a|, b)
  {
    PrefixIs(m, i, a + b);
    PrefixIs(m, i, a);
    PrefixIs(m, i + |a|, b);
    assert m[i..i + |a + b|][..|a|] == a && m[i..i + |a + b|][|a|..] == b;
  }

  lemma StartsWith(m: string, i: nat, s: string)
    requires s != "" && HasPrefix(m, i, s)
    ensures At(m, i) == s[0]
  {
  }

  lemma {:induction false} DecimalDigits(n: nat)
    ensures Decimal(n) != "" && forall k :: 0 <= k < |Decimal(n)| ==> IsDigit(Decimal(n)[k])
  {
    if n >= 10 {
      DecimalDigits(n / 10);
    }
  }

  // The digits of n at i, up to j.
  lemma {:induction false} DecimalAt(m: string, i: nat, n: nat, j: nat)
    requires HasPrefix(m, i, Decimal(n)) && j == i + |Decimal(n)|
    ensures forall k :: i <= k < j ==> IsDigit(m[k])
    ensures i < j && ValueAt(m, i, j) == n
  {
    DecimalDigits(n);
    PrefixIs(m, i, Decimal(n));
    forall k | i <= k < j
      ensures IsDigit(m[k])
    {
      assert m[k] == m[i..j][k - i];
    }
    var last := [(n % 10) as char + '0'];
    assert m[j - 1] == m[i..j][j - 1 - i] == last[0];
    if n >= 10 {
      PrefixParts(m, i, Decimal(n / 10), last);
      DecimalAt(m, i, n / 10, j - 1);
    }
  }
}
