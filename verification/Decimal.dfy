/** Decimal text of integers, as strconv.FormatInt and the %d verb print it. */
module Decimal {
  const MIN_INT64 := -0x8000_0000_0000_0000

  predicate IsInt64(n: int) { MIN_INT64 <= n < -MIN_INT64 }

  predicate IsDigit(c: char) { '0' <= c <= '9' }

  function DigitChar(d: nat): (c: char)
    requires d < 10
    ensures IsDigit(c) && DigitOf(c) == d
  {
    ('0' as int + d) as char
  }

  function DigitOf(c: char): (d: nat)
    requires IsDigit(c)
    ensures d < 10
  {
    c as int - '0' as int
  }

  function NatText(n: nat): (s: string)
    ensures |s| > 0 && forall i | 0 <= i < |s| :: IsDigit(s[i])
  {
    if n < 10 then [DigitChar(n)] else NatText(n / 10) + [DigitChar(n % 10)]
  }

  function IntText(n: int): (s: string)
    ensures |s| > 0 && forall i | 0 <= i < |s| :: IsDigit(s[i]) || s[i] == '-'
  {
    if n < 0 then "-" + NatText(-n) else NatText(n)
  }

  function ValueOf(s: string): nat
    requires forall i | 0 <= i < |s| :: IsDigit(s[i])
  {
    if s == "" then 0 else ValueOf(s[..|s| - 1]) * 10 + DigitOf(s[|s| - 1])
  }

  lemma {:induction false} ValueOfText(n: nat)
    ensures ValueOf(NatText(n)) == n
  {
    var s := NatText(n);
    if n < 10 {
      assert s[..0] == "";
    } else {
      assert s[..|s| - 1] == NatText(n / 10);
      ValueOfText(n / 10);
    }
  }

  lemma IntTextInjective(a: int, b: int)
    requires IntText(a) == IntText(b)
    ensures a == b
  {
    if a < 0 {
      assert IntText(b)[0] == '-';
      assert IntText(a)[1..] == NatText(-a) && IntText(b)[1..] == NatText(-b);
      ValueOfText(-a);
      ValueOfText(-b);
    } else {
      assert IntText(a)[0] != '-';
      ValueOfText(a);
      ValueOfText(b);
    }
  }

  /** Text before the first colon, and after it, can be told apart. */
  lemma FirstColon(a: string, b: string, x: string, y: string)
    requires ':' !in a && ':' !in b && a + ":" + x == b + ":" + y
    ensures a == b && x == y
  {
    var l, r := a + ":" + x, b + ":" + y;
    assert forall i | 0 <= i < |a| :: l[i] == a[i] != ':';
    assert forall i | 0 <= i < |b| :: r[i] == b[i] != ':';
    assert l[|a|] == ':' && r[|b|] == ':';
    assert a == l[..|a|] && b == r[..|b|] && x == l[|a| + 1..] && y == r[|b| + 1..];
  }
}
