/** Decimal numerals, as std::to_string and operator<< write them, and strings that can be read only one way. */
module Decimals {
  predicate IsDigit(c: char) {
    '0' <= c <= '9'
  }

  function Digit(d: nat): (c: char)
    requires d < 10
    ensures IsDigit(c) && (c as int) - ('0' as int) == d
  {
    (('0' as int) + d) as char
  }

  function Natural(n: nat): (s: string)
    ensures s != "" && forall i :: 0 <= i < |s| ==> IsDigit(s[i])
  {
    if n < 10 then [Digit(n)] else Natural(n / 10) + [Digit(n % 10)]
  }

  function Decimal(n: int): (s: string)
    ensures s != "" && forall i :: 0 <= i < |s| ==> IsDigit(s[i]) || s[i] == '-'
  {
    if n < 0 then "-" + Natural(-n) else Natural(n)
  }

  /** The number a numeral stands for. */
  function Value(s: string): nat
    requires forall i :: 0 <= i < |s| ==> IsDigit(s[i])
  {
    if s == "" then 0
    else
      assert IsDigit(s[|s| - 1]);
      10 * Value(s[..|s| - 1]) + ((s[|s| - 1] as int) - ('0' as int))
  }

  lemma {:induction false} ValueOfNatural(n: nat)
    ensures Value(Natural(n)) == n
    decreases n
  {
    if n < 10 {
      assert Natural(n)[..0] == "";
      assert Value(Natural(n)) == 10 * Value("") + n;
    } else {
      var s := Natural(n);
      assert s[..|s| - 1] == Natural(n / 10);
      ValueOfNatural(n / 10);
    }
  }

  lemma DecimalInjective(m: int, n: int)
    requires Decimal(m) == Decimal(n)
    ensures m == n
  {
    ValueOfNatural(if m < 0 then -m else m);
    ValueOfNatural(if n < 0 then -n else n);
    if m < 0 {
      assert Decimal(m)[0] == '-';
      assert Decimal(n)[0] == '-';
      assert Natural(-m) == Decimal(m)[1..] == Decimal(n)[1..] == Natural(-n);
    } else {
      assert IsDigit(Decimal(m)[0]);
      assert n >= 0;
    }
  }

  predicate Numeric(c: char) {
    IsDigit(c) || c == '-'
  }

  /** What stands before the first character that no numeral contains. */
  lemma SamePrefix(a: string, b: string, x: string, y: string)
    requires a + x == b + y && x != "" && y != "" && !Numeric(x[0]) && !Numeric(y[0])
    requires (forall i :: 0 <= i < |a| ==> Numeric(a[i])) && forall i :: 0 <= i < |b| ==> Numeric(b[i])
    ensures a == b && x == y
  {
    FirstOther(a, x);
    FirstOther(b, y);
    assert a == (a + x)[..|a|] == (b + y)[..|b|] == b;
    assert x == (a + x)[|a|..] == (b + y)[|b|..] == y;
  }

  lemma FirstOther(a: string, x: string)
    requires x != "" && !Numeric(x[0]) && forall i :: 0 <= i < |a| ==> Numeric(a[i])
    ensures !Numeric((a + x)[|a|]) && forall i :: 0 <= i < |a| ==> Numeric((a + x)[i])
  {
  }

  /** A numeral and what follows can be told apart when what follows does not start like a numeral. */
  lemma DecimalPrefix(m: int, n: int, x: string, y: string)
    requires Decimal(m) + x == Decimal(n) + y && x != "" && y != "" && !Numeric(x[0]) && !Numeric(y[0])
    ensures m == n && x == y
  {
    SamePrefix(Decimal(m), Decimal(n), x, y);
    DecimalInjective(m, n);
  }

  /** Dropping a common beginning. */
  lemma Cancel(p: string, x: string, y: string)
    requires p + x == p + y
    ensures x == y
  {
    assert x == (p + x)[|p|..] == (p + y)[|p|..] == y;
  }
}
