/** Numbers written into a caller's buffer without any library call, digit by digit and then turned round. */
module NumberText {
  import opened Decimals
  import opened MachineWords

  const MIN_INT64 := -0x8000_0000_0000_0000

  /** Negation that wraps around: the least number is its own. */
  function Negated(n: int): (r: int)
    requires IsInt64(n)
    ensures IsInt64(r)
  {
    if n == MIN_INT64 then n else -n
  }

  /** The characters before the first zero. */
  function Text(s: seq<char>): string {
    if s == [] || s[0] == '\0' then "" else [s[0]] + Text(s[1..])
  }

  lemma {:induction false} TextIs(s: seq<char>, n: nat)
    requires n < |s| && s[n] == '\0' && forall i :: 0 <= i < n ==> s[i] != '\0'
    ensures Text(s) == s[..n]
    decreases n
  {
    if n > 0 {
      TextIs(s[1..], n - 1);
      assert s[..n] == [s[0]] + s[1..][..n - 1];
    }
  }

  function Power10(k: nat): (p: nat)
    ensures p > 0
  {
    if k == 0 then 1 else 10 * Power10(k - 1)
  }

  lemma {:induction false} DigitCount(n: nat, k: nat)
    requires k > 0 && n < Power10(k)
    ensures |Natural(n)| <= k
    decreases k
  {
    if n >= 10 {
      assert k > 1;
      DigitCount(n / 10, k - 1);
    }
  }

  lemma Nineteen()
    ensures Power10(19) == 10_000_000_000_000_000_000
  {
    assert Power10(5) == 100_000;
    assert Power10(10) == 10_000_000_000;
    assert Power10(15) == 1_000_000_000_000_000;
  }

  /** The digits of a number are those of its tenth and one more. */
  lemma NaturalStep(n: nat)
    ensures
      var s := Natural(n);
      && s[|s| - 1] == Digit(n % 10)
      && (if n >= 10 then Natural(n / 10) == s[..|s| - 1] else |s| == 1)
  {
  }

  /** From `first` on, the last `count` characters of `all`, last one first. */
  ghost predicate Backwards(s: seq<char>, first: nat, count: nat, all: string) {
    && first + count <= |s| && count <= |all|
    && forall i :: first <= i < first + count ==> s[i] == all[|all| - 1 - (i - first)]
  }

  /** Writes the digits of n, last one first, from index `first` on. */
  method WriteDigits(n: nat, buf: array<char>, first: nat) returns (p: nat)
    requires 0 < n < 0x8000_0000_0000_0000 && first + 19 < buf.Length
    modifies buf
    ensures p == first + |Natural(n)| < buf.Length && Backwards(buf[..], first, |Natural(n)|, Natural(n))
    ensures buf[..first] == old(buf[..first])
  {
    hide Natural, Power10;
    Nineteen();
    DigitCount(n, 19);
    p := first;
    var val := n;
    ghost var all := Natural(n);
    while val > 0
      invariant first <= p <= first + |all| && Backwards(buf[..], first, p - first, all)
      invariant if val > 0 then Natural(val) == all[..|all| - (p - first)] else p - first == |all|
      invariant buf[..first] == old(buf[..first])
    {
      NaturalStep(val);
      buf[p] := Digit(val % 10);
      p := p + 1;
      val := val / 10;
    }
  }

  /** Turns round the characters from `first` up to `p`. */
  method TurnRound(buf: array<char>, first: nat, p: nat, ghost all: string)
    requires first < p < buf.Length && p == first + |all| && Backwards(buf[..], first, |all|, all)
    modifies buf
    ensures buf[first..p] == all && buf[..first] == old(buf[..first]) && buf[p..] == old(buf[p..])
  {
    var start, end := first, p - 1;
    assert forall k :: start <= k <= end ==> buf[k] == buf[..][k] == all[|all| - 1 - (k - first)];
    while start < end
      invariant first <= start <= end + 1 <= p && start + end == first + p - 1
      invariant forall k :: first <= k < start || end < k < p ==> buf[k] == all[k - first]
      invariant forall k :: start <= k <= end ==> buf[k] == all[|all| - 1 - (k - first)]
      invariant buf[..first] == old(buf[..first]) && buf[p..] == old(buf[p..])
    {
      buf[start], buf[end] := buf[end], buf[start];
      start, end := start + 1, end - 1;
    }
  }

  /** What is written for n: its decimal numeral, but a lone minus sign for the least number. */
  function Written(n: int): string {
    if n == MIN_INT64 then "-" else Decimal(n)
  }

  method IntToDec(n: int, buf: array<char>)
    requires IsInt64(n) && buf.Length >= 21
    modifies buf
    ensures Text(buf[..]) == Written(n)
  {
    hide Natural, Text;
    var p, val := 0, n;
    if val < 0 {
      buf[0] := '-';
      p := 1;
      val := Negated(val);
    }
    if val == 0 {
      buf[p] := '0';
      buf[p + 1] := '\0';
      NaturalStep(0);
      assert buf[..][..1] == Decimal(0);
      TextIs(buf[..], 1);
      return;
    }
    var start := p;
    if val > 0 {
      p := WriteDigits(val, buf, start);
    }
    buf[p] := '\0';
    if val > 0 {
      assert Backwards(buf[..], start, |Natural(val)|, Natural(val));
      TurnRound(buf, start, p, Natural(val));
      assert buf[p..][0] == '\0';
    }
    assert buf[..p] == buf[..start] + buf[start..p];
    assert buf[..p] == Written(n);
    WrittenText(buf[..], p, n);
  }

  lemma WrittenText(s: seq<char>, p: nat, n: int)
    requires p < |s| && s[p] == '\0' && s[..p] == Written(n)
    ensures Text(s) == Written(n)
  {
    forall i | 0 <= i < p ensures s[i] != '\0' {
      assert s[i] == Written(n)[i];
    }
    TextIs(s, p);
  }

  /** The numeral is the right one for every number but the least. */
  lemma WrittenRight(n: int)
    requires IsInt64(n)
    ensures Written(n) == Decimal(n) <==> n != -0x8000_0000_0000_0000
    ensures Written(-0x8000_0000_0000_0000) == "-"
  {
    assert Natural(-MIN_INT64) != "";
    assert |Decimal(MIN_INT64)| >= 2;
  }

  /** Different numbers are written differently, the least one included. */
  lemma WrittenInjective(m: int, n: int)
    requires IsInt64(m) && IsInt64(n) && Written(m) == Written(n)
    ensures m == n
  {
    if m != MIN_INT64 && n != MIN_INT64 {
      DecimalInjective(m, n);
    } else {
      assert forall k :: IsInt64(k) && k < 0 ==> |Decimal(k)| >= 2;
    }
  }
}
