/**
  The names of basic blocks. A graph keeps its blocks in a map by name, and a name is a prefix followed by a
  counter; blocks can be told apart by their number as long as no name is given twice.
 */
module BlockIds {
  import opened Decimals

  function BlockId(functionName: string, prefix: string, n: nat): string {
    functionName + "_" + prefix + Decimal(n)
  }

  /** q is p and then the numeral of a positive number. */
  ghost predicate ExtendsByNumeral(p: string, q: string) {
    exists k: nat :: k > 0 && q == p + Decimal(k)
  }

  /** Two prefixes can give one name to blocks with different numbers. */
  ghost predicate Collide(functionName: string, p: string, q: string) {
    exists m: nat, n: nat :: m != n && BlockId(functionName, p, m) == BlockId(functionName, q, n)
  }

  lemma NoLeadingZero(n: nat)
    requires n > 0
    ensures Decimal(n)[0] != '0'
  {
    if n >= 10 { NoLeadingZero(n / 10); }
  }

  /** The beginning of a numeral is a numeral, if something is left. */
  lemma {:induction false} NumeralBegins(n: nat, w: string, rest: string) returns (k: nat)
    requires n > 0 && Decimal(n) == w + rest && w != ""
    ensures k > 0 && w == Decimal(k)
    decreases n
  {
    if rest == "" {
      assert w + rest == w;
      k := n;
    } else {
      var s := Decimal(n);
      assert n < 10 ==> |s| == 1;
      assert Decimal(n / 10) == s[..|s| - 1];
      assert s[..|s| - 1] == w + rest[..|rest| - 1];
      k := NumeralBegins(n / 10, w, rest[..|rest| - 1]);
    }
  }

  lemma ShorterExtends(p: string, m: nat, q: string, n: nat)
    requires p + Decimal(m) == q + Decimal(n) && |p| < |q|
    ensures ExtendsByNumeral(p, q)
  {
    var s, t := p + Decimal(m), q + Decimal(n);
    var w := q[|p|..];
    assert p == s[..|p|] == t[..|p|] == q[..|p|];
    assert q == p + w;
    assert Decimal(m) == s[|p|..] == t[|p|..] == w + Decimal(n);
    assert |w + Decimal(n)| >= 2 && |Decimal(0)| == 1;
    var k := NumeralBegins(m, w, Decimal(n));
  }

  /**
    Prefixes collide if and only if one extends the other by the numeral of a positive number: x and x1 do,
    x and x0 do not, although both end in digits.
   */
  lemma CollideExactly(functionName: string, p: string, q: string)
    ensures Collide(functionName, p, q) <==> ExtendsByNumeral(p, q) || ExtendsByNumeral(q, p)
  {
    var f := functionName + "_";
    if Collide(functionName, p, q) {
      var m: nat, n: nat :| m != n && BlockId(functionName, p, m) == BlockId(functionName, q, n);
      assert p + Decimal(m) == (f + p + Decimal(m))[|f|..] == (f + q + Decimal(n))[|f|..] == q + Decimal(n);
      if |p| < |q| {
        ShorterExtends(p, m, q, n);
      } else if |q| < |p| {
        ShorterExtends(q, n, p, m);
      } else {
        assert Decimal(m) == (p + Decimal(m))[|p|..] == (q + Decimal(n))[|q|..] == Decimal(n);
        DecimalInjective(m, n);
      }
    }
    if ExtendsByNumeral(p, q) {
      var k: nat :| k > 0 && q == p + Decimal(k);
      ExtensionCollides(functionName, p, q, k);
    }
    if ExtendsByNumeral(q, p) {
      var k: nat :| k > 0 && p == q + Decimal(k);
      ExtensionCollides(functionName, q, p, k);
    }
  }

  /** Block 10k of the shorter prefix and block 0 of the longer one. */
  lemma ExtensionCollides(functionName: string, p: string, q: string, k: nat)
    requires k > 0 && q == p + Decimal(k)
    ensures BlockId(functionName, p, 10 * k) == BlockId(functionName, q, 0)
  {
    var f := functionName + "_";
    assert Decimal(10 * k) == Decimal(k) + "0";
    assert f + p + (Decimal(k) + "0") == f + (p + Decimal(k)) + "0";
  }

  /** Neither prefix extends the other by a numeral. */
  ghost predicate Apart(p: string, q: string) {
    !ExtendsByNumeral(p, q) && !ExtendsByNumeral(q, p)
  }

  /** Among such prefixes a name tells prefix and number. */
  lemma BlockIdUnique(functionName: string, p: string, m: nat, q: string, n: nat)
    requires Apart(p, q) && BlockId(functionName, p, m) == BlockId(functionName, q, n)
    ensures p == q && m == n
  {
    var f := functionName + "_";
    CollideExactly(functionName, p, q);
    assert m == n;
    var (s, t) := (f + p + Decimal(m), f + q + Decimal(n));
    assert |p| == |q| && p == s[|f|..|f| + |p|] == t[|f|..|f| + |q|] == q;
  }

  /** The blocks of labels x1 and x, created as number 2 and number 12, have one name; the second replaces the first. */
  lemma LabelIdsCollide(functionName: string)
    ensures BlockId(functionName, "Label_x1", 2) == BlockId(functionName, "Label_x", 12)
    ensures !Collide(functionName, "Label_x0", "Label_x")
  {
    assert Natural(12) == Natural(1) + ['2'] == "12";
    assert "Label_x1" + Natural(2) == "Label_x" + Natural(12);
    assert BlockId(functionName, "Label_x1", 2) == (functionName + "_") + ("Label_x1" + Natural(2));
    assert BlockId(functionName, "Label_x", 12) == (functionName + "_") + ("Label_x" + Natural(12));
    CollideExactly(functionName, "Label_x0", "Label_x");
    forall k: nat | k > 0 ensures "Label_x0" != "Label_x" + Decimal(k) {
      NoLeadingZero(k);
      assert ("Label_x" + Decimal(k))[7] == Decimal(k)[0];
    }
  }

  class ControlFlowGraph {
    const functionName: string
    var blocks: map<string, nat>
    var blockIdCounter: nat
    ghost var prefixes: seq<string>

    constructor (functionName: string)
      ensures this.functionName == functionName && blocks == map[] && blockIdCounter == 0 && prefixes == [] && Valid()
    {
      this.functionName := functionName;
      blocks := map[];
      blockIdCounter := 0;
      prefixes := [];
    }

    /** Every block is stored under a name made from its number and the prefix it was created with. */
    ghost predicate Valid()
      reads this
    {
      |prefixes| == blockIdCounter &&
      forall id :: id in blocks ==> blocks[id] < blockIdCounter && id == BlockId(functionName, prefixes[blocks[id]], blocks[id])
    }

    /** Stores a new block; no block is lost by it as long as its prefix is apart from all earlier ones. */
    method CreateBlock(prefix: string) returns (id: string)
      modifies this
      ensures id == BlockId(functionName, prefix, old(blockIdCounter))
      ensures blocks == old(blocks)[id := old(blockIdCounter)] && blockIdCounter == old(blockIdCounter) + 1
      ensures prefixes == old(prefixes) + [prefix] && (old(Valid()) ==> Valid())
      ensures old(Valid()) && (forall p :: p in old(prefixes) ==> Apart(prefix, p)) ==> id !in old(blocks)
    {
      id := BlockId(functionName, prefix, blockIdCounter);
      ghost var apart := Valid() && forall p :: p in prefixes ==> Apart(prefix, p);
      if apart && id in blocks {
        ghost var n := blocks[id];
        assert prefixes[n] in prefixes;
        BlockIdUnique(functionName, prefix, blockIdCounter, prefixes[n], n);
        assert false;
      }
      blocks := blocks[id := blockIdCounter];
      prefixes := prefixes + [prefix];
      blockIdCounter := blockIdCounter + 1;
    }
  }
}
