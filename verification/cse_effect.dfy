/**
  What rewriting does, said without following the pass: every binary operation whose key occurs twice is replaced by
  the temporary of its key, and each temporary is assigned once, right before the statement that needs it first.
 */
module CseEffect {
  import opened CanonicalKeys
  import opened CommonSubexpressions

  // ----- keys -----

  /** Dictionary order: the longer of two strings comes after its beginning, others are ordered where they part. */
  lemma {:induction false} DictionaryOrder(p: string, x: string, y: string)
    ensures !After(p + x, p + x) && !After("", y) && (x != "" ==> After(p + x, p))
    ensures x != "" && y != "" && x[0] != y[0] ==> (After(p + x, p + y) <==> x[0] > y[0])
    decreases |p|
  {
    if p == "" {
      assert p + x == x && p + y == y;
      NotAfterItself(x);
    } else {
      DictionaryOrder(p[1..], x, y);
      assert (p + x)[1..] == p[1..] + x && (p + y)[1..] == p[1..] + y;
    }
  }

  lemma {:induction false} NotAfterItself(x: string)
    ensures !After(x, x)
    decreases |x|
  {
    if x != "" { NotAfterItself(x[1..]); }
  }

  lemma {:induction false} AfterTotal(a: string, b: string)
    ensures a == b || After(a, b) || After(b, a)
    ensures !(After(a, b) && After(b, a))
    decreases |a|
  {
    if a != "" && b != "" && a[0] == b[0] {
      AfterTotal(a[1..], b[1..]);
      assert a == [a[0]] + a[1..] && b == [b[0]] + b[1..];
    }
  }

  /** The operands of +, *, AND, OR, = and ~= may be swapped without changing the key. */
  lemma SwappedKeys(op: BinOp, l: Expr, r: Expr)
    requires op in {Add, Multiply, LogicalAnd, LogicalOr, Equal, NotEqual}
    ensures Key(Bin(op, l, r)) == Key(Bin(op, r, l))
  {
    AfterTotal(Key(l), Key(r));
  }

  // ----- counts -----

  /** The keys of all binary operations in e, each as often as it occurs. */
  function Occurring(e: Expr): multiset<string> {
    if e.Bin? then multiset{Key(e)} + Occurring(e.l) + Occurring(e.r) else multiset{}
  }

  function OccurringIn(es: seq<Expr>): multiset<string> {
    if es == [] then multiset{} else Occurring(es[0]) + OccurringIn(es[1..])
  }

  function Occurrences(ss: seq<Stmt>): multiset<string> {
    if ss == [] then multiset{}
    else
      (match ss[0]
       case Assign(_, values) => OccurringIn(values)
       case Call(_, args) => OccurringIn(args)
       case Other(_, exprs) => OccurringIn(exprs))
      + Occurrences(ss[1..])
  }

  function Looked(counts: Counts, key: string): nat {
    if key in counts then counts[key] else 0
  }

  lemma {:induction false} ExprCounted(counts: Counts, e: Expr, key: string)
    ensures Looked(CountExpr(counts, e), key) == Looked(counts, key) + Occurring(e)[key]
    decreases e
  {
    hide Key;
    if e.Bin? {
      var counts1 := CountOne(counts, Key(e));
      ExprCounted(counts1, e.l, key);
      ExprCounted(CountExpr(counts1, e.l), e.r, key);
    }
  }

  lemma {:induction false} ExprsCounted(counts: Counts, es: seq<Expr>, key: string)
    ensures Looked(CountExprs(counts, es), key) == Looked(counts, key) + OccurringIn(es)[key]
    decreases |es|
  {
    if es != [] {
      ExprCounted(counts, es[0], key);
      ExprsCounted(CountExpr(counts, es[0]), es[1..], key);
    }
  }

  lemma {:induction false} AllCounted(counts: Counts, ss: seq<Stmt>, key: string)
    ensures Looked(CountAll(counts, ss), key) == Looked(counts, key) + Occurrences(ss)[key]
    decreases |ss|
  {
    if ss != [] {
      ExprsCounted(counts, Exprs(ss[0]), key);
      AllCounted(CountExprs(counts, Exprs(ss[0])), ss[1..], key);
    }
  }

  // ----- temporaries -----

  /** The binary operations of which there are two with the same key. */
  predicate Repeated(m: multiset<string>, e: Expr) {
    e.Bin? && m[Key(e)] >= 2
  }

  /** The keys of repeated expressions, in order of first appearance. */
  function Met(m: multiset<string>, order: seq<string>, es: seq<Expr>): seq<string>
    decreases |es|
  {
    if es == [] then order
    else
      var before := Met(m, order, es[..|es| - 1]);
      var e := es[|es| - 1];
      if Repeated(m, e) && Key(e) !in before then before + [Key(e)] else before
  }

  function Index(order: seq<string>, key: string): nat {
    if order == [] || order[0] == key then 0 else 1 + Index(order[1..], key)
  }

  /** In place of a repeated expression stands the temporary of its key. */
  function Replaced(m: multiset<string>, order: seq<string>, e: Expr): Expr {
    if Repeated(m, e) then Var(TempName(Index(order, Key(e)))) else e
  }

  /** Temporary number k is assigned an expression with the k-th key. */
  ghost predicate Prepares(order: seq<string>, k: nat, es: seq<Expr>, s: Stmt) {
    k < |order| && exists i :: 0 <= i < |es| && Key(es[i]) == order[k] && s == Assign([TempName(k)], [es[i]])
  }

  ghost predicate PreparesAll(before: seq<string>, order: seq<string>, es: seq<Expr>, inserted: seq<Stmt>) {
    |before| + |inserted| == |order| && forall i :: 0 <= i < |inserted| ==> Prepares(order, |before| + i, es, inserted[i])
  }

  ghost predicate Numbered(c: Cse, order: seq<string>) {
    && c.metrics && c.next == |order|
    && (forall i, j :: 0 <= i < j < |order| ==> order[i] != order[j])
    && (forall key :: key in c.available <==> key in order)
    && forall k :: 0 <= k < |order| ==> c.available[order[k]] == TempName(k)
  }

  lemma {:induction false} IndexOf(order: seq<string>, k: nat)
    requires k < |order| && forall i, j :: 0 <= i < j < |order| ==> order[i] != order[j]
    ensures Index(order, order[k]) == k
    decreases k
  {
    if k > 0 { IndexOf(order[1..], k - 1); }
  }

  lemma {:induction false} IndexKept(order: seq<string>, more: seq<string>, key: string)
    requires key in order && order <= more
    ensures Index(more, key) == Index(order, key)
    decreases |order|
  {
    if order[0] != key { IndexKept(order[1..], more[1..], key); }
  }

  lemma {:induction false} MetGrows(m: multiset<string>, order: seq<string>, es: seq<Expr>)
    ensures order <= Met(m, order, es) && forall i :: 0 <= i < |es| && Repeated(m, es[i]) ==> Key(es[i]) in Met(m, order, es)
    decreases |es|
  {
    hide Repeated;
    if es != [] {
      var n := |es| - 1;
      MetGrows(m, order, es[..n]);
      assert forall i :: 0 <= i < n ==> es[..n][i] == es[i];
    }
  }

  // ----- the pass -----

  ghost predicate Counted(counts: Counts, m: multiset<string>) {
    forall key :: Looked(counts, key) == m[key]
  }

  lemma CommonRepeated(counts: Counts, m: multiset<string>, e: Expr)
    requires Counted(counts, m)
    ensures Common(counts, e) <==> Repeated(m, e)
  {
    assert Looked(counts, Key(e)) == m[Key(e)];
  }

  lemma ExprReplaced(counts: Counts, m: multiset<string>, c: Cse, order: seq<string>, e: Expr)
    requires Counted(counts, m) && Numbered(c, order)
    ensures
      var (c1, e1, inserted) := RewriteExpr(counts, c, e);
      var order1 := if Repeated(m, e) && Key(e) !in order then order + [Key(e)] else order;
      Numbered(c1, order1) && e1 == Replaced(m, order1, e) && PreparesAll(order, order1, [e], inserted)
  {
    hide Key, TempName, Counted;
    CommonRepeated(counts, m, e);
    if Repeated(m, e) {
      if Key(e) in order {
        var k :| 0 <= k < |order| && order[k] == Key(e);
        IndexOf(order, k);
      } else {
        var order1 := order + [Key(e)];
        assert order1[|order|] == Key(e);
        assert forall k :: 0 <= k < |order| ==> order1[k] == order[k] && order[k] in order;
        IndexOf(order1, |order|);
        assert [e][0] == e;
      }
    }
  }

  lemma {:induction false} ExprsReplaced(counts: Counts, m: multiset<string>, c: Cse, order: seq<string>, es: seq<Expr>)
    requires Counted(counts, m) && Numbered(c, order)
    ensures
      var (c1, es1, inserted) := RewriteExprs(counts, c, es);
      var order1 := Met(m, order, es);
      && Numbered(c1, order1) && PreparesAll(order, order1, es, inserted)
      && forall i :: 0 <= i < |es| ==> es1[i] == Replaced(m, order1, es[i])
    decreases |es|
  {
    hide Key, TempName, Counted, RewriteExpr, Numbered, Repeated;
    if es != [] {
      var n := |es| - 1;
      ExprsReplaced(counts, m, c, order, es[..n]);
      var (c1, es1, inserted) := RewriteExprs(counts, c, es[..n]);
      var order1 := Met(m, order, es[..n]);
      ExprReplaced(counts, m, c1, order1, es[n]);
      var more := RewriteExpr(counts, c1, es[n]).2;
      var order2 := Met(m, order, es);
      MetGrows(m, order, es[..n]);
      forall i | 0 <= i < n ensures Replaced(m, order2, es[i]) == Replaced(m, order1, es[i]) {
        assert es[..n][i] == es[i];
        if Repeated(m, es[i]) { IndexKept(order1, order2, Key(es[i])); }
      }
      PreparesMore(order, order1, order2, es, inserted, more);
    }
  }

  lemma PreparesMore(order: seq<string>, order1: seq<string>, order2: seq<string>, es: seq<Expr>, inserted: seq<Stmt>, more: seq<Stmt>)
    requires es != [] && order1 <= order2
    requires PreparesAll(order, order1, es[..|es| - 1], inserted) && PreparesAll(order1, order2, [es[|es| - 1]], more)
    ensures PreparesAll(order, order2, es, inserted + more)
  {
    hide Key, TempName;
    var n := |es| - 1;
    var all := inserted + more;
    forall i | 0 <= i < |all| ensures Prepares(order2, |order| + i, es, all[i]) {
      if i < |inserted| {
        assert Prepares(order1, |order| + i, es[..n], inserted[i]);
        var j :| 0 <= j < n && Key(es[..n][j]) == order1[|order| + i] && inserted[i] == Assign([TempName(|order| + i)], [es[..n][j]]);
        assert es[j] == es[..n][j];
      } else {
        assert Prepares(order2, |order1| + (i - |inserted|), [es[n]], more[i - |inserted|]);
        assert Key(es[n]) == order2[|order| + i] && all[i] == Assign([TempName(|order| + i)], [es[n]]);
      }
    }
  }

  // ----- all statements -----

  /** A statement with its rewritable expressions replaced. */
  function ReplacedIn(m: multiset<string>, order: seq<string>, s: Stmt): Stmt {
    match s
    case Assign(targets, values) => Assign(targets, seq(|values|, i requires 0 <= i < |values| => Replaced(m, order, values[i])))
    case Call(routine, args) => Call(routine, seq(|args|, i requires 0 <= i < |args| => Replaced(m, order, args[i])))
    case Other(_, _) => s
  }

  /** Statement by statement: the temporaries needed for the first time, and then the statement with all of them in place. */
  ghost predicate Rewrites(m: multiset<string>, order: seq<string>, ss: seq<Stmt>, r: seq<Stmt>)
    decreases |ss|
  {
    if ss == [] then r == []
    else
      var order1 := Met(m, order, Rewritable(ss[0]));
      var n := |order1| - |order|;
      && 0 <= n < |r| && PreparesAll(order, order1, Rewritable(ss[0]), r[..n])
      && r[n] == ReplacedIn(m, order1, ss[0])
      && Rewrites(m, order1, ss[1..], r[n + 1..])
  }

  lemma StmtReplaced(counts: Counts, m: multiset<string>, c: Cse, order: seq<string>, s: Stmt)
    requires Counted(counts, m) && Numbered(c, order)
    ensures
      var (c1, part) := RewriteStmt(counts, c, s);
      var order1 := Met(m, order, Rewritable(s));
      var n := |order1| - |order|;
      && Numbered(c1, order1) && n >= 0 && |part| == n + 1 && PreparesAll(order, order1, Rewritable(s), part[..n])
      && part[n] == ReplacedIn(m, order1, s)
  {
    hide Counted, Numbered, Replaced, Prepares, Met, RewriteExprs;
    var es := Rewritable(s);
    MetGrows(m, order, es);
    ExprsReplaced(counts, m, c, order, es);
    var (c1, es1, inserted) := RewriteExprs(counts, c, es);
    var order1 := Met(m, order, es);
    match s
    case Assign(targets, values) =>
      assert es1 == ReplacedIn(m, order1, s).values;
      assert (inserted + [Assign(targets, es1)])[..|inserted|] == inserted;
    case Call(routine, args) =>
      assert es1 == ReplacedIn(m, order1, s).args;
      assert (inserted + [Call(routine, es1)])[..|inserted|] == inserted;
    case Other(_, _) =>
      assert order1 == order by { NoneMet(m, order); }
      NoneWritten(counts, c);
  }

  lemma NoneMet(m: multiset<string>, order: seq<string>)
    ensures Met(m, order, []) == order
  {
  }

  lemma NoneWritten(counts: Counts, c: Cse)
    ensures RewriteExprs(counts, c, []) == (c, [], [])
  {
  }

  lemma {:induction false} AllReplaced(counts: Counts, m: multiset<string>, c: Cse, order: seq<string>, ss: seq<Stmt>)
    requires Counted(counts, m) && Numbered(c, order)
    ensures Rewrites(m, order, ss, RewriteAll(counts, c, ss))
    decreases |ss|
  {
    hide Counted, Numbered, RewriteStmt, ReplacedIn, PreparesAll, Met;
    if ss != [] {
      StmtReplaced(counts, m, c, order, ss[0]);
      var (c1, part) := RewriteStmt(counts, c, ss[0]);
      var order1 := Met(m, order, Rewritable(ss[0]));
      AllReplaced(counts, m, c1, order1, ss[1..]);
      var (rest, n) := (RewriteAll(counts, c1, ss[1..]), |order1| - |order|);
      assert (part + rest)[..n] == part[..n] && (part + rest)[n] == part[n] && (part + rest)[n + 1..] == rest;
    }
  }

  /** A function with metrics is rewritten just so. */
  lemma OptimizeRewrites(ss: seq<Stmt>)
    ensures Rewrites(Occurrences(ss), [], ss, Optimize(ss, true))
  {
    hide CountAll, Rewrites, RewriteAll;
    var counts := CountAll(map[], ss);
    forall key ensures Looked(counts, key) == Occurrences(ss)[key] { AllCounted(map[], ss, key); }
    AllReplaced(counts, Occurrences(ss), Start(true), [], ss);
  }

  /** Where no binary operation occurs twice nothing is changed. */
  lemma {:induction false} NothingRepeated(m: multiset<string>, order: seq<string>, ss: seq<Stmt>, r: seq<Stmt>)
    requires Rewrites(m, order, ss, r) && forall key :: m[key] < 2
    ensures r == ss
    decreases |ss|
  {
    if ss != [] {
      NoRepetition(m, order, Rewritable(ss[0]));
      NothingRepeated(m, order, ss[1..], r[1..]);
      assert ReplacedIn(m, order, ss[0]) == ss[0] by { SameStatement(m, order, ss[0]); }
      assert r == [r[0]] + r[1..] && ss == [ss[0]] + ss[1..];
    }
  }

  lemma {:induction false} NoRepetition(m: multiset<string>, order: seq<string>, es: seq<Expr>)
    requires forall key :: m[key] < 2
    ensures Met(m, order, es) == order
    decreases |es|
  {
    if es != [] { NoRepetition(m, order, es[..|es| - 1]); }
  }

  lemma SameStatement(m: multiset<string>, order: seq<string>, s: Stmt)
    requires forall key :: m[key] < 2
    ensures ReplacedIn(m, order, s) == s
  {
    match s
    case Assign(_, values) => assert ReplacedIn(m, order, s).values == values;
    case Call(_, args) => assert ReplacedIn(m, order, s).args == args;
    case Other(_, _) =>
  }
}
