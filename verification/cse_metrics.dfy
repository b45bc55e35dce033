/**
  The pass on a function that the analyser has no metrics for. The driver analyses every function before the
  pass runs, so this branch is for a caller that does not.
 */
module MissingMetrics {
  import opened CanonicalKeys
  import opened CommonSubexpressions

  function AllRewritable(ss: seq<Stmt>): seq<Expr> {
    if ss == [] then [] else Rewritable(ss[0]) + AllRewritable(ss[1..])
  }

  /** None of the expressions is common under a key met before or met twice. */
  ghost predicate KeysFresh(counts: Counts, met: set<string>, es: seq<Expr>) {
    && (forall i :: 0 <= i < |es| && Common(counts, es[i]) ==> Key(es[i]) !in met)
    && (forall i, j :: 0 <= i < j < |es| && Common(counts, es[i]) && Common(counts, es[j]) ==> Key(es[i]) != Key(es[j]))
  }

  ghost function MetAfter(counts: Counts, met: set<string>, es: seq<Expr>): set<string> {
    met + set i | 0 <= i < |es| && Common(counts, es[i]) :: Key(es[i])
  }

  lemma KeysFreshConcat(counts: Counts, met: set<string>, a: seq<Expr>, b: seq<Expr>)
    ensures KeysFresh(counts, met, a + b) <==> KeysFresh(counts, met, a) && KeysFresh(counts, MetAfter(counts, met, a), b)
    ensures MetAfter(counts, met, a + b) == MetAfter(counts, MetAfter(counts, met, a), b)
  {
    hide Common, Key;
    var es := a + b;
    assert forall i :: 0 <= i < |a| ==> es[i] == a[i];
    assert forall i :: 0 <= i < |b| ==> es[|a| + i] == b[i];
    if KeysFresh(counts, met, a) && KeysFresh(counts, MetAfter(counts, met, a), b) {
      forall i, j | 0 <= i < j < |es| && Common(counts, es[i]) && Common(counts, es[j]) ensures Key(es[i]) != Key(es[j]) {
        if i < |a| <= j { assert Key(a[i]) in MetAfter(counts, met, a) && es[j] == b[j - |a|]; }
      }
    }
    if KeysFresh(counts, met, es) {
      forall j | 0 <= j < |b| && Common(counts, b[j]) ensures Key(b[j]) !in MetAfter(counts, met, a) {
        assert es[|a| + j] == b[j];
      }
    }
    forall key ensures key in MetAfter(counts, met, es) <==> key in MetAfter(counts, MetAfter(counts, met, a), b) {
      if key in MetAfter(counts, MetAfter(counts, met, a), b) && key !in MetAfter(counts, met, a) {
        var i :| 0 <= i < |b| && Common(counts, b[i]) && Key(b[i]) == key;
        assert es[|a| + i] == b[i];
      }
    }
  }

  lemma NoKeys(counts: Counts, met: set<string>)
    ensures KeysFresh(counts, met, []) && MetAfter(counts, met, []) == met
  {
  }

  lemma OneWithoutMetrics(counts: Counts, c: Cse, e: Expr)
    requires !c.metrics
    ensures
      var (c1, e1, inserted) := RewriteExpr(counts, c, e);
      && !c1.metrics && c1.available.Keys == MetAfter(counts, c.available.Keys, [e])
      && inserted == [] && (e1 == e <==> KeysFresh(counts, c.available.Keys, [e]))
  {
    hide Key, TempName;
    assert Common(counts, e) ==> [e][0] == e && Key([e][0]) in MetAfter(counts, c.available.Keys, [e]);
  }

  /** Without metrics nothing is inserted, and an expression is replaced exactly when its key was met before. */
  lemma {:induction false} ExprsWithoutMetrics(counts: Counts, c: Cse, es: seq<Expr>)
    requires !c.metrics
    ensures
      var (c1, es1, inserted) := RewriteExprs(counts, c, es);
      && !c1.metrics && c1.available.Keys == MetAfter(counts, c.available.Keys, es)
      && inserted == [] && (es1 == es <==> KeysFresh(counts, c.available.Keys, es))
    decreases |es|
  {
    hide Key, KeysFresh, MetAfter, RewriteExpr;
    NoKeys(counts, c.available.Keys);
    if es == [] {
    } else {
      var n := |es| - 1;
      ExprsWithoutMetrics(counts, c, es[..n]);
      var (c1, es1, _) := RewriteExprs(counts, c, es[..n]);
      var e := RewriteExpr(counts, c1, es[n]).1;
      OneWithoutMetrics(counts, c1, es[n]);
      KeysFreshConcat(counts, c.available.Keys, es[..n], [es[n]]);
      assert es == es[..n] + [es[n]];
      assert es1 + [e] == es <==> es1 == es[..n] && e == es[n] by {
        assert (es1 + [e])[..n] == es1 && (es1 + [e])[n] == e;
      }
    }
  }

  lemma {:induction false} AllWithoutMetrics(counts: Counts, c: Cse, ss: seq<Stmt>)
    requires !c.metrics
    ensures |RewriteAll(counts, c, ss)| == |ss|
    ensures RewriteAll(counts, c, ss) == ss <==> KeysFresh(counts, c.available.Keys, AllRewritable(ss))
    decreases |ss|
  {
    hide KeysFresh, MetAfter, RewriteExprs;
    NoKeys(counts, c.available.Keys);
    if ss == [] {
    } else {
      var (s, es) := (ss[0], Rewritable(ss[0]));
      ExprsWithoutMetrics(counts, c, es);
      var (c1, part) := RewriteStmt(counts, c, s);
      assert |part| == 1 && c1.available.Keys == MetAfter(counts, c.available.Keys, es);
      assert part[0] == s <==> KeysFresh(counts, c.available.Keys, es);
      AllWithoutMetrics(counts, c1, ss[1..]);
      KeysFreshConcat(counts, c.available.Keys, es, AllRewritable(ss[1..]));
      assert ss == [s] + ss[1..] && part == [part[0]];
      var rest := RewriteAll(counts, c1, ss[1..]);
      assert part + rest == ss <==> part[0] == s && rest == ss[1..] by {
        assert (part + rest)[0] == part[0] && (part + rest)[1..] == rest;
      }
    }
  }

  /**
    For a function whose metrics are missing, the pass reserves temporaries that it never assigns: it leaves
    the body alone if and only if no expression it looks at is common under a key that it has met before.
   */
  lemma WithoutMetrics(ss: seq<Stmt>)
    ensures Optimize(ss, false) == ss <==> KeysFresh(CountAll(map[], ss), {}, AllRewritable(ss))
  {
    AllWithoutMetrics(CountAll(map[], ss), Start(false), ss);
  }
}
