/** The pass itself: it counts, then goes through the statement list by index while inserting into it. */
module LocalOptimization {
  import opened CanonicalKeys
  import opened CommonSubexpressions

  class LocalOptimizer {
    const metrics: bool
    var exprCounts: Counts
    var availableExpressions: map<string, string>
    var tempVarCounter: nat

    ghost function State(): Cse
      reads this
    {
      Cse(availableExpressions, tempVarCounter, metrics)
    }

    constructor (metrics: bool)
      ensures this.metrics == metrics && State() == Start(metrics) && exprCounts == map[]
    {
      this.metrics := metrics;
      exprCounts, availableExpressions, tempVarCounter := map[], map[], 0;
    }

    method GenerateTempVarName() returns (name: string)
      modifies this`tempVarCounter
      ensures name == TempName(old(tempVarCounter)) && tempVarCounter == old(tempVarCounter) + 1
    {
      name := TempName(tempVarCounter);
      tempVarCounter := tempVarCounter + 1;
    }

    // ----- counting -----

    method CountSubexpressions(e: Expr)
      modifies this`exprCounts
      ensures exprCounts == CountExpr(old(exprCounts), e)
      decreases e
    {
      hide Key;
      if e.Bin? {
        var key := Key(e);
        exprCounts := exprCounts[key := (if key in exprCounts then exprCounts[key] else 0) + 1];
        CountSubexpressions(e.l);
        CountSubexpressions(e.r);
      }
    }

    method CountStatement(es: seq<Expr>)
      modifies this`exprCounts
      ensures exprCounts == CountExprs(old(exprCounts), es)
    {
      hide CountExpr;
      var i := 0;
      assert es[0..] == es;
      while i < |es|
        invariant 0 <= i <= |es| && CountExprs(exprCounts, es[i..]) == CountExprs(old(exprCounts), es)
      {
        assert es[i..][0] == es[i] && es[i..][1..] == es[i + 1..];
        CountSubexpressions(es[i]);
        i := i + 1;
      }
    }

    method CountStatements(ss: seq<Stmt>)
      modifies this`exprCounts
      ensures exprCounts == CountAll(old(exprCounts), ss)
    {
      hide CountExprs;
      var i := 0;
      assert ss[0..] == ss;
      while i < |ss|
        invariant 0 <= i <= |ss| && CountAll(exprCounts, ss[i..]) == CountAll(old(exprCounts), ss)
      {
        assert ss[i..][0] == ss[i] && ss[i..][1..] == ss[i + 1..];
        CountStatement(Exprs(ss[i]));
        i := i + 1;
      }
    }

    // ----- rewriting -----

    /** What stands in place of an expression of statement i; an assignment may be inserted before that statement, which moves it. */
    method OptimizeExpression(e: Expr, statements: seq<Stmt>, i: nat) returns (r: Expr, out: seq<Stmt>, at: nat)
      requires i <= |statements|
      modifies this`availableExpressions, this`tempVarCounter
      ensures
        var (c, e1, inserted) := RewriteExpr(exprCounts, old(State()), e);
        State() == c && r == e1 && at == i + |inserted| && out == statements[..i] + inserted + statements[i..]
    {
      hide Key, TempName;
      assert statements[..i] + [] + statements[i..] == statements;
      var key := Key(e);
      if key in exprCounts && exprCounts[key] > 1 && e.Bin? {
        if key in availableExpressions {
          return Var(availableExpressions[key]), statements, i;
        }
        var temp := GenerateTempVarName();
        availableExpressions := availableExpressions[key := temp];
        if !metrics {
          return e, statements, i;
        }
        return Var(temp), statements[..i] + [Assign([temp], [e])] + statements[i..], i + 1;
      }
      return e, statements, i;
    }

    /** The expressions of statement i, from left to right. */
    method OptimizeExpressions(es: seq<Expr>, statements: seq<Stmt>, i: nat) returns (r: seq<Expr>, out: seq<Stmt>, at: nat)
      requires i <= |statements|
      modifies this`availableExpressions, this`tempVarCounter
      ensures
        var (c, es1, inserted) := RewriteExprs(exprCounts, old(State()), es);
        State() == c && r == es1 && at == i + |inserted| && out == statements[..i] + inserted + statements[i..]
    {
      hide RewriteExpr;
      r, out, at := [], statements, i;
      var j := 0;
      assert es[..0] == [] && statements[..i] + [] + statements[i..] == statements;
      while j < |es|
        invariant 0 <= j <= |es| && i <= at <= |out|
        invariant
          var (c, es1, inserted) := RewriteExprs(exprCounts, old(State()), es[..j]);
          State() == c && r == es1 && at == i + |inserted| && out == statements[..i] + inserted + statements[i..]
      {
        assert es[..j + 1][..j] == es[..j] && es[..j + 1][j] == es[j];
        ghost var inserted := RewriteExprs(exprCounts, old(State()), es[..j]).2;
        ghost var more := RewriteExpr(exprCounts, State(), es[j]).2;
        var e;
        InsertAt(statements, i, inserted, more);
        e, out, at := OptimizeExpression(es[j], out, at);
        r := r + [e];
        j := j + 1;
      }
      assert es[..j] == es;
    }

    /** Every original statement is processed once; what is inserted before it is passed over. */
    method OptimizeStatementList(original: seq<Stmt>) returns (statements: seq<Stmt>)
      modifies this`availableExpressions, this`tempVarCounter
      ensures statements == RewriteAll(exprCounts, old(State()), original)
    {
      hide RewriteExprs, RewriteStmt;
      statements := original;
      var i := 0;
      assert original[0..] == original && original[..0] == [];
      assert [] + RewriteAll(exprCounts, State(), original) == RewriteAll(exprCounts, State(), original);
      while i < |statements|
        invariant 0 <= i <= |statements|
        invariant statements[..i] + RewriteAll(exprCounts, State(), statements[i..]) == RewriteAll(exprCounts, old(State()), original)
        decreases |statements| - i
      {
        ghost var before, c := statements, State();
        ghost var (c1, part) := RewriteStmt(exprCounts, c, statements[i]);
        assert statements[i..][0] == statements[i] && statements[i..][1..] == statements[i + 1..];
        ghost var rest := RewriteAll(exprCounts, c1, statements[i + 1..]);
        assert before[..i] + (part + rest) == before[..i] + part + rest;
        statements, i := OptimizeStatement(statements, i);
      }
      assert statements[..i] == statements && statements[i..] == [];
      assert statements + [] == statements;
    }

    /** One statement, and the index behind it. */
    method OptimizeStatement(statements: seq<Stmt>, i: nat) returns (out: seq<Stmt>, at: nat)
      requires i < |statements|
      modifies this`availableExpressions, this`tempVarCounter
      ensures
        var (c, part) := RewriteStmt(exprCounts, old(State()), statements[i]);
        && State() == c && at <= |out| && out[..at] == statements[..i] + part && out[at..] == statements[i + 1..]
    {
      hide RewriteExprs;
      var s := statements[i];
      match s
      case Assign(targets, values) =>
        ghost var inserted := RewriteExprs(exprCounts, State(), values).2;
        var values1;
        values1, out, at := OptimizeExpressions(values, statements, i);
        ReplaceAt(statements, i, inserted, Assign(targets, values1));
        out := out[at := Assign(targets, values1)];
        at := at + 1;
      case Call(routine, args) =>
        ghost var inserted := RewriteExprs(exprCounts, State(), args).2;
        var args1;
        args1, out, at := OptimizeExpressions(args, statements, i);
        ReplaceAt(statements, i, inserted, Call(routine, args1));
        out := out[at := Call(routine, args1)];
        at := at + 1;
      case Other(_, _) =>
        assert statements[..i + 1] == statements[..i] + [s];
        return statements, i + 1;
    }

    /** A function: everything is reset, its body is counted, then rewritten. */
    method OptimizeFunction(body: seq<Stmt>) returns (r: seq<Stmt>)
      modifies this
      ensures r == Optimize(body, metrics)
    {
      hide RewriteAll, CountAll;
      exprCounts, availableExpressions, tempVarCounter := map[], map[], 0;
      CountStatements(body);
      r := OptimizeStatementList(body);
    }
  }

  lemma InsertAt(statements: seq<Stmt>, i: nat, inserted: seq<Stmt>, more: seq<Stmt>)
    requires i <= |statements|
    ensures
      var out := statements[..i] + inserted + statements[i..];
      var at := i + |inserted|;
      out[..at] + more + out[at..] == statements[..i] + (inserted + more) + statements[i..]
  {
    var out := statements[..i] + inserted + statements[i..];
    var at := i + |inserted|;
    assert out[..at] == statements[..i] + inserted && out[at..] == statements[i..];
    assert statements[..i] + inserted + more == statements[..i] + (inserted + more);
  }

  lemma ReplaceAt(statements: seq<Stmt>, i: nat, inserted: seq<Stmt>, s: Stmt)
    requires i < |statements|
    ensures
      var at := i + |inserted|;
      var out := (statements[..i] + inserted + statements[i..])[at := s];
      at < |out| && out[..at + 1] == statements[..i] + (inserted + [s]) && out[at + 1..] == statements[i + 1..]
  {
    var at := i + |inserted|;
    var before := statements[..i] + inserted + statements[i..];
    var out := before[at := s];
    assert before[..at] == statements[..i] + inserted && before[at..] == statements[i..];
    assert out[..at + 1] == before[..at] + [s];
    assert out[at + 1..] == before[at..][1..];
  }
}
