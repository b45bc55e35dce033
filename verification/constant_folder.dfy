/** The folding visitors: each leaves the node that replaces its own in `current`, and what is known in `known`. */
module ConstantFolding {
  import opened Wrappers
  import opened Folding

  datatype AstNode = NoNode | ExprNode(e: Expr) | StmtNode(s: Stmt)

  class ConstantFolder {
    const manifests: Known
    var known: Known
    var current: AstNode

    constructor (manifests: Known)
      ensures this.manifests == manifests && known == map[] && current == NoNode
    {
      this.manifests := manifests;
      known, current := map[], NoNode;
    }

    // ----- replacing nodes -----

    /** Visits an expression with `current` set to it, and puts back what `current` was. */
    method VisitExpr(e: Expr) returns (r: Expr)
      modifies this`current
      ensures r == Fold(known, manifests, e) && current == old(current)
      decreases e, 1
    {
      var parent := current;
      current := ExprNode(e);
      AcceptExpr(e);
      r := current.e;
      current := parent;
    }

    method VisitStmt(s: Stmt) returns (r: Stmt)
      modifies this
      ensures (r, known) == FoldStmt(old(known), manifests, s) && current == old(current)
      decreases s, 1
    {
      hide FoldStmt;
      var parent := current;
      current := StmtNode(s);
      AcceptStmt(s);
      r := current.s;
      current := parent;
    }

    method VisitExprs(es: seq<Expr>) returns (r: seq<Expr>)
      modifies this`current
      ensures r == FoldAll(known, manifests, es) && current == old(current)
      decreases es, 0
    {
      hide Fold;
      r := [];
      var i := 0;
      assert es[0..] == es;
      while i < |es|
        invariant 0 <= i <= |es| && current == old(current)
        invariant r + FoldAll(known, manifests, es[i..]) == FoldAll(known, manifests, es)
      {
        assert es[i..][0] == es[i] && es[i..][1..] == es[i + 1..];
        var e := VisitExpr(es[i]);
        assert r + FoldAll(known, manifests, es[i..]) == r + [e] + FoldAll(known, manifests, es[i + 1..]);
        r := r + [e];
        i := i + 1;
      }
      assert es[i..] == [] && r + [] == r;
    }

    // ----- expressions -----

    method AcceptExpr(e: Expr)
      requires current == ExprNode(e)
      modifies this`current
      ensures current == ExprNode(Fold(known, manifests, e))
      decreases e, 0
    {
      hide FoldBin, FoldUn;
      match e
      case Lit(_) =>
      case Bool(_) =>
      case Var(x) =>
        if x in known {
          current := ExprNode(Lit(known[x]));
        } else if x in manifests {
          current := ExprNode(Lit(manifests[x]));
        }
      case Bin(op, l, r) =>
        var left := VisitExpr(l);
        var right := VisitExpr(r);
        current := ExprNode(Bin(op, left, right));
        ReplaceBinary(op, left, right);
      case Un(op, a) =>
        var operand := VisitExpr(a);
        current := ExprNode(Un(op, operand));
        ReplaceUnary(op, operand);
      case Cond(c, t, f) =>
        var condition := VisitExpr(c);
        var holds := AsBool(condition);
        if holds.Some? {
          var taken := VisitExpr(if holds.value then t else f);
          current := ExprNode(taken);
        } else {
          var yes := VisitExpr(t);
          var no := VisitExpr(f);
          current := ExprNode(Cond(condition, yes, no));
        }
    }

    /** Constants first, then the identities one after the other. */
    method ReplaceBinary(op: BinOp, left: Expr, right: Expr)
      requires current == ExprNode(Bin(op, left, right))
      modifies this`current
      ensures current == ExprNode(FoldBin(op, left, right))
    {
      hide Compute;
      var a, b := AsInt(left), AsInt(right);
      if a.Some? && b.Some? {
        var result := Compute(op, a.value, b.value);
        if result.Some? {
          current := ExprNode(Lit(result.value));
          return;
        }
      }
      if op == Add {
        if a == Some(0) {
          current := ExprNode(right);
          return;
        }
        if b == Some(0) {
          current := ExprNode(left);
          return;
        }
      }
      if op == Sub && b == Some(0) {
        current := ExprNode(left);
        return;
      }
      if op == Mul {
        if a == Some(1) {
          current := ExprNode(right);
          return;
        }
        if b == Some(1) {
          current := ExprNode(left);
          return;
        }
        if a == Some(0) || b == Some(0) {
          current := ExprNode(Lit(0));
          return;
        }
      }
      if op == Div && b == Some(1) {
        current := ExprNode(left);
      }
    }

    method ReplaceUnary(op: UnOp, operand: Expr)
      requires current == ExprNode(Un(op, operand))
      modifies this`current
      ensures current == ExprNode(FoldUn(op, operand))
    {
      var n := AsInt(operand);
      if n.Some? {
        match op
        case Negate => current := ExprNode(Lit(Wrap(0 - (n.value as int))));
        case Not => current := ExprNode(Lit(Truth(n.value == 0)));
        case OtherUn(_) =>
      }
    }

    // ----- statements -----

    method AcceptStmt(s: Stmt)
      requires current == StmtNode(s)
      modifies this
      ensures current == StmtNode(FoldStmt(old(known), manifests, s).0) && known == FoldStmt(old(known), manifests, s).1
      decreases s, 0
    {
      hide Fold, AsBool, Forget;
      match s
      case Assign(x, e) =>
        var value := VisitExpr(e);
        current := StmtNode(Assign(x, value));
        Learn(x, value);
      case Parallel(targets, values) =>
        var values1 := VisitExprs(values);
        current := StmtNode(Parallel(targets, values1));
        if |targets| == 1 && |values1| == 1 {
          Learn(targets[0], values1[0]);
        }
      case Call(routine, args) =>
        var args1 := VisitExprs(args);
        current := StmtNode(Call(routine, args1));
      case If(c, thn) =>
        var condition := VisitExpr(c);
        var holds := AsBool(condition);
        if holds.Some? {
          if holds.value {
            var taken := VisitStmt(thn);
            current := StmtNode(taken);
          } else {
            current := StmtNode(NOP);
          }
          return;
        }
        var thn1 := VisitStmt(thn);
        current := StmtNode(If(condition, thn1));
      case Test(c, thn, els) =>
        var condition := VisitExpr(c);
        var holds := AsBool(condition);
        if holds.Some? {
          var taken := VisitStmt(if holds.value then thn else els);
          current := StmtNode(taken);
          return;
        }
        var thn1 := VisitStmt(thn);
        var els1 := VisitStmt(els);
        current := StmtNode(Test(condition, thn1, els1));
      case While(c, body) =>
        var condition := VisitExpr(c);
        var holds := AsBool(condition);
        if holds == Some(false) {
          current := StmtNode(NOP);
          return;
        }
        known := map[];
        var body1 := VisitStmt(body);
        current := StmtNode(While(condition, body1));
      case Compound(ss) =>
        var ss1 := VisitSeq(ss);
        current := StmtNode(Compound(ss1));
    }

    /** A variable assigned a number literal is known from here on, any other one no longer. */
    method Learn(x: string, value: Expr)
      modifies this`known
      ensures known == if value.Lit? then old(known)[x := value.n] else Forget(old(known), x)
    {
      if value.Lit? {
        known := known[x := value.n];
      } else {
        known := known - {x};
        assert known == Forget(old(known), x);
      }
    }

    method VisitSeq(ss: seq<Stmt>) returns (r: seq<Stmt>)
      modifies this
      ensures (r, known) == FoldSeq(old(known), manifests, ss) && current == old(current)
      decreases ss, 0
    {
      hide FoldStmt;
      r := [];
      var i := 0;
      assert ss[0..] == ss && r + FoldSeq(known, manifests, ss).0 == FoldSeq(known, manifests, ss).0;
      while i < |ss|
        invariant 0 <= i <= |ss| && current == old(current)
        invariant
          var rest := FoldSeq(known, manifests, ss[i..]);
          (r + rest.0, rest.1) == FoldSeq(old(known), manifests, ss)
      {
        assert ss[i..][0] == ss[i] && ss[i..][1..] == ss[i + 1..];
        ghost var before := FoldSeq(known, manifests, ss[i..]);
        var s := VisitStmt(ss[i]);
        assert r + before.0 == r + [s] + FoldSeq(known, manifests, ss[i + 1..]).0;
        r := r + [s];
        i := i + 1;
      }
      assert ss[i..] == [] && r + [] == r;
    }
  }
}
