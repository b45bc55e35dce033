/** Assignments to several targets at once, from which the folder neither learns nor forgets anything. */
module ParallelFolding {
  import opened Wrappers
  import opened Folding

  function Literals(ns: seq<Int64>): (es: seq<Expr>)
    ensures |es| == |ns|
    ensures ns != [] ==> es[0] == Lit(ns[0]) && es[1..] == Literals(ns[1..])
  {
    if ns == [] then [] else [Lit(ns[0])] + Literals(ns[1..])
  }

  /** What the last of the assignments to x leaves in it. */
  function Final(targets: seq<string>, ns: seq<Int64>, x: string): Int64 {
    Get(Update(map[], targets, ns), x)
  }

  /** The value the folder takes x for, if any. */
  function Taken(known: Known, manifests: Known, x: string): Option<Int64> {
    if x in known then Some(known[x]) else if x in manifests then Some(manifests[x]) else None
  }

  /** Every target that is taken for some value is given that value. */
  ghost predicate Unchanging(known: Known, manifests: Known, targets: seq<string>, ns: seq<Int64>) {
    forall x :: x in targets && Taken(known, manifests, x).Some? ==> Final(targets, ns, x) == Taken(known, manifests, x).value
  }

  lemma {:induction false} LiteralValues(env: Env, ns: seq<Int64>, st: State)
    ensures EvalAll(env, Literals(ns), st) == ns
  {
    if ns != [] { LiteralValues(env, ns[1..], st); }
  }

  /** The value of a target depends on the assignments alone. */
  lemma {:induction false} FinalIs(st: State, other: State, targets: seq<string>, ns: seq<Int64>, x: string)
    requires |targets| == |ns| && (x in targets || Get(st, x) == Get(other, x))
    ensures Get(Update(st, targets, ns), x) == Get(Update(other, targets, ns), x)
    decreases |targets|
  {
    if targets != [] {
      FinalIs(st[targets[0] := ns[0]], other[targets[0] := ns[0]], targets[1..], ns[1..], x);
    }
  }

  /** What the folder takes for known stays true in every state if and only if no taken target gets another value. */
  lemma ParallelExactly(env: Env, known: Known, manifests: Known, targets: seq<string>, ns: seq<Int64>)
    requires |targets| == |ns| != 1
    ensures
      var s := Parallel(targets, Literals(ns));
      FoldStmt(known, manifests, s).1 == known
    ensures
      var s := Parallel(targets, Literals(ns));
      (forall st :: Agrees(st, known, manifests) ==> Agrees(After(env, s, st), known, manifests))
      <==> Unchanging(known, manifests, targets, ns)
  {
    hide Update, EvalAll, Literals, FoldAll, Agrees, After, Unchanging;
    var s := Parallel(targets, Literals(ns));
    forall st ensures After(env, s, st) == Update(st, targets, ns) { AfterIs(env, targets, ns, st); }
    if Unchanging(known, manifests, targets, ns) {
      forall st | Agrees(st, known, manifests) ensures Agrees(After(env, s, st), known, manifests) {
        UnchangingKept(st, known, manifests, targets, ns);
      }
    }
    if forall st :: Agrees(st, known, manifests) ==> Agrees(After(env, s, st), known, manifests) {
      AgreeingState(known, manifests);
      assert Agrees(After(env, s, manifests + known), known, manifests);
      KeptUnchanging(manifests + known, known, manifests, targets, ns);
    }
  }

  lemma AgreeingState(known: Known, manifests: Known)
    ensures Agrees(manifests + known, known, manifests)
  {
  }

  lemma AfterIs(env: Env, targets: seq<string>, ns: seq<Int64>, st: State)
    ensures After(env, Parallel(targets, Literals(ns)), st) == Update(st, targets, ns)
  {
    LiteralValues(env, ns, st);
  }

  lemma KeptUnchanging(st: State, known: Known, manifests: Known, targets: seq<string>, ns: seq<Int64>)
    requires |targets| == |ns| && Agrees(Update(st, targets, ns), known, manifests)
    ensures Unchanging(known, manifests, targets, ns)
  {
    forall x | x in targets && Taken(known, manifests, x).Some?
      ensures Final(targets, ns, x) == Taken(known, manifests, x).value
    {
      FinalIs(st, map[], targets, ns, x);
    }
  }

  /** An assignment needs no rounds. */
  function After(env: Env, s: Stmt, st: State): State
    requires s.Parallel?
  {
    Exec(env, s, st, 0).value
  }

  lemma UnchangingKept(st: State, known: Known, manifests: Known, targets: seq<string>, ns: seq<Int64>)
    requires |targets| == |ns| && Agrees(st, known, manifests) && Unchanging(known, manifests, targets, ns)
    ensures Agrees(Update(st, targets, ns), known, manifests)
  {
    forall x | Taken(known, manifests, x).Some? ensures Get(Update(st, targets, ns), x) == Taken(known, manifests, x).value {
      if x in targets {
        FinalIs(st, map[], targets, ns, x);
      } else {
        UpdateFrame(st, targets, ns, x);
      }
    }
  }
}
