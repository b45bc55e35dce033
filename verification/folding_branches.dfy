/** An IF with an unknown condition: what its branch teaches the folder is kept, whether or not the branch is taken. */
module BranchFolding {
  import opened Wrappers
  import opened Folding
  import opened ParallelFolding

  /** From every state that agrees with what is known before, what is known afterwards is true. */
  ghost predicate Keeps(env: Env, known: Known, manifests: Known, s: Stmt) {
    forall st, fuel ::
      Agrees(st, known, manifests) && Exec(env, s, st, fuel).Some? ==>
      Agrees(Exec(env, s, st, fuel).value, FoldStmt(known, manifests, s).1, manifests)
  }

  /**
    Every variable taken for some value after a branch was taken for it before; but where the branch is not
    taken the variable z of the condition is 0.
   */
  ghost predicate NothingNew(known: Known, known1: Known, manifests: Known, z: string) {
    forall x :: Taken(known1, manifests, x).Some? ==>
      if x == z then Taken(known1, manifests, z) == Some(0) else Taken(known1, manifests, x) == Taken(known, manifests, x)
  }

  lemma AgreesTaken(st: State, known: Known, manifests: Known)
    ensures Agrees(st, known, manifests) <==> forall x :: Taken(known, manifests, x).Some? ==> Get(st, x) == Taken(known, manifests, x).value
  {
  }

  lemma UnknownTest(env: Env, known: Known, manifests: Known, z: string, thn: Stmt)
    requires Taken(known, manifests, z) == None
    ensures FoldStmt(known, manifests, If(Var(z), thn)).1 == FoldStmt(known, manifests, thn).1
  {
  }

  /** A state that agrees with what is known, in which z is 0 and x has a value of our choice. */
  lemma FreeState(known: Known, manifests: Known, z: string, x: string, v: Int64) returns (st: State)
    requires Taken(known, manifests, z) == None && (x == z || Taken(known, manifests, x) == None)
    ensures Agrees(st, known, manifests) && (x != z ==> Get(st, z) == 0 && Get(st, x) == v) && (x == z ==> Get(st, z) == 0)
  {
    st := manifests + known;
    if x != z { st := st[x := v]; }
  }

  /**
    If the folder is right about the branch, it is right about the whole IF if and only if the branch teaches it
    nothing that was not known before, but that the variable of the condition is 0.
   */
  lemma IfExactly(env: Env, known: Known, manifests: Known, z: string, thn: Stmt)
    requires Taken(known, manifests, z) == None && Keeps(env, known, manifests, thn)
    ensures Keeps(env, known, manifests, If(Var(z), thn)) <==> NothingNew(known, FoldStmt(known, manifests, thn).1, manifests, z)
  {
    hide FoldStmt, Agrees;
    var (s, known1) := (If(Var(z), thn), FoldStmt(known, manifests, thn).1);
    UnknownTest(env, known, manifests, z, thn);
    if NothingNew(known, known1, manifests, z) {
      forall st, fuel | Agrees(st, known, manifests) && Exec(env, s, st, fuel).Some?
        ensures Agrees(Exec(env, s, st, fuel).value, known1, manifests)
      {
        if Get(st, z) == 0 {
          AgreesTaken(st, known, manifests);
          AgreesTaken(st, known1, manifests);
        } else {
          assert Exec(env, s, st, fuel) == Exec(env, thn, st, fuel);
        }
      }
    }
    if Keeps(env, known, manifests, s) {
      forall x | Taken(known1, manifests, x).Some?
        ensures if x == z then Taken(known1, manifests, z) == Some(0) else Taken(known1, manifests, x) == Taken(known, manifests, x)
      {
        NotTaken(env, known, manifests, z, thn, x);
      }
    }
  }

  /** Where the branch is not taken, nothing has changed. */
  lemma NotTaken(env: Env, known: Known, manifests: Known, z: string, thn: Stmt, x: string)
    requires Taken(known, manifests, z) == None && Keeps(env, known, manifests, If(Var(z), thn))
    requires Taken(FoldStmt(known, manifests, thn).1, manifests, x).Some?
    ensures
      var known1 := FoldStmt(known, manifests, thn).1;
      if x == z then Taken(known1, manifests, z) == Some(0) else Taken(known1, manifests, x) == Taken(known, manifests, x)
  {
    hide FoldStmt, Agrees;
    var (s, known1) := (If(Var(z), thn), FoldStmt(known, manifests, thn).1);
    UnknownTest(env, known, manifests, z, thn);
    var n := Taken(known1, manifests, x).value;
    var st: State;
    if x == z || Taken(known, manifests, x) == None {
      st := FreeState(known, manifests, z, x, if n == 0 then 1 else 0);
    } else {
      st := FreeState(known, manifests, z, z, 0);
    }
    assert Exec(env, s, st, 0) == Some(st);
    AgreesTaken(st, known, manifests);
    AgreesTaken(st, known1, manifests);
  }

  /** IF z THEN z := 0 teaches the folder what is true anyway; IF z THEN x := 1 what may be false. */
  lemma BranchExamples(env: Env)
    ensures Keeps(env, map[], map[], If(Var("z"), Assign("z", Lit(0)))) && !Keeps(env, map[], map[], If(Var("z"), Assign("x", Lit(1))))
  {
    var (same, other) := (Assign("z", Lit(0)), Assign("x", Lit(1)));
    IfExactly(env, map[], map[], "z", same);
    IfExactly(env, map[], map[], "z", other);
    assert Taken(FoldStmt(map[], map[], other).1, map[], "x") == Some(1);
  }
}
