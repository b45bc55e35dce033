/**
  The graph of a whole function: its body, the single exit block, and the cleanup block that runs
  the deferred statements on every way out.
 */
module Functions {
  import opened Wrappers
  import opened Syntax
  import opened Graph
  import opened Lowering
  import opened Simulation
  import opened Forward
  import opened Backward

  const START := Builder([EMPTY_BLOCK], Some(0), [], [], [], None, [], [])

  /** Falling off the end of the body leads to the exit block, which may still have to be created. */
  function FinishBody(b: Builder): (r: Builder)
    requires Sound(b)
    ensures |b.blocks| <= |r.blocks| && r == b.(blocks := r.blocks, exit := r.exit)
    ensures b.cur.Some? || b.exit.Some? ==> r.exit.Some?
    ensures r.exit.Some? ==> r.exit.value < |r.blocks| && SameFlow(r.blocks[r.exit.value], EMPTY_BLOCK) && r.exit != b.cur
    ensures b.exit.Some? ==> r.exit == b.exit
    ensures b.cur.Some? ==> SameFlow(r.blocks[b.cur.value], To(b.blocks[b.cur.value].stmts, r.exit.value))
    ensures forall i :: 0 <= i < |b.blocks| && b.cur != Some(i) ==> SameFlow(r.blocks[i], b.blocks[i])
    ensures b.exit.None? && r.exit.Some? ==> r.exit.value >= |b.blocks|
  {
    if b.cur.None? then b
    else
      var (g, exit) := if b.exit.Some? then (b.blocks, b.exit.value) else (b.blocks + [EMPTY_BLOCK], |b.blocks|);
      b.(blocks := AddEdge(g, b.cur.value, exit), exit := Some(exit))
  }

  function BuildBody(p: Policy, s: Stmt): Builder {
    FinishBody(Lower(p, START, s))
  }

  // ----- what a function means -----

  /** Structured execution of a body leaves the function, by its end or by RETURN, in store st1. */
  ghost predicate Leaves(env: Env, s: Stmt, st: Store, st1: Store) {
    exists fuel, o :: (o == Normal || o == Returned) && Exec(env, s, st, fuel) == Some((o, st1))
  }

  /** Structured execution of a body ends in a jump that has nothing to jump to. */
  ghost predicate Strays(env: Env, s: Stmt, o: Outcome, st: Store, st1: Store) {
    exists fuel :: Exec(env, s, st, fuel) == Some((o, st1))
  }

  /** The graph, run from its entry block, gets to block t in store st1. */
  ghost predicate Reaches(env: Env, g: Blocks, st: Store, t: Option<nat>, st1: Store) {
    t.Some? && exists n :: Run(env, g, n, At(0, 0, st)) == Some(At(t.value, 0, st1))
  }

  /** The graph, run from its entry block, comes to a stop behind a jump that leads nowhere. */
  ghost predicate Stuck(env: Env, g: Blocks, item: Item, st: Store, st1: Store) {
    exists n, d :: Run(env, g, n, At(0, 0, st)) == Some(d) && DeadEnd(g, item, d) && d.st == st1
  }

  // ----- the body -----

  lemma BodySealed(p: Policy, s: Stmt)
    ensures var b := Lower(p, START, s); Sealed(START, b, BuildBody(p, s).blocks)
    ensures var b := Lower(p, START, s); Closed(START, b, BuildBody(p, s).blocks, if b.cur.Some? then BuildBody(p, s).exit.value else 0)
  {
    hide Lower;
    var b := Lower(p, START, s);
    var g := BuildBody(p, s).blocks;
    var exit := if b.cur.Some? then BuildBody(p, s).exit.value else 0;
    forall i | 0 <= i < |b.blocks| ensures ClosedAt(b, g, exit, i) {
    }
    ClosedSealed(START, b, g, exit);
  }

  /** Where the finished body stops after an outcome: in the exit block, or behind a stray jump. */
  ghost predicate StopsAs(b: Builder, o: Outcome, st: Store, d: Config) {
    match o
    case Normal => b.exit.Some? && d == At(b.exit.value, 0, st)
    case Returned => b.exit.Some? && d == At(b.exit.value, 0, st)
    case Broke => DeadEnd(b.blocks, IBreak, d) && d.st == st
    case Looped => DeadEnd(b.blocks, ILoop, d) && d.st == st
    case Endcased => DeadEnd(b.blocks, IEndcase, d) && d.st == st
  }

  lemma SimBody(env: Env, p: Policy, s: Stmt, st: Store, fuel: nat) returns (n: nat, d: Config)
    requires Exec(env, s, st, fuel).Some?
    ensures var (o, st1) := Exec(env, s, st, fuel).value;
      Run(env, BuildBody(p, s).blocks, n, At(0, 0, st)) == Some(d) && StopsAs(BuildBody(p, s), o, st1, d)
  {
    hide Lower, Exec, Run, Step, Closed, Sealed;
    BodySealed(p, s);
    var b := Lower(p, START, s);
    var r := BuildBody(p, s);
    n, d := Sim(env, p, START, s, r.blocks, st, fuel);
    var (o, st1) := Exec(env, s, st, fuel).value;
    n, d := FallThrough(env, START, b, r.blocks, if b.cur.Some? then r.exit.value else 0, o, st1, At(0, 0, st), n, d);
  }

  lemma ExitIsFinal(env: Env, p: Policy, s: Stmt, st: Store)
    requires BuildBody(p, s).exit.Some?
    ensures Final(env, BuildBody(p, s).blocks, At(BuildBody(p, s).exit.value, 0, st))
  {
  }

  lemma DeadEndIsFinal(env: Env, g: Blocks, item: Item, d: Config)
    requires DeadEnd(g, item, d)
    ensures Final(env, g, d)
  {
  }

  lemma StopIsFinal(env: Env, p: Policy, s: Stmt, o: Outcome, st: Store, d: Config)
    requires StopsAs(BuildBody(p, s), o, st, d)
    ensures Final(env, BuildBody(p, s).blocks, d)
  {
    hide BuildBody;
    match o {
      case Normal => ExitIsFinal(env, p, s, st);
      case Returned => ExitIsFinal(env, p, s, st);
      case Broke => DeadEndIsFinal(env, BuildBody(p, s).blocks, IBreak, d);
      case Looped => DeadEndIsFinal(env, BuildBody(p, s).blocks, ILoop, d);
      case Endcased => DeadEndIsFinal(env, BuildBody(p, s).blocks, IEndcase, d);
    }
  }

  /** A run that stops anywhere stops where structured execution says. */
  lemma EndsBody(env: Env, p: Policy, s: Stmt, st: Store, n: nat) returns (fuel: nat)
    requires Stops(env, BuildBody(p, s).blocks, n, At(0, 0, st))
    ensures Exec(env, s, st, fuel).Some?
    ensures
      var (o, st1) := Exec(env, s, st, fuel).value;
      StopsAs(BuildBody(p, s), o, st1, Run(env, BuildBody(p, s).blocks, n, At(0, 0, st)).value)
  {
    hide Lower, Exec, BuildBody, Closed, Sealed, DeadEnd;
    BodySealed(p, s);
    var g := BuildBody(p, s).blocks;
    fuel := Ends(env, p, START, s, g, st, n);
    var m, d := SimBody(env, p, s, st, fuel);
    var (o, st1) := Exec(env, s, st, fuel).value;
    StopIsFinal(env, p, s, o, st1, d);
    RunSplit(env, g, m, n, At(0, 0, st));
    assert Run(env, g, n - m, d) == Some(d);
  }

  /** Structured execution of a body leaves the function in st1 exactly when the graph reaches the exit block in st1. */
  lemma BodyPreserved(env: Env, p: Policy, s: Stmt, st: Store, st1: Store)
    ensures Leaves(env, s, st, st1) <==> Reaches(env, BuildBody(p, s).blocks, st, BuildBody(p, s).exit, st1)
  {
    hide Exec, Run, Step, BuildBody;
    var r := BuildBody(p, s);
    if Leaves(env, s, st, st1) {
      var fuel, o :| (o == Normal || o == Returned) && Exec(env, s, st, fuel) == Some((o, st1));
      var n, d := SimBody(env, p, s, st, fuel);
    }
    if Reaches(env, r.blocks, st, r.exit, st1) {
      var n :| Run(env, r.blocks, n, At(0, 0, st)) == Some(At(r.exit.value, 0, st1));
      ExitIsFinal(env, p, s, st1);
      var fuel := EndsBody(env, p, s, st, n);
      ExitIsNoDeadEnd(p, s, st1);
      var (o, st2) := Exec(env, s, st, fuel).value;
      assert Exec(env, s, st, fuel) == Some((o, st2)) && (o == Normal || o == Returned) && st2 == st1;
    }
  }

  lemma ExitIsNoDeadEnd(p: Policy, s: Stmt, st: Store)
    requires BuildBody(p, s).exit.Some?
    ensures forall item :: !DeadEnd(BuildBody(p, s).blocks, item, At(BuildBody(p, s).exit.value, 0, st))
  {
  }

  function JumpItem(o: Outcome): Item
    requires o == Broke || o == Looped || o == Endcased
  {
    match o
    case Broke => IBreak
    case Looped => ILoop
    case Endcased => IEndcase
  }

  /** A BREAK, LOOP or ENDCASE with nothing around it is where structured execution ends exactly when the graph gets stuck behind it. */
  lemma StrayJumpPreserved(env: Env, p: Policy, s: Stmt, o: Outcome, st: Store, st1: Store)
    requires o == Broke || o == Looped || o == Endcased
    ensures Strays(env, s, o, st, st1) <==> Stuck(env, BuildBody(p, s).blocks, JumpItem(o), st, st1)
  {
    hide Exec, Run, Step, BuildBody;
    var g := BuildBody(p, s).blocks;
    if Strays(env, s, o, st, st1) {
      var fuel :| Exec(env, s, st, fuel) == Some((o, st1));
      var n, d := SimBody(env, p, s, st, fuel);
    }
    if Stuck(env, g, JumpItem(o), st, st1) {
      var n, d :| Run(env, g, n, At(0, 0, st)) == Some(d) && DeadEnd(g, JumpItem(o), d) && d.st == st1;
      DeadEndIsFinal(env, g, JumpItem(o), d);
      var fuel := EndsBody(env, p, s, st, n);
      if BuildBody(p, s).exit.Some? { ExitIsNoDeadEnd(p, s, st1); }
      var (o', st2) := Exec(env, s, st, fuel).value;
      assert Exec(env, s, st, fuel) == Some((o', st2)) && o' == o && st2 == st1;
    }
  }
}
