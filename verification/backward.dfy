/** Lowering preserves meaning, back: when the graph's run stops, so does structured execution. */
module Backward {
  import opened Wrappers
  import opened Syntax
  import opened Graph
  import opened Lowering
  import opened Simulation
  import opened Forward

  /** The run from c stops after n steps. */
  ghost predicate Stops(env: Env, g: Blocks, n: nat, c: Config) {
    Run(env, g, n, c).Some? && Final(env, g, Run(env, g, n, c).value)
  }

  lemma StopsAfter(env: Env, g: Blocks, m: nat, n: nat, c: Config)
    requires Run(env, g, m, c).Some? && Stops(env, g, n, c)
    ensures m <= n && Stops(env, g, n - m, Run(env, g, m, c).value)
  {
    RunSplit(env, g, m, n, c);
  }

  lemma {:induction false} Ends(env: Env, p: Policy, a: Builder, s: Stmt, g: Blocks, st: Store, n: nat) returns (fuel: nat)
    requires Sound(a) && a.cur.Some? && Sealed(a, Lower(p, a, s), g) && Stops(env, g, n, End(a, st))
    ensures Exec(env, s, st, fuel).Some?
    decreases n, s, 3
  {
    hide Emit, Jump, ReturnJump, LowerIf, LowerTest, LowerWhile, LowerFor, LowerSwitch, LowerBlock, LowerSeq;
    match s
    case Compound(ss) => fuel := EndsSeq(env, p, a, ss, true, g, st, n);
    case Block(lets, ss) => fuel := EndsBlock(env, p, a, s, g, st, n);
    case Switchon(e, cases, dflt) => fuel := EndsSwitch(env, p, a, s, g, st, n);
    case If(c, thn) => fuel := EndsIf(env, p, a, s, g, st, n);
    case Test(c, thn, els) => fuel := EndsTest(env, p, a, s, g, st, n);
    case While(c, body) => fuel := EndsWhile(env, p, a, s, g, st, n);
    case For(v, start, limit, step, body) => fuel := EndsFor(env, p, a, s, g, st, n);
    case _ => fuel := 0;
  }

  lemma EndsClosed(env: Env, p: Policy, b: Builder, s: Stmt, g: Blocks, target: nat, st: Store, n: nat) returns (fuel: nat)
    requires Sound(b) && b.cur.Some? && b.blocks[b.cur.value].stmts == [] && Closed(b, Lower(p, b, s), g, target)
    requires Stops(env, g, n, At(b.cur.value, 0, st))
    ensures Exec(env, s, st, fuel).Some?
    decreases n, s, 4
  {
    hide Lower, Run, Step, Exec;
    ClosedSealed(b, Lower(p, b, s), g, target);
    fuel := Ends(env, p, b, s, g, st, n);
  }

  lemma EndsIf(env: Env, p: Policy, a: Builder, s: Stmt, g: Blocks, st: Store, n: nat) returns (fuel: nat)
    requires Sound(a) && a.cur.Some? && s.If? && Sealed(a, LowerIf(p, a, s), g) && Stops(env, g, n, End(a, st))
    ensures Exec(env, s, st, fuel).Some?
    decreases n, s, 2
  {
    hide OpenIf, Lower, LowerIf, Run, Step, Keeps, Sealed, Closed, InBounds;
    var k := |a.blocks|;
    IfParts(p, a, s, g);
    fuel := 0;
    if Eval(env, s.c, st) != 0 {
      TakeBranch(env, g, a.cur.value, |a.blocks[a.cur.value].stmts|, IIf(s.c), k, st);
      StopsAfter(env, g, 2, n, End(a, st));
      fuel := EndsClosed(env, p, OpenIf(a, s.c), s.thn, g, k + 1, st, n - 2);
    }
  }

  lemma EndsTest(env: Env, p: Policy, a: Builder, s: Stmt, g: Blocks, st: Store, n: nat) returns (fuel: nat)
    requires Sound(a) && a.cur.Some? && s.Test? && Sealed(a, LowerTest(p, a, s), g) && Stops(env, g, n, End(a, st))
    ensures Exec(env, s, st, fuel).Some?
    decreases n, s, 2
  {
    hide OpenTest, Lower, LowerTest, Close, Run, Step, Sealed, Closed, InBounds;
    var k := |a.blocks|;
    TestParts(p, a, s, g);
    var holds := Eval(env, s.c, st) != 0;
    TakeBranch(env, g, a.cur.value, |a.blocks[a.cur.value].stmts|, ITest(s.c), if holds then k else k + 1, st);
    StopsAfter(env, g, 2, n, End(a, st));
    var b1 := OpenTest(a, s.c);
    if holds {
      fuel := EndsClosed(env, p, b1, s.thn, g, k + 2, st, n - 2);
    } else {
      fuel := EndsClosed(env, p, Close(Lower(p, b1, s.thn), k + 2, Some(k + 1)), s.els, g, k + 2, st, n - 2);
    }
  }

  lemma EndsWhile(env: Env, p: Policy, a: Builder, s: Stmt, g: Blocks, st: Store, n: nat) returns (fuel: nat)
    requires Sound(a) && a.cur.Some? && s.While? && Sealed(a, LowerWhile(p, a, s), g) && Stops(env, g, n, End(a, st))
    ensures Exec(env, s, st, fuel).Some?
    decreases n, s, 2
  {
    hide OpenWhile, LowerWhile, Run, Step, Sealed;
    var k := |a.blocks|;
    WhileParts(p, a, s, g);
    Follow(env, g, a.cur.value, k, st);
    StopsAfter(env, g, 1, n, End(a, st));
    fuel := EndsLoop(env, p, WhileTest(s.c), None, s.body, OpenWhile(a, s.c), k, k, k + 2, g, st, n - 1);
  }

  lemma EndsFor(env: Env, p: Policy, a: Builder, s: Stmt, g: Blocks, st: Store, n: nat) returns (fuel: nat)
    requires Sound(a) && a.cur.Some? && s.For? && Stops(env, g, n, End(a, st))
    requires Sealed(a, LowerFor(p, Emit(a, IAssign(s.v, s.start)), s), g)
    ensures Exec(env, s, st, fuel).Some?
    decreases n, s, 2
  {
    hide Emit, LowerFor, OpenFor, Run, Step, Sealed;
    var a1 := Emit(a, IAssign(s.v, s.start));
    SealedSplit(a, a1, LowerFor(p, a1, s), g);
    var m, d := SimEmit(env, a, IAssign(s.v, s.start), g, st);
    StopsAfter(env, g, m, n, End(a, st));
    var k := |a1.blocks|;
    ForParts(p, a1, s, g);
    Follow(env, g, a1.cur.value, k, d.st);
    StopsAfter(env, g, 1, n - m, End(a1, d.st));
    fuel := EndsLoop(env, p, ForTest(s.v, s.limit), Some(Assign(s.v, StepExpr(s.v, s.step))), s.body,
                     OpenFor(a1, s.v, s.limit), k, k + 2, k + 3, g, d.st, n - m - 1);
  }

  lemma {:induction false} EndsLoop(env: Env, p: Policy, t: LoopTest, step: Option<Stmt>, body: Stmt,
                                    b: Builder, h: nat, w: nat, x: nat, g: Blocks, st: Store, n: nat)
    returns (fuel: nat)
    requires LoopShape(p, g, t, step, body, b, h, w, x) && Stops(env, g, n, At(h, 0, st))
    ensures ExecLoop(env, t, step, body, st, fuel).Some?
    decreases n, body, 5
  {
    hide Lower, Run, Step, Exec, Stops;
    fuel := 1;
    if Holds(env, t, st) {
      TakeBranch(env, g, h, 0, TestItem(t), h + 1, st);
      StopsAfter(env, g, 2, n, At(h, 0, st));
      fuel := EndsClosed(env, p, b, body, g, w, st, n - 2);
      var (o, st1) := Exec(env, body, st, fuel).value;
      var more := 0;
      if o == Normal || o == Looped {
        var m, d := SimRound(env, p, t, step, body, b, h, w, x, g, st, fuel);
        StopsAfter(env, g, m, n - 2, At(h + 1, 0, st));
        more := EndsLoop(env, p, t, step, body, b, h, w, x, g, AfterStep(env, step, st1), n - 2 - m);
        LoopMono(env, t, step, body, AfterStep(env, step, st1), more, fuel + more);
      }
      ExecMono(env, body, st, fuel, fuel + more + 1);
      fuel := fuel + more + 1;
    }
  }

  lemma EndsCase(env: Env, p: Policy, b: Builder, s: Stmt, at: nat, join: nat, g: Blocks, st: Store, n: nat) returns (fuel: nat)
    requires Sound(b) && b.cur.None? && join < |b.blocks| && Pending(b, at) && join != at
    requires CasesDone(b, LowerCase(p, b, s, at, join), g, at, at + 1) && Stops(env, g, n, At(at, 0, st))
    ensures Exec(env, s, st, fuel).Some?
    decreases n, s, 5
  {
    CaseParts(p, b, s, at, join, g);
    fuel := EndsClosed(env, p, b.(cur := Some(at)), s, g, join, st, n);
  }

  lemma {:induction false} EndsCases(env: Env, p: Policy, b: Builder, cases: seq<Case>, first: nat, join: nat, i: nat, g: Blocks, st: Store, n: nat)
    returns (fuel: nat)
    requires Sound(b) && b.cur.None? && join < first && first + |cases| <= |b.blocks| && i < |cases|
    requires forall i :: first <= i < first + |cases| ==> Pending(b, i)
    requires CasesDone(b, LowerCases(p, b, cases, first, join), g, first, first + |cases|)
    requires Stops(env, g, n, At(first + i, 0, st))
    ensures Exec(env, cases[i].command, st, fuel).Some?
    decreases n, cases, 0
  {
    hide LowerCase, Stops, Exec;
    CasesParts(p, b, cases, first, join, g);
    var b1 := LowerCase(p, b, cases[0].command, first, join);
    if i == 0 {
      assert cases[0].command < cases[0];
      fuel := EndsCase(env, p, b, cases[0].command, first, join, g, st, n);
    } else {
      fuel := EndsCases(env, p, b1, cases[1..], first + 1, join, i - 1, g, st, n);
    }
  }

  lemma EndsSwitch(env: Env, p: Policy, a: Builder, s: Stmt, g: Blocks, st: Store, n: nat) returns (fuel: nat)
    requires Sound(a) && a.cur.Some? && s.Switchon? && Sealed(a, LowerSwitch(p, a, s), g) && Stops(env, g, n, End(a, st))
    ensures Exec(env, s, st, fuel).Some?
    decreases n, s, 2
  {
    hide LowerSwitch, OpenSwitch, LowerCase, LowerCases, Run, Step, Stops, Sealed;
    var k := |a.blocks|;
    SwitchParts(p, a, s, g);
    SwitchBranch(env, p, a, s, g, st);
    StopsAfter(env, g, 3, n, End(a, st));
    var i := Select(Eval(env, s.e, st), Values(s.cases));
    fuel := 0;
    if i < |s.cases| {
      fuel := EndsCases(env, p, OpenSwitch(a, s.e, s.cases, s.dflt), s.cases, k + 2, k + 1, i, g, st, n - 3);
    } else if s.dflt.Some? {
      fuel := EndsCase(env, p, SwitchCased(p, a, s), s.dflt.value, k + 2 + |s.cases|, k + 1, g, st, n - 3);
    }
  }

  lemma {:induction false} EndsSeq(env: Env, p: Policy, a: Builder, ss: seq<Stmt>, anew: bool, g: Blocks, st: Store, n: nat)
    returns (fuel: nat)
    requires Sound(a) && a.cur.Some? && Sealed(a, LowerSeq(p, a, ss, anew), g) && Stops(env, g, n, End(a, st))
    ensures ExecSeq(env, ss, st, fuel).Some?
    decreases n, ss, 0
  {
    hide Lower, Run, Step, Exec, Stops;
    fuel := 0;
    if ss != [] {
      var b := Lower(p, a, ss[0]);
      var r := LowerSeq(p, b, ss[1..], anew);
      assert LowerSeq(p, a, ss, anew) == r;
      SealedSplit(a, b, r, g);
      fuel := Ends(env, p, a, ss[0], g, st, n);
      var (o, st1) := Exec(env, ss[0], st, fuel).value;
      if o == Normal {
        var m, d := Sim(env, p, a, ss[0], g, st, fuel);
        StopsAfter(env, g, m, n, End(a, st));
        var more := EndsSeq(env, p, b, ss[1..], anew, g, st1, n - m);
        ExecMono(env, ss[0], st, fuel, fuel + more);
        SeqMono(env, ss[1..], st1, more, fuel + more);
        fuel := fuel + more;
      }
    }
  }

  lemma EndsBlock(env: Env, p: Policy, a: Builder, s: Stmt, g: Blocks, st: Store, n: nat) returns (fuel: nat)
    requires Sound(a) && a.cur.Some? && s.Block? && Sealed(a, LowerBlock(p, a, s), g) && Stops(env, g, n, End(a, st))
    ensures Exec(env, s, st, fuel).Some?
    decreases n, s, 2
  {
    hide EnterBlock, LeaveBlock, ExecLets, LowerSeq, Run, Step, Stops;
    BlockParts(p, a, s, g);
    var m := SimEnter(env, p, a, s.lets, g, st);
    StopsAfter(env, g, m, n, End(a, st));
    fuel := EndsSeq(env, p, EnterBlock(p, a, s.lets), s.ss, false, g, ExecLets(env, s.lets, st), n - m);
  }
}
