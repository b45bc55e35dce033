/**
  Scope balance from the finished graph back to the text: where paths are well nested, blocks have depths, and
  where blocks have depths, every jump that is reached stands where its one scope-exit call is right.
 */
module ScopesExactly {
  import opened Wrappers
  import opened Syntax
  import opened Graph
  import opened Lowering
  import opened Simulation
  import opened Forward
  import opened Functions
  import opened Ordering
  import opened ScopeBalance

  // ----- from depths of the finished graph back to the text -----

  /** Building goes on in a block that is reached, with k scopes open. */
  ghost predicate Arrived(b: Builder, e: seq<int>, k: int) {
    Open(b) && b.cur.value < |e| && e[b.cur.value] >= 0 && e[b.cur.value] + Net(b.blocks[b.cur.value].stmts) == k
  }

  /** The block a jump goes to has the depth t says, if it is reached at all. */
  ghost predicate Agrees(targets: seq<nat>, t: Option<int>, e: seq<int>) {
    && (targets == [] <==> t.None?)
    && (targets != [] ==> Last(targets) < |e| && (e[Last(targets)] >= 0 ==> t == Some(e[Last(targets)])))
  }

  ghost predicate AgreeAll(b: Builder, t: Depths, e: seq<int>) {
    Agrees(b.breaks, t.brk, e) && Agrees(b.loops, t.loop, e) && Agrees(b.endcases, t.endcase, e)
  }

  /** The exit block is entered with ret scopes open, if at all. */
  ghost predicate ExitAt(b: Builder, e: seq<int>, ret: int) {
    b.exit.Some? ==> b.exit.value < |e| && (e[b.exit.value] >= 0 ==> e[b.exit.value] == ret)
  }

  /** In a graph with depths e, everything built from a on, of which r is left. */
  ghost predicate Context(a: Builder, r: Builder, g: Blocks, e: seq<int>, k: int, t: Depths) {
    Levels(g, e) && Sealed(a, r, g) && Arrived(a, e, k) && AgreeAll(a, t, e) && ExitAt(r, e, t.ret)
  }

  lemma {:induction false} PrefixSteady(items: seq<Item>, more: seq<Item>, d: int)
    requires items <= more && Steady(more, d)
    ensures Steady(items, d)
    decreases |more|
  {
    if |items| < |more| {
      PrefixSteady(items, more[..|more| - 1], d);
    } else {
      assert items == more;
    }
  }

  lemma {:induction false} SteadyNet(items: seq<Item>, d: int)
    requires Steady(items, d)
    ensures d + Net(items) >= 0
  {
  }

  lemma EmitArrived(b: Builder, item: Item, e: seq<int>, k: int)
    requires Sound(b) && b.cur.Some? && !IsJump(item) && Arrived(b, e, k)
    ensures Arrived(Emit(b, item), e, k + Delta(item))
  {
    NetAppend(b.blocks[b.cur.value].stmts, item, 0);
  }

  lemma NetOne(item: Item)
    ensures Net([item]) == Delta(item)
  {
    assert [item][..0] == [];
  }

  /** An edge out of a block that is reached. */
  lemma Entered(g: Blocks, e: seq<int>, u: nat, i: nat)
    requires Levels(g, e) && u < |g| && e[u] >= 0 && i < |g[u].succs|
    ensures g[u].succs[i] < |e| && e[g[u].succs[i]] == e[u] + Net(g[u].stmts) >= 0
  {
    assert LevelAt(g, e, u);
    SteadyNet(g[u].stmts, e[u]);
  }

  lemma {:induction false} Needed(p: Policy, a: Builder, s: Stmt, g: Blocks, e: seq<int>, k: int, t: Depths)
    requires Sound(a) && a.cur.Some? && Context(a, Lower(p, a, s), g, e, k, t)
    ensures Fits(p, s, k, t) && (Falls(s) ==> Arrived(Lower(p, a, s), e, k))
    decreases s, 3
  {
    hide Emit, Jump, ReturnJump, LowerIf, LowerTest, LowerWhile, LowerFor, LowerSwitch, LowerBlock, LowerSeq, Levels, Sealed, InBounds, Keeps, Net;
    match s
    case Assign(x, v) => EmitArrived(a, IAssign(x, v), e, k);
    case Call(f, args) => EmitArrived(a, ICall(f, args), e, k);
    case Compound(ss) => NeededAll(p, a, ss, true, g, e, k, t);
    case Block(lets, ss) => NeededBlock(p, a, s, g, e, k, t);
    case Switchon(_, _, _) => NeededSwitch(p, a, s, g, e, k, t);
    case If(_, _) => NeededIf(p, a, s, g, e, k, t);
    case Test(_, _, _) => NeededTest(p, a, s, g, e, k, t);
    case While(_, _) => NeededWhile(p, a, s, g, e, k, t);
    case For(_, _, _, _, _) => NeededFor(p, a, s, g, e, k, t);
    case Break => NeededJump(p, a, IBreak, a.breaks, g, e, k, t.brk);
    case Loop => NeededJump(p, a, ILoop, a.loops, g, e, k, t.loop);
    case Endcase => NeededJump(p, a, IEndcase, a.endcases, g, e, k, t.endcase);
    case Return => NeededReturn(p, a, g, e, k, t.ret);
    case Defer(_) =>
  }

  /** A statement in a block of its own, from which control falls through to the target. */
  lemma NeededClosed(p: Policy, b: Builder, s: Stmt, g: Blocks, target: nat, e: seq<int>, k: int, t: Depths)
    requires Sound(b) && b.cur.Some? && b.blocks[b.cur.value].stmts == [] && Closed(b, Lower(p, b, s), g, target)
    requires Levels(g, e) && e[b.cur.value] == k >= 0 && AgreeAll(b, t, e) && ExitAt(Lower(p, b, s), e, t.ret)
    ensures Fits(p, s, k, t) && (Falls(s) ==> target < |e| && e[target] == k)
    decreases s, 4
  {
    hide Lower, LevelAt, InBounds;
    var r := Lower(p, b, s);
    ClosedSealed(b, r, g, target);
    Needed(p, b, s, g, e, k, t);
    if Falls(s) {
      assert ClosedAt(r, g, target, r.cur.value);
      Entered(g, e, r.cur.value, 0);
    }
  }

  lemma NeededIf(p: Policy, a: Builder, s: Stmt, g: Blocks, e: seq<int>, k: int, t: Depths)
    requires Sound(a) && a.cur.Some? && s.If? && Context(a, LowerIf(p, a, s), g, e, k, t)
    ensures Fits(p, s, k, t) && Arrived(LowerIf(p, a, s), e, k)
    decreases s, 0
  {
    hide OpenIf, Lower, Sealed, Closed, LevelAt, InBounds, Keeps, AddEdge;
    var n := |a.blocks|;
    var b1 := OpenIf(a, s.c);
    IfParts(p, a, s, g);
    NetAppend(a.blocks[a.cur.value].stmts, IIf(s.c), 0);
    Entered(g, e, a.cur.value, 0);
    Entered(g, e, a.cur.value, 1);
    PendingGrows(b1, Lower(p, b1, s.thn), n + 1);
    NeededClosed(p, b1, s.thn, g, n + 1, e, k, t);
  }

  lemma NeededTest(p: Policy, a: Builder, s: Stmt, g: Blocks, e: seq<int>, k: int, t: Depths)
    requires Sound(a) && a.cur.Some? && s.Test? && Context(a, LowerTest(p, a, s), g, e, k, t)
    ensures Fits(p, s, k, t) && (Falls(s) ==> Arrived(LowerTest(p, a, s), e, k))
    decreases s, 0
  {
    hide OpenTest, Lower, LowerTest, Close, Sealed, Closed, Levels, InBounds, Keeps, Net;
    var n := |a.blocks|;
    var b1 := OpenTest(a, s.c);
    var b2 := Lower(p, b1, s.thn);
    TestParts(p, a, s, g);
    ForkDepths(g, e, a.cur.value, a.blocks[a.cur.value].stmts, ITest(s.c), n, n + 1, k);
    PendingGrows(b1, b2, n + 1);
    PendingGrows(b1, b2, n + 2);
    var b3 := Close(b2, n + 2, Some(n + 1));
    PendingClose(b2, n + 2, Some(n + 1), n + 2);
    PendingGrows(b3, Lower(p, b3, s.els), n + 2);
    TestEnds(p, a, s, b2, Lower(p, b3, s.els));
    assert ExitAt(b3, e, t.ret) by { ExitAtBefore(b3, Lower(p, b3, s.els), e, t.ret); }
    NeededClosed(p, b1, s.thn, g, n + 2, e, k, t);
    NeededClosed(p, b3, s.els, g, n + 2, e, k, t);
    if Falls(s) { AtEmpty(LowerTest(p, a, s), e, k); }
  }

  lemma AtEmpty(b: Builder, e: seq<int>, k: int)
    requires Open(b) && b.blocks[b.cur.value].stmts == [] && b.cur.value < |e| && e[b.cur.value] == k >= 0
    ensures Arrived(b, e, k)
  {
  }

  /** The two ways out of a test are entered at the same depth. */
  lemma ForkDepths(g: Blocks, e: seq<int>, u: nat, items: seq<Item>, test: Item, yes: nat, no: nat, k: int)
    requires Levels(g, e) && u < |g| && SameFlow(g[u], ToEither(items + [test], yes, no)) && Delta(test) == 0
    requires e[u] >= 0 && e[u] + Net(items) == k
    ensures yes < |e| && no < |e| && e[yes] == e[no] == k >= 0
  {
    NetAppend(items, test, 0);
    Entered(g, e, u, 0);
    Entered(g, e, u, 1);
  }

  /** The join of a TEST stands empty, and the exit block is that of its second branch. */
  lemma TestEnds(p: Policy, a: Builder, s: Stmt, b2: Builder, b4: Builder)
    requires Sound(a) && a.cur.Some? && s.Test? && b2 == Lower(p, OpenTest(a, s.c), s.thn)
    requires Pending(b2, |a.blocks| + 1) && Pending(b2, |a.blocks| + 2)
    requires b4 == Lower(p, Close(b2, |a.blocks| + 2, Some(|a.blocks| + 1)), s.els)
    ensures
      var (n, r) := (|a.blocks|, LowerTest(p, a, s));
      r.exit == b4.exit && r.cur == Some(n + 2) && n + 2 < |r.blocks| && r.blocks[n + 2].stmts == []
    decreases s, 0
  {
    hide OpenTest, Lower, Close, InBounds;
    var n := |a.blocks|;
    PendingClose(b2, n + 2, Some(n + 1), n + 2);
    PendingGrows(Close(b2, n + 2, Some(n + 1)), b4, n + 2);
  }

  lemma ExitAtBefore(b: Builder, r: Builder, e: seq<int>, ret: int)
    requires Grows(b, r) && ExitAt(r, e, ret)
    ensures ExitAt(b, e, ret)
  {
  }

  // ----- loops -----

  lemma NeededLoop(p: Policy, test: LoopTest, step: Option<Stmt>, body: Stmt, b: Builder, h: nat, w: nat, x: nat, g: Blocks, e: seq<int>, k: int, t: Depths)
    requires LoopShape(p, g, test, step, body, b, h, w, x) && Levels(g, e) && e[h] == k >= 0
    requires Agrees(b.endcases, t.endcase, e) && ExitAt(Lower(p, b, body), e, t.ret)
    ensures Fits(p, body, k, t.(brk := Some(k), loop := Some(k))) && x < |e| && e[x] == k
    decreases body, 5
  {
    hide Lower, LevelAt, InBounds, Keeps, Closed;
    NetOne(TestItem(test));
    Entered(g, e, h, 0);
    Entered(g, e, h, 1);
    if step.Some? && e[w] >= 0 {
      NetOne(IAssign(step.value.x, step.value.e));
      Entered(g, e, w, 0);
    }
    Bounds(b);
    LastIn(b.loops, |b.blocks|);
    NeededClosed(p, b, body, g, w, e, k, t.(brk := Some(k), loop := Some(k)));
  }

  lemma Bounds(b: Builder)
    requires Sound(b)
    ensures InBounds(b.loops, |b.blocks|)
  {
  }

  lemma LastIn(s: seq<nat>, n: nat)
    requires s != [] && InBounds(s, n)
    ensures Last(s) < n
  {
  }

  lemma NeededWhile(p: Policy, a: Builder, s: Stmt, g: Blocks, e: seq<int>, k: int, t: Depths)
    requires Sound(a) && a.cur.Some? && s.While? && Context(a, LowerWhile(p, a, s), g, e, k, t)
    ensures Fits(p, s, k, t) && Arrived(LowerWhile(p, a, s), e, k)
    decreases s, 0
  {
    hide OpenWhile, Lower, Sealed, Closed, LevelAt, InBounds, Keeps;
    var n := |a.blocks|;
    var b1 := OpenWhile(a, s.c);
    WhileParts(p, a, s, g);
    Entered(g, e, a.cur.value, 0);
    PendingGrows(b1, Lower(p, b1, s.body), n + 2);
    NeededLoop(p, WhileTest(s.c), None, s.body, b1, n, n, n + 2, g, e, k, t);
  }

  lemma NeededFor(p: Policy, a: Builder, s: Stmt, g: Blocks, e: seq<int>, k: int, t: Depths)
    requires Sound(a) && a.cur.Some? && s.For? && Context(a, LowerFor(p, Emit(a, IAssign(s.v, s.start)), s), g, e, k, t)
    ensures Fits(p, s, k, t) && Arrived(LowerFor(p, Emit(a, IAssign(s.v, s.start)), s), e, k)
    decreases s, 0
  {
    hide Emit, OpenFor, Lower, LowerFor, Sealed, Closed, LevelAt, InBounds, Keeps;
    var a1 := Emit(a, IAssign(s.v, s.start));
    SealedSplit(a, a1, LowerFor(p, a1, s), g);
    EmitArrived(a, IAssign(s.v, s.start), e, k);
    var n := |a1.blocks|;
    var b1 := OpenFor(a1, s.v, s.limit);
    ForParts(p, a1, s, g);
    ForEnd(p, a1, s);
    Entered(g, e, a1.cur.value, 0);
    NeededLoop(p, ForTest(s.v, s.limit), Some(Assign(s.v, StepExpr(s.v, s.step))), s.body, b1, n, n + 2, n + 3, g, e, k, t);
  }

  lemma ForEnd(p: Policy, a: Builder, s: Stmt)
    requires Sound(a) && a.cur.Some? && s.For?
    ensures var (r, n) := (LowerFor(p, a, s), |a.blocks|); r.cur == Some(n + 3) && n + 3 < |r.blocks| && r.blocks[n + 3].stmts == []
    ensures LowerFor(p, a, s).exit == Lower(p, OpenFor(a, s.v, s.limit), s.body).exit
    decreases s, 0
  {
    hide OpenFor, Lower, InBounds, Keeps;
    var b1 := OpenFor(a, s.v, s.limit);
    PendingGrows(b1, Lower(p, b1, s.body), |a.blocks| + 2);
    PendingGrows(b1, Lower(p, b1, s.body), |a.blocks| + 3);
  }

  // ----- SWITCHON -----

  lemma NeededCase(p: Policy, b: Builder, s: Stmt, at: nat, join: nat, g: Blocks, e: seq<int>, k: int, t: Depths)
    requires Sound(b) && b.cur.None? && join < |b.blocks| && Pending(b, at) && join != at
    requires CasesDone(b, LowerCase(p, b, s, at, join), g, at, at + 1)
    requires Levels(g, e) && e[at] == k >= 0 && AgreeAll(b, t, e) && ExitAt(LowerCase(p, b, s, at, join), e, t.ret)
    ensures Fits(p, s, k, t)
    decreases s, 5
  {
    hide Lower, LevelAt, InBounds, Keeps;
    CaseParts(p, b, s, at, join, g);
    NeededClosed(p, b.(cur := Some(at)), s, g, join, e, k, t);
  }

  lemma {:induction false} NeededCases(p: Policy, b: Builder, cases: seq<Case>, first: nat, join: nat, g: Blocks, e: seq<int>, k: int, t: Depths)
    requires Sound(b) && b.cur.None? && join < first && first + |cases| <= |b.blocks|
    requires forall i :: first <= i < first + |cases| ==> Pending(b, i)
    requires CasesDone(b, LowerCases(p, b, cases, first, join), g, first, first + |cases|)
    requires Levels(g, e) && k >= 0 && (forall i :: first <= i < first + |cases| ==> e[i] == k)
    requires AgreeAll(b, t, e) && ExitAt(LowerCases(p, b, cases, first, join), e, t.ret)
    ensures FitsCases(p, cases, k, t)
    decreases cases, 0
  {
    hide LowerCase, LevelAt, InBounds, Keeps;
    if cases != [] {
      assert cases[0].command < cases[0];
      CasesParts(p, b, cases, first, join, g);
      var b1 := LowerCase(p, b, cases[0].command, first, join);
      NeededCase(p, b, cases[0].command, first, join, g, e, k, t);
      NeededCases(p, b1, cases[1..], first + 1, join, g, e, k, t);
    }
  }

  lemma NeededSwitch(p: Policy, a: Builder, s: Stmt, g: Blocks, e: seq<int>, k: int, t: Depths)
    requires Sound(a) && a.cur.Some? && s.Switchon? && Context(a, LowerSwitch(p, a, s), g, e, k, t)
    ensures Fits(p, s, k, t) && Arrived(LowerSwitch(p, a, s), e, k)
    decreases s, 0
  {
    hide LowerSwitch, OpenSwitch, SwitchCased, LowerCase, LowerCases, Sealed, LevelAt, InBounds, Keeps, CasesDone, SameFlow;
    var n := |a.blocks|;
    SwitchParts(p, a, s, g);
    SwitchDepths(p, a, s, g, e, k);
    SwitchIs(p, a, s);
    var t1 := t.(endcase := Some(k));
    var b1 := OpenSwitch(a, s.e, s.cases, s.dflt);
    SwitchTargets(a, s, t, e, k);
    var b2 := SwitchCased(p, a, s);
    CasedIs(p, a, s);
    NeededCases(p, b1, s.cases, n + 2, n + 1, g, e, k, t1);
    if s.dflt.Some? {
      NeededCase(p, b2, s.dflt.value, n + 2 + |s.cases|, n + 1, g, e, k, t1);
    }
    AtEmpty(LowerSwitch(p, a, s), e, k);
  }

  lemma SwitchTargets(a: Builder, s: Stmt, t: Depths, e: seq<int>, k: int)
    requires Sound(a) && s.Switchon? && AgreeAll(a, t, e) && |a.blocks| + 1 < |e| && e[|a.blocks| + 1] == k
    ensures AgreeAll(OpenSwitch(a, s.e, s.cases, s.dflt), t.(endcase := Some(k)), e)
  {
    hide OpenSwitch;
  }

  /** The cases, the default and the join are entered at the depth of the SWITCHON. */
  lemma SwitchDepths(p: Policy, a: Builder, s: Stmt, g: Blocks, e: seq<int>, k: int)
    requires Sound(a) && a.cur.Some? && s.Switchon? && SwitchShape(p, a, s, g) && Levels(g, e) && Arrived(a, e, k)
    ensures
      var n := |a.blocks|;
      && n + 2 + CaseCount(s.cases, s.dflt) <= |e| && k >= 0
      && forall i :: n + 1 <= i < n + 2 + CaseCount(s.cases, s.dflt) ==> e[i] == k
  {
    hide OpenSwitch, SwitchCased, LowerCase, LowerCases, LevelAt, InBounds, Keeps, Pending, Net;
    var n := |a.blocks|;
    var count := CaseCount(s.cases, s.dflt);
    Entered(g, e, a.cur.value, 0);
    NetOne(ISwitch(s.e, Values(s.cases), s.dflt.Some?));
    assert SameFlow(g[n], SwitchHeader(s.e, s.cases, s.dflt, n));
    Entered(g, e, n, count);
    forall i | n + 2 <= i < n + 2 + count ensures e[i] == k {
      Entered(g, e, n, i - n - 2);
    }
  }

  // ----- sequences and blocks -----

  lemma {:induction false} NeededAll(p: Policy, a: Builder, ss: seq<Stmt>, anew: bool, g: Blocks, e: seq<int>, k: int, t: Depths)
    requires Sound(a) && a.cur.Some? && Context(a, LowerSeq(p, a, ss, anew), g, e, k, t)
    ensures FitsAll(p, ss, k, t) && (FallsAll(ss) ==> Arrived(LowerSeq(p, a, ss, anew), e, k))
    decreases ss, 0
  {
    hide Lower, Sealed, LevelAt, InBounds, Keeps;
    if ss != [] {
      var b := Lower(p, a, ss[0]);
      var r := LowerSeq(p, b, ss[1..], anew);
      assert LowerSeq(p, a, ss, anew) == r;
      SealedSplit(a, b, r, g);
      ExitAtBefore(b, r, e, t.ret);
      Needed(p, a, ss[0], g, e, k, t);
      if Falls(ss[0]) { NeededAll(p, b, ss[1..], anew, g, e, k, t); }
    }
  }

  lemma {:induction false} NetConcat(xs: seq<Item>, ys: seq<Item>)
    ensures Net(xs + ys) == Net(xs) + Net(ys)
    decreases |ys|
  {
    if ys == [] {
      assert xs + ys == xs;
    } else {
      NetConcat(xs, ys[..|ys| - 1]);
      assert (xs + ys)[..|xs + ys| - 1] == xs + ys[..|ys| - 1];
    }
  }

  lemma EnterNet(p: Policy, lets: seq<Let>)
    ensures Net(EnterItems(p, lets)) == if p.scopeCalls then 1 else 0
  {
    NetZero([], 0);
    NetOne(IEnterScope);
    NetZero(LetItems(lets), 0);
    NetConcat(if p.scopeCalls then [IEnterScope] else [], LetItems(lets));
  }

  lemma LeaveNet(p: Policy, names: seq<string>)
    ensures Net(LeaveItems(p, names)) == if p.scopeCalls then -1 else 0
  {
    NetFrees(p, Reversed(names), 0);
    NetAppend(Frees(p, Reversed(names)), IExitScope, 0);
  }

  lemma NeededBlock(p: Policy, a: Builder, s: Stmt, g: Blocks, e: seq<int>, k: int, t: Depths)
    requires Sound(a) && a.cur.Some? && s.Block? && Context(a, LowerBlock(p, a, s), g, e, k, t)
    ensures Fits(p, s, k, t) && (Falls(s) ==> Arrived(LowerBlock(p, a, s), e, k))
    decreases s, 0
  {
    hide EnterBlock, EnterItems, LeaveBlock, LeaveItems, LowerSeq, Sealed, LevelAt, InBounds, Keeps, Net;
    var b1 := EnterBlock(p, a, s.lets);
    var b2 := LowerSeq(p, b1, s.ss, false);
    var k1 := if p.scopeCalls then k + 1 else k;
    BlockParts(p, a, s, g);
    EnterAppends(p, a, s.lets);
    EnterNet(p, s.lets);
    NetConcat(a.blocks[a.cur.value].stmts, EnterItems(p, s.lets));
    assert ExitAt(b2, e, t.ret) by { LeaveExit(p, b2); }
    NeededAll(p, b1, s.ss, false, g, e, k1, t);
    if Falls(s) { LeaveArrived(p, b2, e, k1); }
  }

  lemma LeaveExit(p: Policy, b: Builder)
    requires Sound(b) && b.scopes != []
    ensures LeaveBlock(p, b).exit == b.exit
  {
  }

  lemma LeaveArrived(p: Policy, b: Builder, e: seq<int>, k: int)
    requires Sound(b) && b.scopes != [] && Arrived(b, e, k)
    ensures Arrived(LeaveBlock(p, b), e, if p.scopeCalls then k - 1 else k)
  {
    hide Net, LeaveItems, InBounds, Keeps;
    LeaveNet(p, Last(b.scopes));
    NetConcat(b.blocks[b.cur.value].stmts, LeaveItems(p, Last(b.scopes)));
  }

  // ----- jumps -----

  /** The end of a chain of cleanup blocks is as deep as its start. */
  lemma {:induction false} ChainDepth(p: Policy, b: Blocks, scopes: seq<seq<string>>, last: nat, g: Blocks, e: seq<int>)
    requires last < |b| && b[last].succs == [] && !EndsWithControlFlow(b[last])
    requires
      var (r, l) := CleanupChain(p, b, scopes, last);
      && |r| <= |g| && r[l].stmts <= g[l].stmts
      && forall i :: 0 <= i < |r| && (i >= |b| || i == last) && i != l ==> SameFlow(r[i], g[i])
    requires Levels(g, e) && e[last] >= 0
    ensures var (r, l) := CleanupChain(p, b, scopes, last); e[l] >= 0 && e[l] + Net(r[l].stmts) == e[last] + Net(b[last].stmts)
    decreases |scopes|
  {
    hide Net, Frees, LevelAt;
    if scopes != [] {
      var vars := scopes[|scopes| - 1];
      if vars == [] {
        ChainDepth(p, b, scopes[..|scopes| - 1], last, g, e);
      } else {
        var n := |b|;
        var b1 := AddEdge(b + [BasicBlock(Frees(p, vars), [], [])], last, n);
        Entered(g, e, last, 0);
        ChainDepth(p, b1, scopes[..|scopes| - 1], n, g, e);
        NetFrees(p, vars, 0);
      }
    }
  }

  lemma NeededJump(p: Policy, a: Builder, item: Item, targets: seq<nat>, g: Blocks, e: seq<int>, k: int, t: Option<int>)
    requires Sound(a) && a.cur.Some? && IsJump(item) && targets in [a.breaks, a.loops, a.endcases]
    requires Levels(g, e) && Sealed(a, Jump(p, a, item, targets), g) && Arrived(a, e, k) && Agrees(targets, t, e)
    ensures OneInside(k, t)
  {
    hide Jump, CleanupChain, Sealed, LevelAt, InBounds, Keeps, Net, Steady;
    var c := a.cur.value;
    var b1 := Emit(a, IExitScope).blocks;
    var (b', l) := CleanupChain(p, b1, a.scopes, c);
    JumpBlocks(p, a, item, targets, g);
    NetAppend(a.blocks[c].stmts, IExitScope, 0);
    Reached(g, e, c, b1[c].stmts);
    ChainDepth(p, b1, a.scopes, c, g, e);
    NetAppend(b'[l].stmts, item, 0);
    if targets != [] { Entered(g, e, l, 0); }
  }

  /** In a block that is reached, any of its first statements leave a depth that is not below 0. */
  lemma Reached(g: Blocks, e: seq<int>, u: nat, items: seq<Item>)
    requires Levels(g, e) && u < |g| && e[u] >= 0 && items <= g[u].stmts
    ensures e[u] + Net(items) >= 0
  {
    assert LevelAt(g, e, u);
    PrefixSteady(items, g[u].stmts, e[u]);
    SteadyNet(items, e[u]);
  }

  lemma NeededReturn(p: Policy, a: Builder, g: Blocks, e: seq<int>, k: int, ret: int)
    requires Sound(a) && a.cur.Some? && Levels(g, e) && Sealed(a, ReturnJump(p, a), g) && Arrived(a, e, k)
    requires ExitAt(ReturnJump(p, a), e, ret)
    ensures k == ret
  {
    hide ReturnJump, CleanupChain, Sealed, LevelAt, InBounds, Keeps, Net, Steady;
    var c := a.cur.value;
    var (b', l) := CleanupChain(p, a.blocks, a.scopes, c);
    ReturnBlocks(p, a, g);
    Reached(g, e, c, a.blocks[c].stmts);
    ChainDepth(p, a.blocks, a.scopes, c, g, e);
    NetAppend(b'[l].stmts, IReturn, 0);
    Entered(g, e, l, 0);
  }

  lemma BodyNeeded(p: Policy, s: Stmt, e: seq<int>, ret: int)
    requires Levels(BuildBody(p, s).blocks, e) && |e| > 0 && e[0] == 0 && ExitAt(BuildBody(p, s), e, ret)
    ensures Fits(p, s, 0, Nowhere(ret)) && (Falls(s) ==> ret == 0)
  {
    hide Lower, LevelAt, Closed, Sealed;
    BodySealed(p, s);
    var (b, g) := (Lower(p, START, s), BuildBody(p, s).blocks);
    Needed(p, START, s, g, e, 0, Nowhere(ret));
    if Falls(s) { Entered(g, e, b.cur.value, 0); }
  }

  // ----- paths -----

  /** How many scopes are open when the last block of a path is entered. */
  ghost function Depth(g: Blocks, path: seq<nat>): int
    requires IsPath(g, path)
    decreases |path|
  {
    if |path| == 1 then 0 else Depth(g, path[..|path| - 1]) + Net(g[path[|path| - 2]].stmts)
  }

  lemma {:induction false} DepthIsLevel(g: Blocks, d: seq<int>, path: seq<nat>)
    requires IsPath(g, path) && Levels(g, d) && d[path[0]] >= 0
    ensures d[path[|path| - 1]] >= 0 && Depth(g, path) == d[path[|path| - 1]] - d[path[0]]
    decreases |path|
  {
    hide LevelAt;
    if |path| > 1 {
      var u := path[|path| - 2];
      DepthIsLevel(g, d, path[..|path| - 1]);
      assert path[|path| - 2 + 1] in g[u].succs;
      var i :| 0 <= i < |g[u].succs| && g[u].succs[i] == path[|path| - 1];
      Entered(g, d, u, i);
    }
  }

  /** No path from the entry leaves a scope it has not entered, in the middle of its last block either. */
  ghost predicate NeverBelow(g: Blocks, path: seq<nat>)
    requires IsPath(g, path)
  {
    var items := g[path[|path| - 1]].stmts;
    forall k :: 0 <= k <= |items| ==> Depth(g, path) + Net(items[..k]) >= 0
  }

  /** A path from the entry block to block u. */
  ghost predicate Gets(g: Blocks, path: seq<nat>, u: nat) {
    IsPath(g, path) && path[0] == 0 && path[|path| - 1] == u
  }

  /**
    Every path from the entry is well nested, all paths to a block enter it at the same depth, and the
    function's exit is reached with every scope left.
   */
  ghost predicate Balanced(g: Blocks, exit: Option<nat>) {
    && (forall path, u: nat :: Gets(g, path, u) ==> NeverBelow(g, path) && (exit == Some(u) ==> Depth(g, path) == 0))
    && (forall path, other, u: nat :: Gets(g, path, u) && Gets(g, other, u) ==> Depth(g, path) == Depth(g, other))
  }

  lemma LevelsBalance(g: Blocks, exit: Option<nat>, d: seq<int>)
    requires Levels(g, d) && d != [] && d[0] == 0 && (exit.Some? ==> exit.value < |d| && d[exit.value] <= 0)
    ensures Balanced(g, exit)
  {
    hide Net, Steady, Depth, LevelAt;
    forall path, u: nat | Gets(g, path, u) ensures NeverBelow(g, path) && Depth(g, path) == d[u] >= 0 {
      DepthIsLevel(g, d, path);
      assert LevelAt(g, d, u);
      forall k | 0 <= k <= |g[u].stmts| ensures Depth(g, path) + Net(g[u].stmts[..k]) >= 0 {
        Reached(g, d, u, g[u].stmts[..k]);
      }
    }
  }

  // ----- depths from paths -----

  /** The depth of a block along some path to it. */
  ghost function DepthTo(g: Blocks, u: nat): (d: int)
    ensures forall path :: Balanced(g, None) && Gets(g, path, u) ==> d == Depth(g, path)
    ensures (forall path :: !Gets(g, path, u)) ==> d < 0
  {
    if exists path :: Gets(g, path, u) then
      var path :| Gets(g, path, u);
      Depth(g, path)
    else -1
  }

  lemma BalanceLevels(g: Blocks, exit: Option<nat>) returns (d: seq<int>)
    requires Balanced(g, exit) && InRange(g) && g != [] && (exit.Some? ==> exit.value < |g|)
    ensures Levels(g, d) && d[0] == 0 && (exit.Some? ==> d[exit.value] <= 0)
  {
    hide Depth, LevelAt, NeverBelow;
    assert Balanced(g, None);
    d := seq(|g|, (u: nat) => DepthTo(g, u));
    forall u | 0 <= u < |g| ensures LevelAt(g, d, u) {
      LevelFromPaths(g, d, u);
    }
    assert Gets(g, [0], 0);
    assert Depth(g, [0]) == 0 by { DepthStart(g); }
    if exit.Some? && exists path :: Gets(g, path, exit.value) {
      var path :| Gets(g, path, exit.value);
    }
  }

  lemma DepthStart(g: Blocks)
    requires g != []
    ensures IsPath(g, [0]) && Depth(g, [0]) == 0
  {
  }

  lemma LevelFromPaths(g: Blocks, d: seq<int>, u: nat)
    requires Balanced(g, None) && InRange(g) && |d| == |g| && u < |g| && forall v :: 0 <= v < |g| ==> d[v] == DepthTo(g, v)
    ensures LevelAt(g, d, u)
  {
    hide Depth, Net, Steady;
    if d[u] >= 0 {
      var path :| Gets(g, path, u);
      SteadyByPrefixes(g[u].stmts, d[u]);
      forall i | 0 <= i < |g[u].succs| ensures g[u].succs[i] < |g| && d[g[u].succs[i]] == d[u] + Net(g[u].stmts) {
        var v := g[u].succs[i];
        assert v in g[u].succs;
        DepthOn(g, path, v);
        assert Gets(g, path + [v], v);
      }
    }
  }

  lemma DepthOn(g: Blocks, path: seq<nat>, v: nat)
    requires IsPath(g, path) && v < |g| && v in g[path[|path| - 1]].succs
    ensures IsPath(g, path + [v]) && Depth(g, path + [v]) == Depth(g, path) + Net(g[path[|path| - 1]].stmts)
  {
    hide Net;
    var more := path + [v];
    assert more[..|more| - 1] == path;
    forall i | 0 <= i < |more| - 1 ensures more[i + 1] in g[more[i]].succs {
      if i < |path| - 1 { assert path[i + 1] in g[path[i]].succs; }
    }
  }

  lemma {:induction false} SteadyByPrefixes(items: seq<Item>, d: int)
    requires forall k :: 0 <= k <= |items| ==> d + Net(items[..k]) >= 0
    ensures Steady(items, d)
    decreases |items|
  {
    assert items[..|items|] == items;
    if items != [] {
      var init := items[..|items| - 1];
      forall k | 0 <= k <= |init| ensures d + Net(init[..k]) >= 0 {
        assert init[..k] == items[..k];
      }
      SteadyByPrefixes(init, d);
    }
  }
}
