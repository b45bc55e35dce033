/**
  Deferred statements that fork. The edge from the cleanup block to the exit block is added to the block in
  which cleaning up starts; when a deferred statement has given that block successors already, the edge is one
  too many, and nothing in the block says when to take it.
 */
module DeferredBranches {
  import opened Wrappers
  import opened Syntax
  import opened Graph
  import opened Lowering
  import opened Forward
  import opened Functions
  import opened DeferredStatements
  import opened Deferral

  predicate Branching(s: Stmt) {
    s.If? || s.Test? || s.While? || s.For? || s.Switchon?
  }

  predicate IsTest(item: Item) {
    item.IIf? || item.ITest? || item.IWhile? || item.IFor? || item.ISwitch?
  }

  predicate Quiet(items: seq<Item>) {
    forall i :: 0 <= i < |items| ==> !IsTest(items[i])
  }

  /** With one more successor, no branch of the block is ever taken. */
  ghost predicate Overloaded(b: BasicBlock) {
    forall env, st, extra :: Branch(env, With(b, extra), st) == None
  }

  function With(b: BasicBlock, extra: nat): BasicBlock {
    b.(succs := b.succs + [extra])
  }

  /** What the block in which a branching statement starts is left with. */
  ghost predicate Branched(b: Builder, r: Builder, block: BasicBlock)
    requires b.cur.Some?
  {
    r.cur != b.cur && b.cur.value < |b.blocks| <= |r.blocks| && SameFlow(r.blocks[b.cur.value], block)
  }

  lemma IfBranched(p: Policy, b: Builder, s: Stmt)
    requires Sound(b) && b.cur.Some? && s.If?
    ensures
      var n := |b.blocks|;
      Branched(b, LowerIf(p, b, s), ToEither(b.blocks[b.cur.value].stmts + [IIf(s.c)], n, n + 1))
  {
    hide OpenIf, Lower;
    PendingGrows(OpenIf(b, s.c), Lower(p, OpenIf(b, s.c), s.thn), |b.blocks| + 1);
  }

  lemma TestBranched(p: Policy, b: Builder, s: Stmt)
    requires Sound(b) && b.cur.Some? && s.Test?
    ensures
      var n := |b.blocks|;
      Branched(b, LowerTest(p, b, s), ToEither(b.blocks[b.cur.value].stmts + [ITest(s.c)], n, n + 1))
  {
    hide OpenTest, Lower;
    var n := |b.blocks|;
    var b1 := OpenTest(b, s.c);
    var b2 := Lower(p, b1, s.thn);
    PendingGrows(b1, b2, n + 1);
    PendingGrows(b1, b2, n + 2);
    var b3 := Close(b2, n + 2, Some(n + 1));
    PendingClose(b2, n + 2, Some(n + 1), n + 2);
    PendingGrows(b3, Lower(p, b3, s.els), n + 2);
  }

  lemma WhileBranched(p: Policy, b: Builder, s: Stmt)
    requires Sound(b) && b.cur.Some? && s.While?
    ensures Branched(b, LowerWhile(p, b, s), To(b.blocks[b.cur.value].stmts, |b.blocks|))
  {
    hide OpenWhile, Lower;
    PendingGrows(OpenWhile(b, s.c), Lower(p, OpenWhile(b, s.c), s.body), |b.blocks| + 2);
  }

  lemma ForBranched(p: Policy, b: Builder, s: Stmt)
    requires Sound(b) && b.cur.Some? && s.For?
    ensures Branched(b, LowerFor(p, b, s), To(b.blocks[b.cur.value].stmts, |b.blocks|))
  {
    hide OpenFor, Lower, CloseFor;
    var b1 := OpenFor(b, s.v, s.limit);
    PendingGrows(b1, Lower(p, b1, s.body), |b.blocks| + 2);
    PendingGrows(b1, Lower(p, b1, s.body), |b.blocks| + 3);
  }

  lemma SwitchBranched(p: Policy, b: Builder, s: Stmt)
    requires Sound(b) && b.cur.Some? && s.Switchon?
    ensures Branched(b, LowerSwitch(p, b, s), To(b.blocks[b.cur.value].stmts, |b.blocks|))
  {
    hide OpenSwitch, LowerCases, LowerDefault;
    var n := |b.blocks|;
    var b1 := OpenSwitch(b, s.e, s.cases, s.dflt);
    var b2 := SwitchCased(p, b, s);
    assert b2 == LowerCases(p, b1, s.cases, n + 2, n + 1);
  }

  /** The statement has led out of the block it started in, which no longer knows where to go. */
  ghost predicate Forked(b: Builder, r: Builder)
    requires Open(b)
  {
    && r.cur != b.cur && b.cur.value < |r.blocks|
    && r.blocks[b.cur.value].succs != [] && Overloaded(r.blocks[b.cur.value])
  }

  lemma BranchForks(p: Policy, b: Builder, s: Stmt)
    requires Sound(b) && b.cur.Some? && Quiet(b.blocks[b.cur.value].stmts) && Branching(s)
    ensures Forked(b, Lower(p, b, s))
  {
    hide LowerIf, LowerTest, LowerWhile, LowerFor, LowerSwitch, Emit;
    match s
    case If(_, _) => IfBranched(p, b, s);
    case Test(_, _, _) => TestBranched(p, b, s);
    case While(_, _) => WhileBranched(p, b, s);
    case For(v, start, _, _, _) => ForBranched(p, Emit(b, IAssign(v, start)), s);
    case Switchon(_, _, _) => SwitchBranched(p, b, s);
    case _ => assert false;
  }

  // ----- jumps -----

  predicate Variables(scopes: seq<seq<string>>) {
    exists i :: 0 <= i < |scopes| && scopes[i] != []
  }

  /** Variables in scope lead out of the block, to the block that cleans up the innermost of them. */
  lemma {:induction false} ChainLeads(p: Policy, g: Blocks, scopes: seq<seq<string>>, last: nat)
    requires last < |g| && g[last].succs == [] && !EndsWithControlFlow(g[last])
    ensures
      var (r, end) := CleanupChain(p, g, scopes, last);
      if Variables(scopes) then end != last && r[last].succs == [|g|] else (r, end) == (g, last)
    decreases |scopes|
  {
    if scopes != [] {
      var n := |scopes| - 1;
      assert Variables(scopes) <==> scopes[n] != [] || Variables(scopes[..n]);
      if scopes[n] == [] { ChainLeads(p, g, scopes[..n], last); }
    }
  }

  /** Outside every loop and SWITCHON, in a block that ends in no test. */
  ghost predicate Ready(b: Builder, vars: bool) {
    && Sound(b) && b.cur.Some? && b.breaks == [] && b.loops == [] && b.endcases == []
    && vars == Variables(b.scopes) && Quiet(b.blocks[b.cur.value].stmts)
  }

  lemma JumpForks(p: Policy, b: Builder, item: Item)
    requires Ready(b, true) && IsJump(item)
    ensures Forked(b, Jump(p, b, item, []))
  {
    hide CleanupChain, Variables;
    ChainLeads(p, Emit(b, IExitScope).blocks, b.scopes, b.cur.value);
  }

  lemma ReturnForks(p: Policy, b: Builder)
    requires Sound(b) && b.cur.Some? && Quiet(b.blocks[b.cur.value].stmts)
    ensures Forked(b, ReturnJump(p, b))
  {
    hide CleanupChain, Variables;
    ChainLeads(p, b.blocks, b.scopes, b.cur.value);
  }

  // ----- a list of deferred statements -----

  lemma {:induction false} StaysQuiet(p: Policy, s: Stmt, vars: bool)
    requires WayOf(s, vars) == Stays
    ensures Quiet(Items(p, s, vars))
    decreases s, 1
  {
    match s
    case Compound(ss) => AllStayQuiet(p, ss, vars);
    case Block(lets, ss) => AllStayQuiet(p, ss, vars || lets != []);
    case _ =>
  }

  lemma {:induction false} AllStayQuiet(p: Policy, ss: seq<Stmt>, vars: bool)
    requires WayOfAll(ss, vars) == Stays
    ensures Quiet(AllItems(p, ss, vars))
    decreases ss, 0
  {
    if ss != [] {
      StaysQuiet(p, ss[0], vars);
      AllStayQuiet(p, ss[1..], vars);
    }
  }

  lemma ReadyExtended(b: Builder, vars: bool, r: Builder, items: seq<Item>)
    requires Ready(b, vars) && Sound(r) && Quiet(items)
    requires r == Extended(b, items).(defers := r.defers)
    ensures Ready(r, vars)
  {
  }

  /** A statement that forks leaves the block it starts in with successors, and with no room for another. */
  lemma {:induction false} ForksLower(p: Policy, b: Builder, s: Stmt, vars: bool)
    requires Ready(b, vars) && WayOf(s, vars) == Forks
    ensures Forked(b, Lower(p, b, s))
    decreases s, 1
  {
    hide Forked, Variables, Jump, ReturnJump, LowerBlock, LowerSeq, LowerSwitch;
    match s
    case Compound(ss) => ForksLowerAll(p, b, ss, true, vars);
    case Block(lets, ss) => ForksLowerBlock(p, b, s, vars);
    case Break => JumpForks(p, b, IBreak);
    case Loop => JumpForks(p, b, ILoop);
    case Endcase => JumpForks(p, b, IEndcase);
    case Return => ReturnForks(p, b);
    case _ => BranchForks(p, b, s);
  }

  lemma {:induction false} ForksLowerBlock(p: Policy, b: Builder, s: Stmt, vars: bool)
    requires Ready(b, vars) && s.Block? && WayOf(s, vars) == Forks
    ensures Forked(b, LowerBlock(p, b, s))
    decreases s, 0
  {
    hide EnterBlock, LeaveBlock, LowerSeq, EnterItems, Keeps, InBounds, Overloaded;
    var b1 := EnterBlock(p, b, s.lets);
    EnterExtends(p, b, s.lets);
    EnterReady(p, b, s.lets, vars);
    ForksLowerAll(p, b1, s.ss, false, vars || s.lets != []);
    LeaveForked(p, b1, LowerSeq(p, b1, s.ss, false));
  }

  lemma EnterReady(p: Policy, b: Builder, lets: seq<Let>, vars: bool)
    requires Ready(b, vars)
    ensures Ready(EnterBlock(p, b, lets), vars || lets != [])
  {
    hide EnterBlock, InBounds, Keeps, Variables;
    EnterExtends(p, b, lets);
    MoreVariables(b.scopes, Names(lets));
  }

  lemma MoreVariables(scopes: seq<seq<string>>, names: seq<string>)
    ensures Variables(scopes + [names]) <==> Variables(scopes) || names != []
  {
    var more := scopes + [names];
    assert more[|scopes|] == names;
    if Variables(scopes) {
      var i :| 0 <= i < |scopes| && scopes[i] != [];
      assert more[i] != [];
    }
  }

  lemma LeaveForked(p: Policy, b: Builder, r: Builder)
    requires Open(b) && Sound(r) && r.scopes != [] && Forked(b, r)
    ensures Forked(b, LeaveBlock(p, r))
  {
    hide Overloaded, InBounds;
    var r' := LeaveBlock(p, r);
    assert SameFlow(r.blocks[b.cur.value], r'.blocks[b.cur.value]);
    SameOverload(r.blocks[b.cur.value], r'.blocks[b.cur.value]);
  }

  lemma ForkedLater(b: Builder, r: Builder, r': Builder)
    requires Open(b) && Forked(b, r) && Grows(r, r')
    ensures Forked(b, r')
  {
    hide Overloaded;
    assert SameFlow(r.blocks[b.cur.value], r'.blocks[b.cur.value]);
    SameOverload(r.blocks[b.cur.value], r'.blocks[b.cur.value]);
  }

  lemma {:induction false} ForksLowerAll(p: Policy, b: Builder, ss: seq<Stmt>, anew: bool, vars: bool)
    requires Ready(b, vars) && WayOfAll(ss, vars) == Forks
    ensures Forked(b, LowerSeq(p, b, ss, anew))
    decreases ss, 0
  {
    hide Lower, LowerSeq, Keeps, InBounds, Overloaded, Variables;
    var b1 := Lower(p, b, ss[0]);
    FirstOfSeq(p, b, ss, anew);
    if WayOf(ss[0], vars) == Stays {
      StaysLower(p, b, ss[0], vars);
      StaysQuiet(p, ss[0], vars);
      ReadyExtended(b, vars, b1, Items(p, ss[0], vars));
      ForksLowerAll(p, b1, ss[1..], anew, vars);
    } else {
      ForksLower(p, b, ss[0], vars);
      ForkedLater(b, b1, LowerSeq(p, b, ss, anew));
    }
  }

  /** One statement that forks among the deferred ones that are reached overloads the block in which cleaning up starts. */
  lemma {:induction false} DefersOverload(p: Policy, b: Builder, defers: seq<Stmt>)
    requires Ready(b, false) && !Deferrable(defers)
    ensures Forked(b, LowerDefers(p, b, defers))
    decreases |defers|
  {
    hide Lower, InBounds, Keeps, Overloaded, Variables;
    var (d, others) := (defers[|defers| - 1], defers[..|defers| - 1]);
    var b1 := Lower(p, b, d);
    if WayOf(d, false) == Stays {
      StaysLower(p, b, d, false);
      StaysQuiet(p, d, false);
      ReadyExtended(b, false, b1, Items(p, d, false));
      DefersOverload(p, b1, others);
    } else {
      ForksLower(p, b, d, false);
      ForkedLater(b, b1, LowerDefers(p, b1, others));
    }
  }

  lemma SameOverload(a: BasicBlock, b: BasicBlock)
    requires SameFlow(a, b) && Overloaded(a)
    ensures Overloaded(b)
  {
    forall env, st, extra ensures Branch(env, With(b, extra), st) == None {
      assert Branch(env, With(a, extra), st) == None;
    }
  }

  lemma OverloadedStuck(env: Env, b: BasicBlock, a: BasicBlock, extra: nat, st: Store)
    requires Overloaded(a) && b.stmts == a.stmts && b.succs == a.succs + [extra]
    ensures Branch(env, b, st) == None
  {
    assert Branch(env, With(a, extra), st) == None;
  }

  lemma CleanupReady(p: Policy, s: Stmt)
    requires BuildBody(p, s).exit.Some?
    ensures Ready(CleanupStart(p, s), false) && Bare(CleanupStart(p, s))
  {
    hide Lower, BuildBody;
    CleanupStartIs(p, s);
    LinkedBody(p, s);
  }

  /** Lowering the deferred statements leaves the cleanup block without successors of its own if and only if none that is reached forks. */
  lemma CleanupStays(p: Policy, s: Stmt)
    requires BuildBody(p, s).exit.Some?
    ensures
      var b1 := CleanupStart(p, s);
      LowerDefers(p, b1, DefersOf(s)).blocks[b1.cur.value].succs == [] <==> Deferrable(DefersOf(s))
  {
    hide Lower, BuildBody, CleanupStart, Overloaded, Variables;
    var b1 := CleanupStart(p, s);
    CleanupReady(p, s);
    if Deferrable(DefersOf(s)) { DefersLower(p, b1, DefersOf(s)); } else { DefersOverload(p, b1, DefersOf(s)); }
  }

  /** The block in which cleaning up starts, in the finished graph: its own successors and then the exit block. */
  lemma CleanupOverloaded(p: Policy, s: Stmt)
    requires var b := BuildBody(p, s); b.exit.Some? && !Deferrable(b.defers)
    ensures
      var (g, c) := (BuildFunction(p, s).0, |BuildBody(p, s).blocks|);
      && c < |g| && (forall env, st :: Branch(env, g[c], st) == None)
      && forall u :: 0 <= u < |g| && u != c ==> BuildBody(p, s).exit.value !in g[u].succs
  {
    hide Lower, Rewire, Branch, Mirrored, BuildBody, LowerDefers, Overloaded, Variables;
    var b := BuildBody(p, s);
    var (b1, exit) := (CleanupStart(p, s), b.exit.value);
    var c := b1.cur.value;
    var b2 := LowerDefers(p, b1, b.defers);
    CleanupReady(p, s);
    DefersOverload(p, b1, b.defers);
    BodyExit(p, s);
    LinkedDefers(p, b1, b.defers);
    AddEdgeConsistent(b2.blocks, c, exit);
    var g0 := AddEdge(b2.blocks, c, exit);
    RewireLinked(g0, exit, c);
    RewiredSuccs(g0, exit, c, c);
    var g := BuildFunction(p, s).0;
    assert g == Rewire(g0, exit, c);
    forall env, st ensures Branch(env, g[c], st) == None { OverloadedStuck(env, g[c], b2.blocks[c], exit, st); }
  }

  // ----- functions -----

  lemma {:induction false} NeverEntered(env: Env, g: Blocks, exit: nat, c: nat, d: Config, n: nat)
    requires c < |g| && d.block != exit && (forall st :: Branch(env, g[c], st) == None)
    requires forall u :: 0 <= u < |g| && u != c ==> exit !in g[u].succs
    ensures Run(env, g, n, d).Some? ==> Run(env, g, n, d).value.block != exit
    decreases n
  {
    hide Branch;
    if n > 0 && Step(env, g, d).Some? {
      if d.pos >= |g[d.block].stmts| { BranchInRange(env, g[d.block], d.st); }
      NeverEntered(env, g, exit, c, Step(env, g, d).value, n - 1);
    }
  }

  /** When a deferred statement forks, no run ever gets to the exit block, whatever the body does. */
  lemma DeferredForkStuck(env: Env, p: Policy, s: Stmt, st: Store, st2: Store)
    requires !Deferrable(DefersOf(s))
    ensures !Reaches(env, BuildFunction(p, s).0, st, BuildFunction(p, s).1, st2)
  {
    hide Lower, Rewire, Branch, BuildFunction, FinishBody;
    BodyCollects(p, s);
    if BuildBody(p, s).exit.Some? {
      CleanupOverloaded(p, s);
      BodyExit(p, s);
      var (g, exit) := (BuildFunction(p, s).0, BuildBody(p, s).exit.value);
      forall n ensures Run(env, g, n, At(0, 0, st)) != Some(At(exit, 0, st2)) {
        NeverEntered(env, g, exit, |BuildBody(p, s).blocks|, At(0, 0, st), n);
      }
    }
  }

  ghost predicate Leavable(env: Env, s: Stmt) {
    exists st, st1 :: Leaves(env, s, st, st1)
  }

  ghost predicate Returns(env: Env, p: Policy, s: Stmt) {
    exists st, st2 :: Reaches(env, BuildFunction(p, s).0, st, BuildFunction(p, s).1, st2)
  }

  /** A function whose body can be left at all ever returns if and only if none of its deferred statements forks. */
  lemma ReturnsUnlessForked(env: Env, p: Policy, s: Stmt)
    requires Leavable(env, s)
    ensures Returns(env, p, s) <==> Deferrable(DefersOf(s))
  {
    hide BuildFunction, Leaves, Reaches, Deferrable;
    if Deferrable(DefersOf(s)) {
      var st, st1 :| Leaves(env, s, st, st1);
      FunctionPreserved(env, p, s, st, Cleanup(env, DefersOf(s), st1));
    } else {
      forall st, st2 { DeferredForkStuck(env, p, s, st, st2); }
    }
  }
}
