/**
  Scope calls and jumps: a BREAK, LOOP or ENDCASE leaves one scope and a RETURN none, so each of them keeps
  the depths of blocks consistent exactly where it happens to stand at the right depth.
 */
module ScopeJumps {
  import opened Wrappers
  import opened Syntax
  import opened Graph
  import opened Lowering
  import opened Simulation
  import opened Functions
  import opened DeferredStatements
  import opened Deferral
  import opened Ordering
  import opened ScopeBalance
  import opened ScopesExactly

  /** The depths a builder has found go on to be right for some graph. */
  ghost predicate Extend(d: seq<int>, g: Blocks) {
    exists e :: d <= e && Levels(g, e)
  }

  /** BREAK, LOOP and ENDCASE are right exactly one scope inside the construct they leave. */
  lemma JumpFits(p: Policy, b: Builder, d: seq<int>, k: int, ret: int, item: Item, targets: seq<nat>)
    requires Sound(b) && b.cur.Some? && IsJump(item) && targets in [b.breaks, b.loops, b.endcases]
    requires AtLevel(b, d, k, ret) && InBounds(targets, |d|)
    ensures Extend(d, Jump(p, b, item, targets).blocks) <==> OneInside(k, TargetLevel(targets, d))
  {
    hide LevelAt, Net, Steady;
    var r := Jump(p, b, item, targets);
    if OneInside(k, TargetLevel(targets, d)) {
      var e := LevelJump(p, b, d, k, item, targets, ret);
    }
    if Extend(d, r.blocks) {
      var e :| d <= e && Levels(r.blocks, e);
      NeededJump(p, b, item, targets, r.blocks, e, k, TargetLevel(targets, d)) by { JumpSealed(b, r); }
    }
  }

  lemma JumpSealed(b: Builder, r: Builder)
    requires r.cur == None
    ensures Sealed(b, r, r.blocks)
  {
  }

  /** RETURN is right exactly at the depth of the exit block. */
  lemma ReturnFits(p: Policy, b: Builder, d: seq<int>, k: int, ret: int)
    requires Sound(b) && b.cur.Some? && AtLevel(b, d, k, ret)
    ensures
      var r := ReturnJump(p, b);
      (exists e :: d <= e && Levels(r.blocks, e) && e[r.exit.value] == ret) <==> k == ret
  {
    hide LevelAt, Net, Steady;
    var r := ReturnJump(p, b);
    if k == ret {
      var e := LevelReturn(p, b, d, ret);
    }
    if exists e :: d <= e && Levels(r.blocks, e) && e[r.exit.value] == ret {
      var e :| d <= e && Levels(r.blocks, e) && e[r.exit.value] == ret;
      NeededReturn(p, b, r.blocks, e, k, ret) by { JumpSealed(b, r); }
    }
  }

  // ----- ordinary programs whose scope calls do not balance -----

  const SCOPED := Policy(true, false, {})

  /** A jump out of no scopes with variables: a scope-exit call and the jump, in the same block. */
  lemma JumpInPlace(b: Builder, item: Item, targets: seq<nat>)
    requires Sound(b) && b.cur.Some? && IsJump(item) && targets in [b.breaks, b.loops, b.endcases] && b.scopes == []
    ensures
      var r := Jump(SCOPED, b, item, targets);
      && |r.blocks| == |b.blocks| && r.blocks[b.cur.value].stmts == b.blocks[b.cur.value].stmts + [IExitScope, item]
      && r == b.(blocks := r.blocks, cur := None)
      && forall i :: 0 <= i < |b.blocks| && Some(i) != b.cur ==> SameFlow(r.blocks[i], b.blocks[i])
  {
  }

  lemma LoweredBreak(c: Expr)
    ensures
      var b := Lower(SCOPED, START, While(c, Break));
      && |b.blocks| == 4 && b.cur == Some(3) && b.exit == None
      && SameFlow(b.blocks[0], To([], 1)) && SameFlow(b.blocks[1], ToEither([IWhile(c)], 2, 3))
      && b.blocks[2].stmts == [IExitScope, IBreak]
  {
    hide Jump, OpenWhile;
    var s := While(c, Break);
    var b1 := OpenWhile(START, c);
    assert b1.scopes == [] && b1.blocks[2].stmts == [];
    JumpInPlace(b1, IBreak, b1.breaks);
    var b2 := Lower(SCOPED, b1, Break);
    assert b2 == Jump(SCOPED, b1, IBreak, b1.breaks) && b2.cur == None;
    var b3 := Close(b2, 1, Some(3));
    assert b3.blocks == b2.blocks;
    var b := Lower(SCOPED, START, s);
    assert b == LowerHere(SCOPED, START, s) == LowerWhile(SCOPED, START, s) == PopTargets(b3);
  }

  /** WHILE c DO BREAK: the jump leaves a scope although none is open. */
  lemma PlainBreakUnbalanced(c: Expr)
    ensures
      var g := BuildFunction(SCOPED, While(c, Break)).0;
      IsPath(g, [0, 1, 2]) && !NeverBelow(g, [0, 1, 2])
  {
    hide Lower, BuildFunction;
    var s := While(c, Break);
    LoweredBreak(c);
    BodyCollects(SCOPED, s);
    UndeferredFunction(SCOPED, s) by { assert DefersOf(s) == []; }
    var g := BuildFunction(SCOPED, s).0;
    assert g == FinishBody(Lower(SCOPED, START, s)).blocks;
    BelowZero(g, IWhile(c));
  }

  lemma BelowZero(g: Blocks, test: Item)
    requires |g| > 2 && SameFlow(g[0], To([], 1)) && SameFlow(g[1], ToEither([test], 2, 3)) && g[2].stmts == [IExitScope, IBreak]
    requires Delta(test) == 0
    ensures IsPath(g, [0, 1, 2]) && !NeverBelow(g, [0, 1, 2])
  {
    var path := [0, 1, 2];
    assert path[..2] == [0, 1] && path[..2][..1] == [0];
    assert IsPath(g, path[..2]) && IsPath(g, [0]);
    assert Net([test]) == 0 by { assert [test][..0] == []; }
    assert Depth(g, path) == 0;
    assert g[2].stmts[..1] == [IExitScope];
    assert Net([IExitScope]) == -1;
  }

  const ENTERED := START.(blocks := [BasicBlock([IEnterScope], [], [])], scopes := [[]])

  lemma EnterEmpty()
    ensures Sound(ENTERED) && EnterBlock(SCOPED, START, []) == ENTERED
  {
    var b := Emit(START, IEnterScope);
    assert b.blocks[0] == BasicBlock([] + [IEnterScope], [], []) && [] + [IEnterScope] == [IEnterScope];
    assert |b.blocks| == 1;
    assert b.blocks == ENTERED.blocks;
  }

  lemma ReturnInPlace()
    requires Sound(ENTERED)
    ensures
      var b := ReturnJump(SCOPED, ENTERED);
      && |b.blocks| == 2 && b == ENTERED.(blocks := b.blocks, cur := None, exit := Some(1))
      && SameFlow(b.blocks[0], To([IEnterScope, IReturn], 1))
  {
    assert ENTERED.scopes[..0] == [];
    assert CleanupChain(SCOPED, ENTERED.blocks, [], 0) == (ENTERED.blocks, 0);
    assert CleanupChain(SCOPED, ENTERED.blocks, ENTERED.scopes, 0) == (ENTERED.blocks, 0);
  }

  lemma LoweredReturn()
    ensures
      var b := Lower(SCOPED, START, Block([], [Return]));
      && |b.blocks| == 2 && b.cur == None && b.exit == Some(1) && SameFlow(b.blocks[0], To([IEnterScope, IReturn], 1))
  {
    hide EnterBlock, ReturnJump, CleanupChain;
    var s := Block([], [Return]);
    EnterEmpty();
    ReturnInPlace();
    assert Lower(SCOPED, ENTERED, Return) == ReturnJump(SCOPED, ENTERED);
    assert [Return][1..] == [];
    assert LowerSeq(SCOPED, ENTERED, [Return], false) == ReturnJump(SCOPED, ENTERED);
    assert Lower(SCOPED, START, s) == LowerBlock(SCOPED, START, s);
  }

  /** A RETURN inside a block leaves the function with the block's scope still open. */
  lemma ScopedReturnUnbalanced()
    ensures
      var (g, exit) := BuildFunction(SCOPED, Block([], [Return]));
      exit == Some(1) && IsPath(g, [0, 1]) && Depth(g, [0, 1]) == 1
  {
    hide Lower, BuildFunction;
    var s := Block([], [Return]);
    LoweredReturn();
    BodyCollects(SCOPED, s);
    UndeferredFunction(SCOPED, s) by { assert DefersOf(s) == [] by { assert [Return][1..] == []; } }
    var g := BuildFunction(SCOPED, s).0;
    assert g == FinishBody(Lower(SCOPED, START, s)).blocks;
    assert [IEnterScope, IReturn][..1] == [IEnterScope] && [IEnterScope][..0] == [];
    assert Net([IEnterScope, IReturn]) == 1;
    assert [0, 1][..1] == [0];
  }
}
