/** The builder records every edge on both sides, at every step. */
module Links {
  import opened Wrappers
  import opened Syntax
  import opened Graph
  import opened Lowering

  /** Whatever leads to the exit block leads nowhere else. */
  ghost predicate Feeders(g: Blocks, e: Option<nat>) {
    e.Some? ==> forall u :: 0 <= u < |g| && e.value in g[u].succs ==> g[u].succs == [e.value]
  }

  /** Edges stay inside the graph and are mirrored in the predecessor lists, duplicates included; e is the exit block. */
  ghost predicate WellLinked(g: Blocks, e: Option<nat>) {
    InRange(g) && Mirrored(g) && Feeders(g, e)
  }

  predicate NoTarget(targets: seq<nat>, e: Option<nat>) {
    e.None? || e.value !in targets
  }

  /** As WellLinked, for a builder: no jump of a loop or SWITCHON leads to the exit block. */
  ghost predicate Linked(b: Builder) {
    && WellLinked(b.blocks, b.exit)
    && NoTarget(b.breaks, b.exit) && NoTarget(b.loops, b.exit) && NoTarget(b.endcases, b.exit)
  }

  lemma LinkedEdge(g: Blocks, e: Option<nat>, u: nat, v: nat)
    requires WellLinked(g, e) && u < |g| && v < |g|
    requires if e == Some(v) then g[u].succs == [] else NoTarget(g[u].succs, e)
    ensures WellLinked(AddEdge(g, u, v), e)
  {
    hide Mirrored;
    AddEdgeMirrored(g, u, v);
  }

  lemma LinkedBlock(g: Blocks, e: Option<nat>, b: BasicBlock)
    requires WellLinked(g, e) && b.succs == [] && b.preds == []
    ensures WellLinked(g + [b], e) && (e.None? ==> WellLinked(g + [b], Some(|g|)))
  {
    var r := g + [b];
    forall u, v | 0 <= u < |r| && 0 <= v < |r| ensures Count(r[u].succs, v) == Count(r[v].preds, u) {
      if u < |g| && v < |g| {
        assert Count(g[u].succs, v) == Count(g[v].preds, u);
      } else if u < |g| {
        assert v !in g[u].succs;
      } else if v < |g| {
        assert u !in g[v].preds;
      }
    }
  }

  lemma {:induction false} LinkedBlocks(g: Blocks, e: Option<nat>, count: nat)
    requires WellLinked(g, e)
    ensures WellLinked(AddBlocks(g, count), e)
    decreases count
  {
    if count == 0 {
      assert AddBlocks(g, count) == g;
    } else {
      LinkedBlocks(g, e, count - 1);
      assert AddBlocks(g, count) == AddBlocks(g, count - 1) + [EMPTY_BLOCK];
      LinkedBlock(AddBlocks(g, count - 1), e, EMPTY_BLOCK);
    }
  }

  lemma LinkedStatement(g: Blocks, e: Option<nat>, i: nat, item: Item)
    requires WellLinked(g, e) && i < |g|
    ensures WellLinked(AddStatement(g, i, item), e)
  {
    var r := AddStatement(g, i, item);
    assert forall u :: 0 <= u < |g| ==> r[u].succs == g[u].succs && r[u].preds == g[u].preds;
    forall u, v | 0 <= u < |r| && 0 <= v < |r| ensures Count(r[u].succs, v) == Count(r[v].preds, u) {
      assert Count(g[u].succs, v) == Count(g[v].preds, u);
    }
  }

  lemma LinkedFork(g: Blocks, e: Option<nat>, u: nat, t: nat, f: nat)
    requires WellLinked(g, e) && u < |g| && t < |g| && f < |g| && g[u].succs == [] && NoTarget([t, f], e)
    ensures WellLinked(Fork(g, u, t, f), e)
  {
    hide WellLinked;
    assert e.Some? ==> [t, f][0] != e.value && [t, f][1] != e.value;
    LinkedEdge(g, e, u, t);
    LinkedEdge(AddEdge(g, u, t), e, u, f);
  }

  lemma LinkedLoop(g: Blocks, e: Option<nat>, u: nat, test: Item, count: nat)
    requires WellLinked(g, e) && u < |g| && g[u].succs == [] && count >= 2 && (e.Some? ==> e.value < |g|)
    ensures WellLinked(LoopBlocks(g, u, test, count), e)
  {
    hide WellLinked, Fork, AddStatement, AddBlocks;
    var n := |g|;
    LinkedBlocks(g, e, 1);
    LinkedEdge(AddBlocks(g, 1), e, u, n);
    var g1 := AddEdge(AddBlocks(g, 1), u, n);
    LinkedBlocks(g1, e, count);
    LinkedStatement(AddBlocks(g1, count), e, n, test);
    LinkedFork(AddStatement(AddBlocks(g1, count), n, test), e, n, n + 1, n + count);
  }

  lemma {:induction false} LinkedEdges(g: Blocks, e: Option<nat>, u: nat, first: nat, count: nat)
    requires WellLinked(g, e) && u < |g| && first + count <= |g| && NoTarget(g[u].succs, e) && (e.Some? ==> e.value < first)
    ensures WellLinked(AddEdges(g, u, first, count), e)
    decreases count
  {
    hide WellLinked;
    if count > 0 {
      LinkedEdges(g, e, u, first, count - 1);
      LinkedEdge(AddEdges(g, u, first, count - 1), e, u, first + count - 1);
    }
  }

  lemma LinkedSwitch(g: Blocks, e: Option<nat>, k: nat)
    requires WellLinked(g, e) && |g| > 0 && g[|g| - 1].succs == [] && (e.Some? ==> e.value < |g|)
    ensures WellLinked(SwitchBlocks(g, k), e)
  {
    hide WellLinked, AddEdges, AddBlocks;
    LinkedBlocks(g, e, 1 + k);
    LinkedEdges(AddBlocks(g, 1 + k), e, |g| - 1, |g| + 1, k);
    LinkedEdge(AddEdges(AddBlocks(g, 1 + k), |g| - 1, |g| + 1, k), e, |g| - 1, |g|);
  }

  lemma {:induction false} LinkedChain(p: Policy, g: Blocks, e: Option<nat>, scopes: seq<seq<string>>, last: nat)
    requires WellLinked(g, e) && last < |g| && g[last].succs == [] && !EndsWithControlFlow(g[last]) && (e.Some? ==> e.value < |g|)
    ensures WellLinked(CleanupChain(p, g, scopes, last).0, e)
    decreases |scopes|
  {
    hide WellLinked;
    if scopes != [] {
      var vars := scopes[|scopes| - 1];
      if vars == [] {
        LinkedChain(p, g, e, scopes[..|scopes| - 1], last);
      } else {
        var g1 := g + [BasicBlock(Frees(p, vars), [], [])];
        LinkedBlock(g, e, BasicBlock(Frees(p, vars), [], []));
        LinkedEdge(g1, e, last, |g|);
        LinkedChain(p, AddEdge(g1, last, |g|), e, scopes[..|scopes| - 1], |g|);
      }
    }
  }

  lemma LinkedJump(p: Policy, b: Builder, item: Item, targets: seq<nat>)
    requires Sound(b) && b.cur.Some? && IsJump(item) && targets in [b.breaks, b.loops, b.endcases] && Linked(b)
    ensures Linked(Jump(p, b, item, targets))
  {
    hide WellLinked, CleanupChain;
    var b1 := Emit(b, IExitScope);
    LinkedStatement(b.blocks, b.exit, b.cur.value, IExitScope);
    LinkedChain(p, b1.blocks, b.exit, b.scopes, b.cur.value);
    var (g, last) := CleanupChain(p, b1.blocks, b.scopes, b.cur.value);
    LinkedStatement(g, b.exit, last, item);
    if targets != [] {
      assert Last(targets) in targets;
      LinkedEdge(AddStatement(g, last, item), b.exit, last, Last(targets));
    }
  }

  lemma LinkedReturn(p: Policy, b: Builder)
    requires Sound(b) && b.cur.Some? && Linked(b)
    ensures Linked(ReturnJump(p, b))
  {
    hide WellLinked, CleanupChain;
    LinkedChain(p, b.blocks, b.exit, b.scopes, b.cur.value);
    var (g, last) := CleanupChain(p, b.blocks, b.scopes, b.cur.value);
    var g1 := AddStatement(g, last, IReturn);
    LinkedStatement(g, b.exit, last, IReturn);
    if b.exit.Some? {
      LinkedEdge(g1, b.exit, last, b.exit.value);
    } else {
      LinkedBlock(g1, None, EMPTY_BLOCK);
      LinkedEdge(g1 + [EMPTY_BLOCK], Some(|g1|), last, |g1|);
    }
  }

  lemma LinkedEnsure(b: Builder)
    requires Sound(b) && Linked(b)
    ensures Linked(Ensure(b))
  {
    hide WellLinked;
    LinkedBlock(b.blocks, b.exit, EMPTY_BLOCK);
  }

  lemma {:induction false} LinkedEmits(b: Builder, items: seq<Item>)
    requires Sound(b) && b.cur.Some? && Linked(b) && forall i :: 0 <= i < |items| ==> !IsJump(items[i])
    ensures Linked(EmitAll(b, items))
    decreases |items|
  {
    hide WellLinked;
    if items != [] {
      LinkedStatement(b.blocks, b.exit, b.cur.value, items[0]);
      LinkedEmits(Emit(b, items[0]), items[1..]);
    }
  }

  lemma LinkedClose(b: Builder, target: nat, next: Option<nat>)
    requires Sound(b) && target < |b.blocks| && (next.Some? ==> Pending(b, next.value)) && Linked(b) && b.exit != Some(target)
    ensures Linked(Close(b, target, next))
  {
    hide WellLinked;
    if b.cur.Some? { LinkedEdge(b.blocks, b.exit, b.cur.value, target); }
  }

  lemma {:induction false} LinkedLets(b: Builder, lets: seq<Let>)
    requires Sound(b) && Linked(b)
    ensures Linked(LowerLets(b, lets))
    decreases |lets|
  {
    hide WellLinked;
    if lets != [] {
      LinkedEnsure(b);
      var b1 := Ensure(b);
      if lets[0].init.Some? { LinkedStatement(b1.blocks, b1.exit, b1.cur.value, IAssign(lets[0].name, lets[0].init.value)); }
      LinkedLets(LowerLet(b, lets[0]), lets[1..]);
    }
  }

  /** No visit breaks the correspondence of successors and predecessors. */
  lemma {:induction false} LowerLinked(p: Policy, b: Builder, s: Stmt)
    requires Sound(b) && Linked(b)
    ensures Linked(Lower(p, b, s))
    decreases s, 3
  {
    hide WellLinked, Emit, Jump, ReturnJump, LowerIf, LowerTest, LowerWhile, LowerFor, LowerSwitch, LowerBlock, LowerSeq;
    LinkedEnsure(b);
    var a := Ensure(b);
    match s
    case Compound(ss) => LinkedSeq(p, b, ss, true);
    case Block(lets, ss) => LinkedBlockStmt(p, b, s);
    case Switchon(e, cases, dflt) => LinkedSwitchon(p, b, s);
    case Defer(d) =>
    case Assign(x, e) => LinkedEmit(a, IAssign(x, e));
    case Call(f, args) => LinkedEmit(a, ICall(f, args));
    case If(c, thn) => LinkedIf(p, a, s);
    case Test(c, thn, els) => LinkedTest(p, a, s);
    case While(c, body) => LinkedWhile(p, a, s);
    case For(v, start, limit, step, body) =>
      LinkedEmit(a, IAssign(v, start));
      LinkedFor(p, Emit(a, IAssign(v, start)), s);
    case Break => LinkedJump(p, a, IBreak, a.breaks);
    case Loop => LinkedJump(p, a, ILoop, a.loops);
    case Endcase => LinkedJump(p, a, IEndcase, a.endcases);
    case Return => LinkedReturn(p, a);
  }

  lemma LinkedEmit(b: Builder, item: Item)
    requires Sound(b) && b.cur.Some? && !IsJump(item) && Linked(b)
    ensures Linked(Emit(b, item))
  {
    LinkedStatement(b.blocks, b.exit, b.cur.value, item);
  }

  lemma LinkedIf(p: Policy, b: Builder, s: Stmt)
    requires Sound(b) && b.cur.Some? && s.If? && Linked(b)
    ensures Linked(LowerIf(p, b, s))
    decreases s, 0
  {
    hide WellLinked, Lower, Close, Fork, AddBlocks, InBounds;
    var n := |b.blocks|;
    var g := AddStatement(b.blocks, b.cur.value, IIf(s.c));
    LinkedStatement(b.blocks, b.exit, b.cur.value, IIf(s.c));
    LinkedBlocks(g, b.exit, 2);
    LinkedFork(AddBlocks(g, 2), b.exit, b.cur.value, n, n + 1);
    var b1 := OpenIf(b, s.c);
    LowerLinked(p, b1, s.thn);
    PendingGrows(b1, Lower(p, b1, s.thn), n + 1);
    LinkedClose(Lower(p, b1, s.thn), n + 1, Some(n + 1));
  }

  lemma LinkedTest(p: Policy, b: Builder, s: Stmt)
    requires Sound(b) && b.cur.Some? && s.Test? && Linked(b)
    ensures Linked(LowerTest(p, b, s))
    decreases s, 0
  {
    hide WellLinked, Lower, Close, Fork, AddBlocks, InBounds;
    var n := |b.blocks|;
    var g := AddStatement(b.blocks, b.cur.value, ITest(s.c));
    LinkedStatement(b.blocks, b.exit, b.cur.value, ITest(s.c));
    LinkedBlocks(g, b.exit, 3);
    LinkedFork(AddBlocks(g, 3), b.exit, b.cur.value, n, n + 1);
    var b1 := OpenTest(b, s.c);
    var b2 := Lower(p, b1, s.thn);
    LowerLinked(p, b1, s.thn);
    PendingGrows(b1, b2, n + 1);
    PendingGrows(b1, b2, n + 2);
    LinkedClose(b2, n + 2, Some(n + 1));
    var b3 := Close(b2, n + 2, Some(n + 1));
    PendingClose(b2, n + 2, Some(n + 1), n + 2);
    LowerLinked(p, b3, s.els);
    PendingGrows(b3, Lower(p, b3, s.els), n + 2);
    LinkedClose(Lower(p, b3, s.els), n + 2, Some(n + 2));
  }

  lemma LinkedWhile(p: Policy, b: Builder, s: Stmt)
    requires Sound(b) && b.cur.Some? && s.While? && Linked(b)
    ensures Linked(LowerWhile(p, b, s))
    decreases s, 0
  {
    hide WellLinked, Lower, Close, LoopBlocks, InBounds;
    var n := |b.blocks|;
    LinkedLoop(b.blocks, b.exit, b.cur.value, IWhile(s.c), 2);
    var b1 := OpenWhile(b, s.c);
    LowerLinked(p, b1, s.body);
    PendingGrows(b1, Lower(p, b1, s.body), n + 2);
    LinkedClose(Lower(p, b1, s.body), n, Some(n + 2));
  }

  lemma LinkedFor(p: Policy, b: Builder, s: Stmt)
    requires Sound(b) && b.cur.Some? && s.For? && Linked(b)
    ensures Linked(LowerFor(p, b, s))
    decreases s, 0
  {
    hide WellLinked, Lower, LoopBlocks, CloseFor, InBounds;
    var n := |b.blocks|;
    LinkedLoop(b.blocks, b.exit, b.cur.value, IFor(s.v, s.limit), 3);
    var b1 := OpenFor(b, s.v, s.limit);
    LowerLinked(p, b1, s.body);
    PendingGrows(b1, Lower(p, b1, s.body), n + 2);
    PendingGrows(b1, Lower(p, b1, s.body), n + 3);
    LinkedCloseFor(Lower(p, b1, s.body), n, s.v, s.step);
  }

  lemma LinkedCloseFor(b: Builder, n: nat, v: string, step: Option<Expr>)
    requires Sound(b) && Pending(b, n + 2) && Pending(b, n + 3) && b.breaks != [] && b.loops != [] && Linked(b) && b.exit != Some(n)
    ensures Linked(CloseFor(b, n, v, step))
  {
    hide WellLinked, Close, Emit, InBounds;
    var item := IAssign(v, StepExpr(v, step));
    LinkedClose(b, n + 2, Some(n + 2));
    var b1 := Close(b, n + 2, Some(n + 2));
    PendingClose(b, n + 2, Some(n + 2), n + 3);
    LinkedEmit(b1, item);
    PendingGrows(b1, Emit(b1, item), n + 3);
    LinkedClose(Emit(b1, item), n, Some(n + 3));
  }

  lemma LinkedOpenSwitch(b: Builder, e: Expr, cases: seq<Case>, dflt: Option<Stmt>)
    requires Sound(b) && Linked(b)
    ensures Linked(OpenSwitch(b, e, cases, dflt))
  {
    hide WellLinked, InBounds, SwitchBlocks, Values, Ids, CaseCount;
    var g := b.blocks + [EMPTY_BLOCK];
    LinkedBlock(b.blocks, b.exit, EMPTY_BLOCK);
    if b.cur.Some? { LinkedEdge(g, b.exit, b.cur.value, |b.blocks|); }
    var b1 := SplitBlock(b);
    var item := ISwitch(e, Values(cases), dflt.Some?);
    LinkedEmit(b1, item);
    LinkedSwitch(Emit(b1, item).blocks, b.exit, CaseCount(cases, dflt));
  }

  lemma LinkedCase(p: Policy, b: Builder, s: Stmt, at: nat, join: nat)
    requires Sound(b) && b.cur.None? && join < |b.blocks| && Pending(b, at) && join != at && Linked(b) && b.exit != Some(join)
    ensures Linked(LowerCase(p, b, s, at, join))
    decreases s, 4
  {
    hide WellLinked, Lower, Close, InBounds;
    var b1 := b.(cur := Some(at));
    LowerLinked(p, b1, s);
    LinkedClose(Lower(p, b1, s), join, None);
  }

  lemma {:induction false} LinkedCases(p: Policy, b: Builder, cases: seq<Case>, first: nat, join: nat)
    requires Sound(b) && b.cur.None? && join < first && first + |cases| <= |b.blocks| && Linked(b) && b.exit != Some(join)
    requires forall i :: first <= i < first + |cases| ==> Pending(b, i)
    ensures Linked(LowerCases(p, b, cases, first, join))
    decreases cases, 0
  {
    hide WellLinked, LowerCase, InBounds;
    if cases != [] {
      assert Pending(b, first) && cases[0].command < cases[0];
      LinkedCase(p, b, cases[0].command, first, join);
      var b1 := LowerCase(p, b, cases[0].command, first, join);
      PendingCases(b, b1, first, first + |cases|);
      LinkedCases(p, b1, cases[1..], first + 1, join);
    }
  }

  lemma LinkedSwitchon(p: Policy, b: Builder, s: Stmt)
    requires Sound(b) && s.Switchon? && Linked(b)
    ensures Linked(LowerSwitch(p, b, s))
    decreases s, 0
  {
    hide WellLinked, OpenSwitch, LowerCases, LowerCase, InBounds;
    var n := |b.blocks|;
    LinkedOpenSwitch(b, s.e, s.cases, s.dflt);
    LinkedCases(p, OpenSwitch(b, s.e, s.cases, s.dflt), s.cases, n + 2, n + 1);
    var b1 := SwitchCased(p, b, s);
    if s.dflt.Some? { LinkedCase(p, b1, s.dflt.value, n + 2 + |s.cases|, n + 1); }
  }

  lemma {:induction false} LinkedSeq(p: Policy, b: Builder, ss: seq<Stmt>, anew: bool)
    requires Sound(b) && Linked(b)
    ensures Linked(LowerSeq(p, b, ss, anew))
    decreases ss, 0
  {
    hide WellLinked, Lower, Ensure, InBounds;
    if ss != [] {
      LinkedEnsure(b);
      var a := if anew then Ensure(b) else b;
      LowerLinked(p, a, ss[0]);
      LinkedSeq(p, Lower(p, a, ss[0]), ss[1..], anew);
    }
  }

  lemma LinkedBlockStmt(p: Policy, b: Builder, s: Stmt)
    requires Sound(b) && s.Block? && Linked(b)
    ensures Linked(LowerBlock(p, b, s))
    decreases s, 0
  {
    hide WellLinked, LowerSeq, LowerLets, EmitAll, InBounds;
    LinkedEnsure(b);
    if p.scopeCalls { LinkedEmit(Ensure(b), IEnterScope); }
    var b1 := if p.scopeCalls then Emit(Ensure(b), IEnterScope) else b;
    LinkedLets(b1.(scopes := b1.scopes + [[]]), s.lets);
    var b2 := EnterBlock(p, b, s.lets);
    LinkedSeq(p, b2, s.ss, false);
    LinkedLeave(p, LowerSeq(p, b2, s.ss, false));
  }

  lemma LinkedLeave(p: Policy, b: Builder)
    requires Sound(b) && b.scopes != [] && Linked(b)
    ensures Linked(LeaveBlock(p, b))
  {
    hide WellLinked, EmitAll, InBounds;
    if b.cur.Some? { LinkedEmits(b.(scopes := b.scopes[..|b.scopes| - 1]), LeaveItems(p, Last(b.scopes))); }
  }
}
