/**
  Scope balance: the calls that enter and leave heap scopes are well nested on every path through the
  graph of a function, and every block is entered at one depth.
 */
module ScopeBalance {
  import opened Wrappers
  import opened Syntax
  import opened Graph
  import opened Lowering
  import opened Functions

  function Delta(item: Item): int {
    if item.IEnterScope? then 1 else if item.IExitScope? then -1 else 0
  }

  function Net(items: seq<Item>): int {
    if items == [] then 0 else Net(items[..|items| - 1]) + Delta(items[|items| - 1])
  }

  /** Entered at depth d, a block never leaves a scope that is not open. */
  predicate Steady(items: seq<Item>, d: int) {
    if items == [] then d >= 0 else Steady(items[..|items| - 1], d) && d + Net(items) >= 0
  }

  lemma NetAppend(items: seq<Item>, item: Item, d: int)
    ensures Net(items + [item]) == Net(items) + Delta(item)
    ensures Steady(items + [item], d) <==> Steady(items, d) && d + Net(items) + Delta(item) >= 0
  {
    assert (items + [item])[..|items|] == items;
  }

  // ----- depths of blocks -----

  /** Nothing is asked of a block below depth 0: it is one that no path gets to. */
  ghost predicate LevelAt(g: Blocks, d: seq<int>, u: nat)
    requires |d| == |g| && u < |g|
  {
    d[u] >= 0 ==> Steady(g[u].stmts, d[u]) && forall i :: 0 <= i < |g[u].succs| ==> g[u].succs[i] < |g| && d[g[u].succs[i]] == d[u] + Net(g[u].stmts)
  }

  /** d assigns every block that can be reached the depth at which it is entered, along whatever edge. */
  ghost predicate Levels(g: Blocks, d: seq<int>) {
    |d| == |g| && forall u :: 0 <= u < |g| ==> LevelAt(g, d, u)
  }

  /** The depth of the block a jump would go to. */
  function TargetLevel(targets: seq<nat>, d: seq<int>): Option<int>
    requires InBounds(targets, |d|)
  {
    if targets == [] then None else Some(d[Last(targets)])
  }

  /** A builder in the middle of its work: k scopes are open where building goes on, and ret in the exit block. */
  ghost predicate AtLevel(b: Builder, d: seq<int>, k: int, ret: int)
    requires Sound(b)
  {
    && Levels(b.blocks, d) && k >= 0
    && b.cur.Some? && d[b.cur.value] >= 0 && d[b.cur.value] + Net(b.blocks[b.cur.value].stmts) == k
    && (b.exit.Some? ==> d[b.exit.value] == ret)
  }

  /** No path gets to where building goes on. */
  ghost predicate Dead(b: Builder, d: seq<int>, ret: int)
    requires Sound(b)
  {
    && Levels(b.blocks, d)
    && (b.cur.Some? ==> d[b.cur.value] < 0)
    && (b.exit.Some? ==> d[b.exit.value] == ret)
  }

  ghost predicate After(b: Builder, d: seq<int>, k: int, live: bool, ret: int)
    requires Sound(b)
  {
    if live then AtLevel(b, d, k, ret) else Dead(b, d, ret)
  }

  /** Where the jumps of a statement lead, and at which depth a RETURN leaves the body. */
  datatype Depths = Depths(brk: Option<int>, loop: Option<int>, endcase: Option<int>, ret: int)

  function DepthsOf(b: Builder, d: seq<int>, ret: int): Depths
    requires InBounds(b.breaks, |d|) && InBounds(b.loops, |d|) && InBounds(b.endcases, |d|)
  {
    Depths(TargetLevel(b.breaks, d), TargetLevel(b.loops, d), TargetLevel(b.endcases, d), ret)
  }

  /**
    A jump leaves exactly one scope, whatever it jumps out of, and RETURN leaves none; so a BREAK, LOOP
    or ENDCASE belongs exactly one scope inside what it jumps to, and all RETURNs at one depth. What
    stands behind a statement that does not fall through is never reached and may be anything.
   */
  predicate Fits(p: Policy, s: Stmt, k: int, t: Depths)
    decreases s, 1
  {
    match s
    case If(c, thn) => Fits(p, thn, k, t)
    case Test(c, thn, els) => Fits(p, thn, k, t) && Fits(p, els, k, t)
    case While(c, body) => Fits(p, body, k, t.(brk := Some(k), loop := Some(k)))
    case For(v, start, limit, step, body) => Fits(p, body, k, t.(brk := Some(k), loop := Some(k)))
    case Switchon(e, cases, dflt) =>
      var t1 := t.(endcase := Some(k));
      FitsCases(p, cases, k, t1) && (dflt.Some? ==> Fits(p, dflt.value, k, t1))
    case Compound(ss) => FitsAll(p, ss, k, t)
    case Block(lets, ss) => FitsAll(p, ss, if p.scopeCalls then k + 1 else k, t)
    case Break => OneInside(k, t.brk)
    case Loop => OneInside(k, t.loop)
    case Endcase => OneInside(k, t.endcase)
    case Return => k == t.ret
    case _ => true
  }

  predicate FitsCases(p: Policy, cases: seq<Case>, k: int, t: Depths)
    decreases cases, 0
  {
    cases == [] || (assert cases[0].command < cases[0]; Fits(p, cases[0].command, k, t) && FitsCases(p, cases[1..], k, t))
  }

  predicate FitsAll(p: Policy, ss: seq<Stmt>, k: int, t: Depths)
    decreases ss, 0
  {
    ss == [] || (Fits(p, ss[0], k, t) && (Falls(ss[0]) ==> FitsAll(p, ss[1..], k, t)))
  }

  /** Some path through the graph of the statement goes on behind it. */
  predicate Falls(s: Stmt)
    decreases s, 1
  {
    match s
    case Test(c, thn, els) => Falls(thn) || Falls(els)
    case Compound(ss) => FallsAll(ss)
    case Block(lets, ss) => FallsAll(ss)
    case Break => false
    case Loop => false
    case Endcase => false
    case Return => false
    case _ => true
  }

  predicate FallsAll(ss: seq<Stmt>)
    decreases ss, 0
  {
    ss == [] || (Falls(ss[0]) && FallsAll(ss[1..]))
  }

  predicate OneInside(k: int, target: Option<int>) {
    k >= 1 && (target.Some? ==> k == target.value + 1)
  }

  // ----- one step of building -----

  lemma LevelBlock(g: Blocks, d: seq<int>, k: int)
    requires Levels(g, d)
    ensures Levels(g + [EMPTY_BLOCK], d + [k])
  {
    var r, e := g + [EMPTY_BLOCK], d + [k];
    forall u | 0 <= u < |r| ensures LevelAt(r, e, u) {
      if u < |g| { assert LevelAt(g, d, u); }
    }
  }

  function Flat(n: nat, k: int): (s: seq<int>)
    ensures |s| == n && forall i :: 0 <= i < n ==> s[i] == k
  {
    seq(n, _ => k)
  }

  lemma {:induction false} LevelBlocks(g: Blocks, d: seq<int>, n: nat, k: int)
    requires Levels(g, d)
    ensures Levels(AddBlocks(g, n), d + Flat(n, k))
    decreases n
  {
    hide LevelAt;
    if n == 0 {
      assert AddBlocks(g, n) == g && d + Flat(n, k) == d;
    } else {
      LevelBlocks(g, d, n - 1, k);
      LevelBlock(AddBlocks(g, n - 1), d + Flat(n - 1, k), k);
      assert AddBlocks(g, n) == AddBlocks(g, n - 1) + [EMPTY_BLOCK];
      assert d + Flat(n, k) == d + Flat(n - 1, k) + [k];
    }
  }

  lemma LevelEdge(g: Blocks, d: seq<int>, u: nat, v: nat)
    requires Levels(g, d) && u < |g| && v < |g| && (d[u] >= 0 ==> d[v] == d[u] + Net(g[u].stmts))
    ensures Levels(AddEdge(g, u, v), d)
  {
    var r := AddEdge(g, u, v);
    forall w | 0 <= w < |r| ensures LevelAt(r, d, w) {
      assert LevelAt(g, d, w);
    }
  }

  lemma LevelStatement(g: Blocks, d: seq<int>, u: nat, item: Item)
    requires Levels(g, d) && u < |g| && g[u].succs == [] && d[u] + Net(g[u].stmts) + Delta(item) >= 0
    ensures Levels(AddStatement(g, u, item), d)
    ensures Net(AddStatement(g, u, item)[u].stmts) == Net(g[u].stmts) + Delta(item)
  {
    var r := AddStatement(g, u, item);
    NetAppend(g[u].stmts, item, d[u]);
    forall w | 0 <= w < |r| ensures LevelAt(r, d, w) {
      assert LevelAt(g, d, w);
    }
  }

  lemma LevelFork(g: Blocks, d: seq<int>, u: nat, t: nat, f: nat)
    requires Levels(g, d) && u < |g| && t < |g| && f < |g| && g[u].succs == []
    requires d[t] == d[u] + Net(g[u].stmts) == d[f]
    ensures Levels(Fork(g, u, t, f), d)
  {
    hide LevelAt;
    LevelEdge(g, d, u, t);
    LevelEdge(AddEdge(g, u, t), d, u, f);
  }

  lemma LevelEmit(b: Builder, d: seq<int>, k: int, item: Item, ret: int)
    requires Sound(b) && b.cur.Some? && AtLevel(b, d, k, ret) && !IsJump(item) && k + Delta(item) >= 0
    ensures AtLevel(Emit(b, item), d, k + Delta(item), ret)
  {
    hide LevelAt;
    LevelStatement(b.blocks, d, b.cur.value, item);
  }

  lemma {:induction false} LevelEmits(b: Builder, d: seq<int>, k: int, items: seq<Item>, ret: int)
    requires Sound(b) && b.cur.Some? && AtLevel(b, d, k, ret) && forall i :: 0 <= i < |items| ==> !IsJump(items[i])
    requires forall i :: 0 <= i < |items| ==> Delta(items[i]) == 0
    ensures AtLevel(EmitAll(b, items), d, k, ret)
    decreases |items|
  {
    hide LevelAt, Emit, InBounds, Keeps, SameFlow, Net, Steady;
    if items != [] {
      LevelEmit(b, d, k, items[0], ret);
      LevelEmits(Emit(b, items[0]), d, k, items[1..], ret);
    }
  }

  /** Falling into a block of the depth reached, and going on in one of depth k or in one that is not reached. */
  lemma LevelClose(b: Builder, d: seq<int>, k: int, live: bool, target: nat, next: Option<nat>, ret: int)
    requires Sound(b) && target < |b.blocks| && (next.Some? ==> Pending(b, next.value)) && After(b, d, k, live, ret) && k >= 0
    requires (live ==> d[target] == k) && (next.Some? ==> d[next.value] == k || d[next.value] < 0)
    ensures After(Close(b, target, next), d, k, next.Some? && d[next.value] >= 0, ret)
  {
    hide LevelAt;
    if b.cur.Some? { LevelEdge(b.blocks, d, b.cur.value, target); }
  }

  /** Where nothing is reached, nothing built is either. */
  lemma DeadGrows(b: Builder, r: Builder, d: seq<int>, ret: int) returns (e: seq<int>)
    requires Sound(b) && Sound(r) && Grows(b, r) && Dead(b, d, ret)
    ensures d <= e && Dead(r, e, ret)
  {
    var more := seq(|r.blocks| - |d|, i => if r.exit == Some(|d| + i) then ret else -1);
    e := d + more;
    forall u | 0 <= u < |r.blocks| ensures LevelAt(r.blocks, e, u) {
      if u < |d| { assert LevelAt(b.blocks, d, u); }
    }
  }

  // ----- jumps -----

  lemma {:induction false} NetFrees(p: Policy, vars: seq<string>, d: int)
    requires d >= 0
    ensures Net(Frees(p, vars)) == 0 && Steady(Frees(p, vars), d)
  {
    NetZero(Frees(p, vars), d);
  }

  lemma {:induction false} NetZero(items: seq<Item>, d: int)
    requires d >= 0 && forall i :: 0 <= i < |items| ==> Delta(items[i]) == 0
    ensures Net(items) == 0 && Steady(items, d)
    decreases |items|
  {
    if items != [] { NetZero(items[..|items| - 1], d); }
  }

  lemma {:induction false} LevelChain(p: Policy, g: Blocks, d: seq<int>, k: int, scopes: seq<seq<string>>, last: nat) returns (e: seq<int>)
    requires last < |g| && g[last].succs == [] && !EndsWithControlFlow(g[last])
    requires Levels(g, d) && k >= 0 && d[last] >= 0 && d[last] + Net(g[last].stmts) == k
    ensures d <= e
    ensures var (r, l) := CleanupChain(p, g, scopes, last); Levels(r, e) && e[l] >= 0 && e[l] + Net(r[l].stmts) == k
    decreases |scopes|
  {
    hide LevelAt, Frees;
    e := d;
    if scopes != [] {
      var vars := scopes[|scopes| - 1];
      if vars == [] {
        e := LevelChain(p, g, d, k, scopes[..|scopes| - 1], last);
      } else {
        var g1 := AddEdge(g + [BasicBlock(Frees(p, vars), [], [])], last, |g|);
        LevelCleanup(p, g, d, k, vars, last);
        NetFrees(p, vars, k);
        e := LevelChain(p, g1, d + [k], k, scopes[..|scopes| - 1], |g|);
      }
    }
  }

  lemma LevelCleanup(p: Policy, g: Blocks, d: seq<int>, k: int, vars: seq<string>, last: nat)
    requires last < |g| && Levels(g, d) && k >= 0 && d[last] >= 0 && d[last] + Net(g[last].stmts) == k
    ensures Levels(AddEdge(g + [BasicBlock(Frees(p, vars), [], [])], last, |g|), d + [k])
  {
    hide Frees, Net;
    var r, e := g + [BasicBlock(Frees(p, vars), [], [])], d + [k];
    NetFrees(p, vars, k);
    forall u | 0 <= u < |r| ensures LevelAt(r, e, u) {
      if u < |g| { assert LevelAt(g, d, u); }
    }
    LevelEdge(r, e, last, |g|);
  }

  lemma LevelJump(p: Policy, b: Builder, d: seq<int>, k: int, item: Item, targets: seq<nat>, ret: int) returns (e: seq<int>)
    requires Sound(b) && b.cur.Some? && IsJump(item) && targets in [b.breaks, b.loops, b.endcases]
    requires AtLevel(b, d, k, ret) && InBounds(targets, |d|) && OneInside(k, TargetLevel(targets, d))
    ensures d <= e && Dead(Jump(p, b, item, targets), e, ret)
  {
    hide LevelAt, CleanupChain, Emit, Net;
    LevelEmit(b, d, k, IExitScope, ret);
    var b1 := Emit(b, IExitScope);
    e := LevelChain(p, b1.blocks, d, k - 1, b.scopes, b.cur.value);
    var (g, last) := CleanupChain(p, b1.blocks, b.scopes, b.cur.value);
    LevelStatement(g, e, last, item);
    if targets != [] { LevelEdge(AddStatement(g, last, item), e, last, Last(targets)); }
  }

  lemma LevelReturn(p: Policy, b: Builder, d: seq<int>, ret: int) returns (e: seq<int>)
    requires Sound(b) && b.cur.Some? && AtLevel(b, d, ret, ret)
    ensures d <= e && Dead(ReturnJump(p, b), e, ret)
  {
    hide LevelAt, CleanupChain, Net;
    e := LevelChain(p, b.blocks, d, ret, b.scopes, b.cur.value);
    var (g, last) := CleanupChain(p, b.blocks, b.scopes, b.cur.value);
    var g1 := AddStatement(g, last, IReturn);
    LevelStatement(g, e, last, IReturn);
    if b.exit.Some? {
      LevelEdge(g1, e, last, b.exit.value);
    } else {
      LevelBlock(g1, e, ret);
      e := e + [ret];
      LevelEdge(g1 + [EMPTY_BLOCK], e, last, |g1|);
    }
  }

  // ----- statements -----

  /** Labels of new blocks leave the depths of jump targets alone. */
  lemma SameDepths(b: Builder, r: Builder, d: seq<int>, e: seq<int>, ret: int)
    requires Sound(b) && |d| == |b.blocks| && d <= e && SameStacks(b, r)
    ensures InBounds(r.breaks, |e|) && InBounds(r.loops, |e|) && InBounds(r.endcases, |e|) && DepthsOf(r, e, ret) == DepthsOf(b, d, ret)
  {
  }

  lemma {:induction false} LevelLower(p: Policy, b: Builder, s: Stmt, d: seq<int>, k: int, ret: int) returns (e: seq<int>)
    requires Sound(b) && AtLevel(b, d, k, ret) && Fits(p, s, k, DepthsOf(b, d, ret))
    ensures d <= e && After(Lower(p, b, s), e, k, Falls(s), ret)
    decreases s, 3
  {
    hide LevelAt, Emit, Jump, ReturnJump, LowerIf, LowerTest, LowerWhile, LowerFor, LowerSwitch, LowerBlock, LowerSeq, InBounds, Keeps;
    match s
    case Compound(ss) => e := LevelSeq(p, b, ss, true, d, k, ret);
    case Block(lets, ss) => e := LevelBlockStmt(p, b, s, d, k, ret);
    case Switchon(x, cases, dflt) => e := LevelSwitchon(p, b, s, d, k, ret);
    case Defer(x) => e := d;
    case _ => e := LevelHere(p, b, s, d, k, ret);
  }

  lemma LabelCount(b: Builder, d: seq<int>, k: int, ret: int)
    requires Sound(b) && AtLevel(b, d, k, ret)
    ensures |d| == |b.blocks| && k >= 0
  {
  }

  lemma LabelsCount(b: Builder, d: seq<int>, k: int, live: bool, ret: int)
    requires Sound(b) && After(b, d, k, live, ret)
    ensures |d| == |b.blocks|
  {
  }

  lemma LevelHere(p: Policy, b: Builder, s: Stmt, d: seq<int>, k: int, ret: int) returns (e: seq<int>)
    requires Sound(b) && b.cur.Some? && !s.Compound? && !s.Block? && !s.Switchon? && !s.Defer?
    requires AtLevel(b, d, k, ret) && Fits(p, s, k, DepthsOf(b, d, ret))
    ensures d <= e && After(LowerHere(p, b, s), e, k, Falls(s), ret)
    decreases s, 2
  {
    hide AtLevel, Dead, Emit, Jump, ReturnJump, LowerIf, LowerTest, LowerWhile, LowerFor, InBounds, Keeps;
    e := d;
    LabelCount(b, d, k, ret);
    match s
    case Assign(x, a) => LevelEmit(b, d, k, IAssign(x, a), ret);
    case Call(f, args) => LevelEmit(b, d, k, ICall(f, args), ret);
    case If(c, thn) => e := LevelIf(p, b, s, d, k, ret);
    case Test(c, thn, els) => e := LevelTest(p, b, s, d, k, ret);
    case While(c, body) => e := LevelWhile(p, b, s, d, k, ret);
    case For(v, start, limit, step, body) =>
      LevelEmit(b, d, k, IAssign(v, start), ret);
      SameDepths(b, Emit(b, IAssign(v, start)), d, d, ret);
      e := LevelFor(p, Emit(b, IAssign(v, start)), s, d, k, ret);
    case Break => e := LevelJump(p, b, d, k, IBreak, b.breaks, ret);
    case Loop => e := LevelJump(p, b, d, k, ILoop, b.loops, ret);
    case Endcase => e := LevelJump(p, b, d, k, IEndcase, b.endcases, ret);
    case Return => e := LevelReturn(p, b, d, ret);
  }

  lemma LevelOpenIf(b: Builder, c: Expr, d: seq<int>, k: int, ret: int)
    requires Sound(b) && b.cur.Some? && AtLevel(b, d, k, ret)
    ensures AtLevel(OpenIf(b, c), d + Flat(2, k), k, ret)
  {
    hide LevelAt, InBounds, Keeps, Fork, AddBlocks, Steady;
    var g := AddStatement(b.blocks, b.cur.value, IIf(c));
    LevelStatement(b.blocks, d, b.cur.value, IIf(c));
    LevelBlocks(g, d, 2, k);
    LevelFork(AddBlocks(g, 2), d + Flat(2, k), b.cur.value, |g|, |g| + 1);
  }

  /** f is the depth of the join: below 0 when neither branch falls into it. */
  lemma LevelOpenTest(b: Builder, c: Expr, d: seq<int>, k: int, f: int, ret: int)
    requires Sound(b) && b.cur.Some? && AtLevel(b, d, k, ret)
    ensures AtLevel(OpenTest(b, c), d + Flat(2, k) + [f], k, ret)
  {
    hide LevelAt, InBounds, Keeps, Fork, AddBlocks, Steady;
    var g := AddStatement(b.blocks, b.cur.value, ITest(c));
    LevelStatement(b.blocks, d, b.cur.value, ITest(c));
    LevelBlocks(g, d, 2, k);
    LevelBlock(AddBlocks(g, 2), d + Flat(2, k), f);
    MoreBlocks(g, 2);
    LevelFork(AddBlocks(g, 3), d + Flat(2, k) + [f], b.cur.value, |g|, |g| + 1);
  }

  lemma MoreBlocks(g: Blocks, n: nat)
    ensures AddBlocks(g, n + 1) == AddBlocks(g, n) + [EMPTY_BLOCK]
  {
  }

  lemma LevelIf(p: Policy, b: Builder, s: Stmt, d: seq<int>, k: int, ret: int) returns (e: seq<int>)
    requires Sound(b) && b.cur.Some? && s.If? && AtLevel(b, d, k, ret) && Fits(p, s, k, DepthsOf(b, d, ret))
    ensures d <= e && AtLevel(LowerIf(p, b, s), e, k, ret)
    decreases s, 0
  {
    hide AtLevel, Dead, Lower, Close, OpenIf, InBounds;
    var n := |b.blocks|;
    LabelCount(b, d, k, ret);
    LevelOpenIf(b, s.c, d, k, ret);
    var d1 := d + Flat(2, k);
    var b1 := OpenIf(b, s.c);
    SameDepths(b, b1, d, d1, ret);
    e := LevelLower(p, b1, s.thn, d1, k, ret);
    var b2 := Lower(p, b1, s.thn);
    LabelsCount(b2, e, k, Falls(s.thn), ret);
    PendingGrows(b1, b2, n + 1);
    LevelClose(b2, e, k, Falls(s.thn), n + 1, Some(n + 1), ret);
  }

  lemma LevelTest(p: Policy, b: Builder, s: Stmt, d: seq<int>, k: int, ret: int) returns (e: seq<int>)
    requires Sound(b) && b.cur.Some? && s.Test? && AtLevel(b, d, k, ret) && Fits(p, s, k, DepthsOf(b, d, ret))
    ensures d <= e && After(LowerTest(p, b, s), e, k, Falls(s), ret)
    decreases s, 1
  {
    hide AtLevel, Dead, After, Lower, Close, OpenTest, InBounds, Keeps;
    var n := |b.blocks|;
    var f := if Falls(s) then k else -1;
    LabelCount(b, d, k, ret);
    LevelOpenTest(b, s.c, d, k, f, ret);
    var d1 := d + Flat(2, k) + [f];
    var b1 := OpenTest(b, s.c);
    SameDepths(b, b1, d, d1, ret);
    e := LevelLower(p, b1, s.thn, d1, k, ret);
    var b2 := Lower(p, b1, s.thn);
    LabelsCount(b2, e, k, Falls(s.thn), ret);
    PendingGrows(b1, b2, n + 1);
    PendingGrows(b1, b2, n + 2);
    LevelClose(b2, e, k, Falls(s.thn), n + 2, Some(n + 1), ret);
    PendingClose(b2, n + 2, Some(n + 1), n + 2);
    assert AtLevel(Close(b2, n + 2, Some(n + 1)), e, k, ret) by { AfterLive(Close(b2, n + 2, Some(n + 1)), e, k, ret); }
    e := LevelElse(p, b, s, Close(b2, n + 2, Some(n + 1)), e, d, k, f, ret);
  }

  lemma AfterLive(b: Builder, d: seq<int>, k: int, ret: int)
    requires Sound(b) && After(b, d, k, true, ret)
    ensures AtLevel(b, d, k, ret)
  {
  }

  /** The second half of a TEST. */
  lemma LevelElse(p: Policy, b: Builder, s: Stmt, b3: Builder, d3: seq<int>, d: seq<int>, k: int, f: int, ret: int) returns (e: seq<int>)
    requires Sound(b) && b.cur.Some? && s.Test? && Sound(b3) && AtLevel(b3, d3, k, ret) && SameStacks(b, b3) && Pending(b3, |b.blocks| + 2)
    requires |d| == |b.blocks| && d + Flat(2, k) + [f] <= d3 && Fits(p, s, k, DepthsOf(b, d, ret)) && f == if Falls(s) then k else -1
    ensures
      var b4 := Lower(p, b3, s.els);
      Pending(b4, |b.blocks| + 2) && d <= e && After(Close(b4, |b.blocks| + 2, Some(|b.blocks| + 2)), e, k, Falls(s), ret)
    decreases s, 0
  {
    hide AtLevel, Dead, After, Lower, Close, InBounds;
    var n := |b.blocks|;
    SameDepths(b, b3, d, d3, ret);
    LabelCount(b3, d3, k, ret);
    e := LevelLower(p, b3, s.els, d3, k, ret);
    var b4 := Lower(p, b3, s.els);
    LabelsCount(b4, e, k, Falls(s.els), ret);
    PendingGrows(b3, b4, n + 2);
    LevelClose(b4, e, k, Falls(s.els), n + 2, Some(n + 2), ret);
  }

  lemma LevelLoop(g: Blocks, d: seq<int>, k: int, u: nat, test: Item, count: nat)
    requires u < |g| && g[u].succs == [] && count >= 2 && Delta(test) == 0
    requires Levels(g, d) && k >= 0 && d[u] >= 0 && d[u] + Net(g[u].stmts) == k
    ensures Levels(LoopBlocks(g, u, test, count), d + Flat(1 + count, k))
  {
    hide LevelAt, Steady, Fork, AddBlocks;
    var n := |g|;
    LevelBlocks(g, d, 1, k);
    LevelEdge(AddBlocks(g, 1), d + Flat(1, k), u, n);
    var g1 := AddEdge(AddBlocks(g, 1), u, n);
    LevelBlocks(g1, d + Flat(1, k), count, k);
    assert d + Flat(1, k) + Flat(count, k) == d + Flat(1 + count, k);
    LevelStatement(AddBlocks(g1, count), d + Flat(1 + count, k), n, test);
    LevelFork(AddStatement(AddBlocks(g1, count), n, test), d + Flat(1 + count, k), n, n + 1, n + count);
  }

  /** Inside the loop, BREAK and LOOP lead to blocks of the depth at which the loop stands. */
  lemma LevelOpenLoop(b: Builder, r: Builder, test: Item, count: nat, w: nat, d: seq<int>, k: int, ret: int)
    requires Sound(b) && b.cur.Some? && AtLevel(b, d, k, ret) && count >= 2 && Delta(test) == 0 && Sound(r)
    requires r.blocks == LoopBlocks(b.blocks, b.cur.value, test, count) && LoopOpened(b, r, test, count, w)
    requires |b.blocks| <= w < |r.blocks|
    ensures
      var e := d + Flat(1 + count, k);
      && AtLevel(r, e, k, ret) && |e| == |r.blocks|
      && DepthsOf(r, e, ret) == DepthsOf(b, d, ret).(brk := Some(k), loop := Some(k))
  {
    hide LevelAt, LoopBlocks, Steady;
    LevelLoop(b.blocks, d, k, b.cur.value, test, count);
    var e := d + Flat(1 + count, k);
    SameDepths(b, b, d, e, ret);
  }

  lemma LevelOpenWhile(b: Builder, c: Expr, d: seq<int>, k: int, ret: int)
    requires Sound(b) && b.cur.Some? && AtLevel(b, d, k, ret)
    ensures
      var (r, e) := (OpenWhile(b, c), d + Flat(3, k));
      AtLevel(r, e, k, ret) && |e| == |r.blocks| && DepthsOf(r, e, ret) == DepthsOf(b, d, ret).(brk := Some(k), loop := Some(k))
  {
    hide AtLevel, LoopBlocks, InBounds;
    LabelCount(b, d, k, ret);
    LevelOpenLoop(b, OpenWhile(b, c), IWhile(c), 2, |b.blocks|, d, k, ret);
  }

  lemma LevelOpenFor(b: Builder, v: string, limit: Expr, d: seq<int>, k: int, ret: int)
    requires Sound(b) && b.cur.Some? && AtLevel(b, d, k, ret)
    ensures
      var (r, e) := (OpenFor(b, v, limit), d + Flat(4, k));
      AtLevel(r, e, k, ret) && |e| == |r.blocks| && DepthsOf(r, e, ret) == DepthsOf(b, d, ret).(brk := Some(k), loop := Some(k))
  {
    hide AtLevel, LoopBlocks, InBounds;
    LabelCount(b, d, k, ret);
    LevelOpenLoop(b, OpenFor(b, v, limit), IFor(v, limit), 3, |b.blocks| + 2, d, k, ret);
  }

  lemma LevelPop(b: Builder, d: seq<int>, k: int, ret: int)
    requires Sound(b) && b.breaks != [] && b.loops != [] && AtLevel(b, d, k, ret)
    ensures AtLevel(PopTargets(b), d, k, ret)
  {
  }

  lemma LevelWhile(p: Policy, b: Builder, s: Stmt, d: seq<int>, k: int, ret: int) returns (e: seq<int>)
    requires Sound(b) && b.cur.Some? && s.While? && AtLevel(b, d, k, ret) && Fits(p, s, k, DepthsOf(b, d, ret))
    ensures d <= e && AtLevel(LowerWhile(p, b, s), e, k, ret)
    decreases s, 0
  {
    hide AtLevel, Dead, After, Lower, Close, OpenWhile, InBounds, Keeps;
    var n := |b.blocks|;
    LabelCount(b, d, k, ret);
    var b1 := OpenWhile(b, s.c);
    LevelOpenWhile(b, s.c, d, k, ret);
    var d1 := d + Flat(3, k);
    e := LevelLower(p, b1, s.body, d1, k, ret);
    var b2 := Lower(p, b1, s.body);
    LabelsCount(b2, e, k, Falls(s.body), ret);
    PendingGrows(b1, b2, n + 2);
    LevelClose(b2, e, k, Falls(s.body), n, Some(n + 2), ret);
    AfterLive(Close(b2, n, Some(n + 2)), e, k, ret);
    LevelPop(Close(b2, n, Some(n + 2)), e, k, ret);
  }

  lemma LevelFor(p: Policy, b: Builder, s: Stmt, d: seq<int>, k: int, ret: int) returns (e: seq<int>)
    requires Sound(b) && b.cur.Some? && s.For? && AtLevel(b, d, k, ret) && Fits(p, s, k, DepthsOf(b, d, ret))
    ensures d <= e && AtLevel(LowerFor(p, b, s), e, k, ret)
    decreases s, 0
  {
    hide AtLevel, Dead, After, Lower, OpenFor, CloseFor, InBounds, Keeps;
    var n := |b.blocks|;
    LabelCount(b, d, k, ret);
    var b1 := OpenFor(b, s.v, s.limit);
    LevelOpenFor(b, s.v, s.limit, d, k, ret);
    var d1 := d + Flat(4, k);
    e := LevelLower(p, b1, s.body, d1, k, ret);
    var b2 := Lower(p, b1, s.body);
    LabelsCount(b2, e, k, Falls(s.body), ret);
    PendingGrows(b1, b2, n + 2);
    PendingGrows(b1, b2, n + 3);
    LevelCloseFor(b2, n, s.v, s.step, e, k, Falls(s.body), ret);
  }

  lemma LevelCloseFor(b: Builder, n: nat, v: string, step: Option<Expr>, d: seq<int>, k: int, live: bool, ret: int)
    requires Sound(b) && Pending(b, n + 2) && Pending(b, n + 3) && b.breaks != [] && b.loops != []
    requires After(b, d, k, live, ret) && k >= 0 && |d| > n + 3 && d[n] == d[n + 2] == d[n + 3] == k
    ensures AtLevel(CloseFor(b, n, v, step), d, k, ret)
  {
    hide AtLevel, Dead, Close, Emit, InBounds;
    LabelsCount(b, d, k, live, ret);
    LevelClose(b, d, k, live, n + 2, Some(n + 2), ret);
    var b1 := Close(b, n + 2, Some(n + 2));
    PendingClose(b, n + 2, Some(n + 2), n + 3);
    var b2 := Emit(b1, IAssign(v, StepExpr(v, step)));
    LevelEmit(b1, d, k, IAssign(v, StepExpr(v, step)), ret);
    PendingGrows(b1, b2, n + 3);
    LevelClose(b2, d, k, true, n, Some(n + 3), ret);
    LevelPop(Close(b2, n, Some(n + 3)), d, k, ret);
  }

  lemma {:induction false} LevelSeq(p: Policy, b: Builder, ss: seq<Stmt>, anew: bool, d: seq<int>, k: int, ret: int) returns (e: seq<int>)
    requires Sound(b) && AtLevel(b, d, k, ret) && FitsAll(p, ss, k, DepthsOf(b, d, ret))
    ensures d <= e && After(LowerSeq(p, b, ss, anew), e, k, FallsAll(ss), ret)
    decreases ss, 0
  {
    hide LevelAt, Lower, InBounds, Keeps;
    e := d;
    LabelCount(b, d, k, ret);
    if ss != [] {
      e := LevelLower(p, b, ss[0], d, k, ret);
      var b1 := Lower(p, b, ss[0]);
      LabelsCount(b1, e, k, Falls(ss[0]), ret);
      SameDepths(b, b1, d, e, ret);
      if Falls(ss[0]) {
        e := LevelSeq(p, b1, ss[1..], anew, e, k, ret);
      } else {
        e := DeadGrows(b1, LowerSeq(p, b1, ss[1..], anew), e, ret);
      }
    }
  }

  // ----- blocks with declarations -----

  lemma {:induction false} LevelLets(b: Builder, lets: seq<Let>, d: seq<int>, k: int, ret: int)
    requires Sound(b) && AtLevel(b, d, k, ret)
    ensures AtLevel(LowerLets(b, lets), d, k, ret)
    decreases |lets|
  {
    hide AtLevel, LowerLet, InBounds, Keeps;
    if lets != [] {
      LevelLet(b, lets[0], d, k, ret);
      LevelLets(LowerLet(b, lets[0]), lets[1..], d, k, ret);
    }
  }

  lemma LevelLet(b: Builder, l: Let, d: seq<int>, k: int, ret: int)
    requires Sound(b) && AtLevel(b, d, k, ret)
    ensures AtLevel(LowerLet(b, l), d, k, ret)
  {
    hide LevelAt, Emit, InBounds, Keeps, Net, Steady;
    var b1 := if b.scopes == [] then b else b.(scopes := b.scopes[..|b.scopes| - 1] + [Last(b.scopes) + [l.name]]);
    if l.init.Some? { LevelEmit(b1, d, k, IAssign(l.name, l.init.value), ret); }
  }

  lemma LevelEnter(p: Policy, b: Builder, lets: seq<Let>, d: seq<int>, k: int, ret: int)
    requires Sound(b) && AtLevel(b, d, k, ret)
    ensures AtLevel(EnterBlock(p, b, lets), d, if p.scopeCalls then k + 1 else k, ret)
  {
    hide LevelAt, Emit, LowerLets, InBounds, Keeps, Net, Steady;
    var b1, k1 := b, k;
    if p.scopeCalls {
      LevelEmit(b, d, k, IEnterScope, ret);
      b1, k1 := Emit(b, IEnterScope), k + 1;
    }
    LevelLets(b1.(scopes := b1.scopes + [[]]), lets, d, k1, ret);
  }

  lemma {:induction false} EmitsLast(b: Builder, items: seq<Item>, item: Item)
    requires Sound(b) && b.cur.Some? && (forall i :: 0 <= i < |items| ==> !IsJump(items[i])) && !IsJump(item)
    ensures EmitAll(b, items + [item]) == Emit(EmitAll(b, items), item)
    decreases |items|
  {
    hide Emit;
    if items == [] {
      assert items + [item] == [item];
      assert EmitAll(b, [item]) == EmitAll(Emit(b, item), [item][1..]);
    } else {
      EmitsLast(Emit(b, items[0]), items[1..], item);
      assert (items + [item])[1..] == items[1..] + [item];
    }
  }

  lemma LevelLeave(p: Policy, b: Builder, d: seq<int>, k: int, ret: int)
    requires Sound(b) && b.scopes != [] && AtLevel(b, d, if p.scopeCalls then k + 1 else k, ret) && k >= 0
    ensures AtLevel(LeaveBlock(p, b), d, k, ret)
  {
    hide LevelAt, Emit, InBounds, Keeps, Net, Steady, EmitAll, Frees;
    var b1 := b.(scopes := b.scopes[..|b.scopes| - 1]);
    if b.cur.Some? {
      if p.scopeCalls {
        var frees := Frees(p, Reversed(Last(b.scopes)));
        LevelEmits(b1, d, k + 1, frees, ret);
        EmitsLast(b1, frees, IExitScope);
        LevelEmit(EmitAll(b1, frees), d, k + 1, IExitScope, ret);
      } else {
        LevelEmits(b1, d, k, [], ret);
      }
    }
  }

  lemma LevelBlockStmt(p: Policy, b: Builder, s: Stmt, d: seq<int>, k: int, ret: int) returns (e: seq<int>)
    requires Sound(b) && s.Block? && AtLevel(b, d, k, ret) && Fits(p, s, k, DepthsOf(b, d, ret))
    ensures d <= e && After(LowerBlock(p, b, s), e, k, Falls(s), ret)
    decreases s, 0
  {
    hide AtLevel, Dead, EnterBlock, LeaveBlock, LowerSeq, InBounds, Keeps;
    LabelCount(b, d, k, ret);
    var k1 := if p.scopeCalls then k + 1 else k;
    LevelEnter(p, b, s.lets, d, k, ret);
    var b1 := EnterBlock(p, b, s.lets);
    SameDepths(b, b1.(scopes := b.scopes), d, d, ret);
    e := LevelSeq(p, b1, s.ss, false, d, k1, ret);
    var b2 := LowerSeq(p, b1, s.ss, false);
    if FallsAll(s.ss) { LevelLeave(p, b2, e, k, ret); } else { DeadLeave(p, b2, e, ret); }
  }

  lemma DeadLeave(p: Policy, b: Builder, d: seq<int>, ret: int)
    requires Sound(b) && b.scopes != [] && Dead(b, d, ret)
    ensures Dead(LeaveBlock(p, b), d, ret)
  {
    var r := LeaveBlock(p, b);
    forall u | 0 <= u < |r.blocks| ensures LevelAt(r.blocks, d, u) {
      assert LevelAt(b.blocks, d, u);
    }
  }

  // ----- SWITCHON -----

  lemma {:induction false} LevelEdges(g: Blocks, d: seq<int>, u: nat, first: nat, count: nat)
    requires Levels(g, d) && u < |g| && first + count <= |g| && forall i :: first <= i < first + count ==> d[i] == d[u] + Net(g[u].stmts)
    ensures Levels(AddEdges(g, u, first, count), d)
    decreases count
  {
    hide LevelAt, Net;
    if count > 0 {
      LevelEdges(g, d, u, first, count - 1);
      LevelEdge(AddEdges(g, u, first, count - 1), d, u, first + count - 1);
    }
  }

  lemma LevelFan(b: Builder, count: nat, d: seq<int>, k: int, ret: int)
    requires Sound(b) && b.blocks != [] && b.cur == Some(|b.blocks| - 1) && AtLevel(b, d, k, ret)
    ensures Dead(Fan(b, count), d + Flat(1 + count, k), ret)
  {
    hide LevelAt, Net, InBounds, Keeps, AddEdges, AddBlocks;
    var n, e := |b.blocks|, d + Flat(1 + count, k);
    LevelBlocks(b.blocks, d, 1 + count, k);
    var g := AddBlocks(b.blocks, 1 + count);
    LevelEdges(g, e, n - 1, n + 1, count);
    LevelEdge(AddEdges(g, n - 1, n + 1, count), e, n - 1, n);
  }

  lemma LevelSplit(b: Builder, d: seq<int>, k: int, ret: int)
    requires Sound(b) && AtLevel(b, d, k, ret)
    ensures AtLevel(SplitBlock(b), d + [k], k, ret)
  {
    hide LevelAt, InBounds, Keeps;
    LevelBlock(b.blocks, d, k);
    LevelEdge(b.blocks + [EMPTY_BLOCK], d + [k], b.cur.value, |b.blocks|);
  }

  lemma LevelOpenSwitch(b: Builder, x: Expr, cases: seq<Case>, dflt: Option<Stmt>, d: seq<int>, k: int, ret: int)
    requires Sound(b) && AtLevel(b, d, k, ret)
    ensures
      var e := d + Flat(2 + CaseCount(cases, dflt), k);
      var r := OpenSwitch(b, x, cases, dflt);
      Dead(r, e, ret) && |e| == |r.blocks| && DepthsOf(r, e, ret) == DepthsOf(b, d, ret).(endcase := Some(k))
  {
    hide LevelAt, InBounds, Keeps, SplitBlock, Emit, Fan, Net, Steady;
    var count := CaseCount(cases, dflt);
    LevelSplit(b, d, k, ret);
    var b1 := SplitBlock(b);
    var item := ISwitch(x, Values(cases), dflt.Some?);
    LevelEmit(b1, d + [k], k, item, ret);
    LevelFan(Emit(b1, item), count, d + [k], k, ret);
    assert d + [k] + Flat(1 + count, k) == d + Flat(2 + count, k);
    SameDepths(b, b, d, d + Flat(2 + count, k), ret);
    var r := OpenSwitch(b, x, cases, dflt);
    SameStart(b, r, d, d + Flat(2 + count, k), k, ret);
  }

  lemma SameStart(b: Builder, r: Builder, d: seq<int>, e: seq<int>, k: int, ret: int)
    requires Sound(b) && Sound(r) && |d| == |b.blocks| < |e| - 1 && |e| == |r.blocks| && d <= e && e[|d| + 1] == k
    requires r.breaks == b.breaks && r.loops == b.loops && r.endcases == b.endcases + [|b.blocks| + 1]
    ensures DepthsOf(r, e, ret) == DepthsOf(b, d, ret).(endcase := Some(k))
  {
  }

  lemma LevelCase(p: Policy, b: Builder, s: Stmt, at: nat, join: nat, d: seq<int>, k: int, ret: int) returns (e: seq<int>)
    requires Sound(b) && b.cur.None? && join < |b.blocks| && Pending(b, at) && join != at
    requires Dead(b, d, ret) && |d| == |b.blocks| && d[at] == k == d[join] && k >= 0 && Fits(p, s, k, DepthsOf(b, d, ret))
    ensures d <= e && Dead(LowerCase(p, b, s, at, join), e, ret)
    decreases s, 4
  {
    hide LevelAt, Lower, Close, InBounds, Keeps;
    var b1 := b.(cur := Some(at));
    e := LevelLower(p, b1, s, d, k, ret);
    LevelClose(Lower(p, b1, s), e, k, Falls(s), join, None, ret);
  }

  lemma {:induction false} LevelCases(p: Policy, b: Builder, cases: seq<Case>, first: nat, join: nat, d: seq<int>, k: int, ret: int) returns (e: seq<int>)
    requires Sound(b) && b.cur.None? && join < first && first + |cases| <= |b.blocks| && k >= 0
    requires forall i :: first <= i < first + |cases| ==> Pending(b, i)
    requires Dead(b, d, ret) && |d| == |b.blocks| && d[join] == k && (forall i :: first <= i < first + |cases| ==> d[i] == k)
    requires FitsCases(p, cases, k, DepthsOf(b, d, ret))
    ensures d <= e && Dead(LowerCases(p, b, cases, first, join), e, ret)
    decreases cases, 0
  {
    hide Dead, LowerCase, InBounds, Keeps, Fits;
    e := d;
    if cases != [] {
      assert Pending(b, first) && cases[0].command < cases[0];
      e := LevelCase(p, b, cases[0].command, first, join, d, k, ret);
      var b1 := LowerCase(p, b, cases[0].command, first, join);
      LabelsCount(b1, e, k, false, ret);
      PendingCases(b, b1, first, first + |cases|);
      SameDepths(b, b1, d, e, ret);
      e := LevelCases(p, b1, cases[1..], first + 1, join, e, k, ret);
    }
  }

  lemma LevelSwitchon(p: Policy, b: Builder, s: Stmt, d: seq<int>, k: int, ret: int) returns (e: seq<int>)
    requires Sound(b) && s.Switchon? && AtLevel(b, d, k, ret) && Fits(p, s, k, DepthsOf(b, d, ret))
    ensures d <= e && AtLevel(LowerSwitch(p, b, s), e, k, ret)
    decreases s, 1
  {
    hide AtLevel, Dead, OpenSwitch, SwitchCased, LowerCases, LowerCase, LowerDefault, LowerSwitch, InBounds, Keeps, Fits, FitsCases;
    var n := |b.blocks|;
    LabelCount(b, d, k, ret);
    FitsSwitch(p, s, k, DepthsOf(b, d, ret));
    LevelOpenSwitch(b, s.e, s.cases, s.dflt, d, k, ret);
    var b1 := OpenSwitch(b, s.e, s.cases, s.dflt);
    var d1 := d + Flat(2 + CaseCount(s.cases, s.dflt), k);
    CasedIs(p, b, s);
    e := LevelCases(p, b1, s.cases, n + 2, n + 1, d1, k, ret);
    var b2 := SwitchCased(p, b, s);
    SwitchIs(p, b, s);
    e := LevelDefault(p, b, b1, b2, s, d1, e, k, ret);
    LevelJoin(LowerDefault(p, b2, s.dflt, n + 2 + |s.cases|, n + 1), n + 1, e, k, ret);
  }

  /** A SWITCHON up to its last case. */
  lemma CasedIs(p: Policy, b: Builder, s: Stmt)
    requires Sound(b) && s.Switchon?
    ensures
      var (n, b1) := (|b.blocks|, OpenSwitch(b, s.e, s.cases, s.dflt));
      SwitchCased(p, b, s) == LowerCases(p, b1, s.cases, n + 2, n + 1)
    decreases s, 0
  {
    hide OpenSwitch, LowerCases;
  }

  /** A whole SWITCHON. */
  lemma SwitchIs(p: Policy, b: Builder, s: Stmt)
    requires Sound(b) && s.Switchon?
    ensures
      var n := |b.blocks|;
      var r := LowerDefault(p, SwitchCased(p, b, s), s.dflt, n + 2 + |s.cases|, n + 1);
      Pending(r, n + 1) && r.blocks[n + 1].stmts == [] && r.endcases != [] && LowerSwitch(p, b, s) == CloseSwitch(r, n + 1)
    decreases s, 0
  {
    hide OpenSwitch, SwitchCased, LowerDefault, InBounds;
    var n := |b.blocks|;
    var at := n + 2 + |s.cases|;
    var b1 := SwitchCased(p, b, s);
    KeepsCases(b, b1, LowerDefault(p, b1, s.dflt, at, n + 1), n, at, if s.dflt.Some? then at + 1 else at);
  }

  lemma FitsSwitch(p: Policy, s: Stmt, k: int, t: Depths)
    requires s.Switchon? && Fits(p, s, k, t)
    ensures var t1 := t.(endcase := Some(k)); FitsCases(p, s.cases, k, t1) && (s.dflt.Some? ==> Fits(p, s.dflt.value, k, t1))
  {
  }

  lemma LevelDefault(p: Policy, b: Builder, b1: Builder, b2: Builder, s: Stmt, d1: seq<int>, d2: seq<int>, k: int, ret: int) returns (e: seq<int>)
    requires Sound(b) && s.Switchon? && Sound(b1) && Sound(b2) && b2.cur.None? && SameStacks(b1, b2) && k >= 0
    requires Pending(b2, |b.blocks| + 1) && (s.dflt.Some? ==> Pending(b2, |b.blocks| + 2 + |s.cases|))
    requires |d1| == |b1.blocks| == |b.blocks| + 2 + CaseCount(s.cases, s.dflt) && d1 <= d2 && Dead(b2, d2, ret)
    requires forall i :: |b.blocks| <= i < |d1| ==> d1[i] == k
    requires s.dflt.Some? ==> Fits(p, s.dflt.value, k, DepthsOf(b1, d1, ret))
    ensures
      var r := LowerDefault(p, b2, s.dflt, |b.blocks| + 2 + |s.cases|, |b.blocks| + 1);
      d1 <= e && Dead(r, e, ret) && |e| == |r.blocks| && Pending(r, |b.blocks| + 1)
    decreases s, 0
  {
    hide Dead, LowerCase, InBounds, Keeps, Fits;
    var n := |b.blocks|;
    e := d2;
    LabelsCount(b2, d2, k, false, ret);
    if s.dflt.Some? {
      SameDepths(b1, b2, d1, d2, ret);
      e := LevelCase(p, b2, s.dflt.value, n + 2 + |s.cases|, n + 1, d2, k, ret);
    }
    LabelsCount(LowerDefault(p, b2, s.dflt, n + 2 + |s.cases|, n + 1), e, k, false, ret);
  }

  lemma LevelJoin(b: Builder, join: nat, d: seq<int>, k: int, ret: int)
    requires Sound(b) && Pending(b, join) && b.endcases != [] && Dead(b, d, ret) && |d| == |b.blocks| && d[join] == k >= 0
    ensures AtLevel(CloseSwitch(b, join), d, k, ret)
  {
    hide LevelAt, InBounds;
  }

  // ----- the body of a function -----

  /** Outside all loops and SWITCHONs. */
  function Nowhere(ret: int): Depths {
    Depths(None, None, None, ret)
  }

  lemma LevelStart(ret: int)
    ensures Sound(START) && AtLevel(START, [0], 0, ret) && DepthsOf(START, [0], ret) == Nowhere(ret)
  {
    assert LevelAt(START.blocks, [0], 0);
  }

  lemma LevelBody(p: Policy, s: Stmt, ret: int) returns (e: seq<int>)
    requires Fits(p, s, 0, Nowhere(ret)) && (Falls(s) ==> ret == 0)
    ensures var b := BuildBody(p, s); Levels(b.blocks, e) && |e| > 0 && e[0] == 0 && (b.exit.Some? ==> e[b.exit.value] == ret)
  {
    hide LevelAt, Lower, Fits, InBounds, Keeps;
    LevelStart(ret);
    e := LevelLower(p, START, s, [0], 0, ret);
    var b := Lower(p, START, s);
    if b.cur.Some? {
      if b.exit.Some? {
        LevelEdge(b.blocks, e, b.cur.value, b.exit.value);
      } else {
        LevelBlock(b.blocks, e, ret);
        e := e + [ret];
        LevelEdge(b.blocks + [EMPTY_BLOCK], e, b.cur.value, |b.blocks|);
      }
    }
  }
}
