/**
  The control-flow builder as a function: what one visit of a statement does to the builder's state.
  `CfgBuilder` is the class with the visitors themselves.
 */
module Lowering {
  import opened Wrappers
  import opened Syntax
  import opened Graph

  /**
    What the builder consults but never changes: whether scope calls are injected (the function may
    allocate), whether the legacy frees are generated, and which variables own heap memory.
   */
  datatype Policy = Policy(scopeCalls: bool, legacy: bool, owners: set<string>)

  datatype Builder = Builder(
    blocks: Blocks,
    cur: Option<nat>,
    breaks: seq<nat>,
    loops: seq<nat>,
    endcases: seq<nat>,
    exit: Option<nat>,
    scopes: seq<seq<string>>,
    defers: seq<Stmt>)

  function Last<T>(s: seq<T>): T
    requires s != []
  {
    s[|s| - 1]
  }

  // ----- what every visit keeps -----

  predicate Open(b: Builder) {
    b.cur.Some? && b.cur.value < |b.blocks|
  }

  predicate InBounds(s: seq<nat>, n: nat) {
    forall i :: 0 <= i < |s| ==> s[i] < n
  }

  /** The current block can still be extended, the exit block stays empty, every jump target exists. */
  ghost predicate Sound(b: Builder) {
    && (b.cur.Some? ==> Open(b) && b.blocks[b.cur.value].succs == [] && !EndsWithControlFlow(b.blocks[b.cur.value]))
    && (b.exit.Some? ==> b.exit.value < |b.blocks| && b.exit != b.cur && SameFlow(b.blocks[b.exit.value], EMPTY_BLOCK))
    && InBounds(b.breaks, |b.blocks|) && InBounds(b.loops, |b.blocks|) && InBounds(b.endcases, |b.blocks|)
  }

  /** A block that exists already but is filled only later. */
  ghost predicate Pending(b: Builder, i: nat) {
    i < |b.blocks| && SameFlow(b.blocks[i], EMPTY_BLOCK) && b.cur != Some(i) && b.exit != Some(i)
  }

  /** Statements of the blocks below n survive, and so do the exits of those other than c. */
  ghost predicate Keeps(n: nat, c: Option<nat>, a: Builder, b: Builder) {
    && n <= |a.blocks| <= |b.blocks|
    && (forall i :: 0 <= i < n && c != Some(i) ==> SameFlow(a.blocks[i], b.blocks[i]))
    && (forall i :: 0 <= i < n && c == Some(i) ==> a.blocks[i].stmts <= b.blocks[i].stmts)
    && (a.exit.Some? ==> b.exit == a.exit)
    && (a.exit.None? && b.exit.Some? ==> b.exit.value >= n)
  }

  ghost predicate SameStacks(a: Builder, b: Builder) {
    a.breaks == b.breaks && a.loops == b.loops && a.endcases == b.endcases && a.scopes == b.scopes
  }

  /**
    The frame of a visit: apart from the current block and from blocks of its own, it changes no
    block's statements or successors, and it leaves the target stacks as it found them.
   */
  ghost predicate Grows(a: Builder, b: Builder) {
    && Keeps(|a.blocks|, a.cur, a, b)
    && SameStacks(a, b)
    && (b.cur.Some? ==> b.cur == a.cur || b.cur.value >= |a.blocks|)
  }

  /** Building goes on among the blocks from n on. */
  ghost predicate Inside(n: nat, c: Option<nat>, a: Builder, b: Builder) {
    Keeps(n, c, a, b) && (b.cur.Some? ==> b.cur.value >= n)
  }

  lemma GrowsTrans(a: Builder, b: Builder, c: Builder)
    requires Grows(a, b) && Grows(b, c)
    ensures Grows(a, c)
  {
  }

  lemma InsideGrows(n: nat, c: Option<nat>, a: Builder, b: Builder, d: Builder)
    requires Inside(n, c, a, b) && Grows(b, d)
    ensures Inside(n, c, a, d)
  {
  }

  lemma PendingGrows(a: Builder, b: Builder, i: nat)
    requires Pending(a, i) && Grows(a, b)
    ensures Pending(b, i)
  {
  }

  // ----- single steps -----

  /** A visitor that finds no current block starts a new one, without predecessors. */
  function Ensure(b: Builder): (r: Builder)
    requires Sound(b)
    ensures Sound(r) && r.cur.Some? && Grows(b, r)
    ensures b.cur.Some? ==> r == b
    ensures r.defers == b.defers && r.exit == b.exit
  {
    if b.cur.None? then b.(blocks := b.blocks + [EMPTY_BLOCK], cur := Some(|b.blocks|)) else b
  }

  function AddStatement(g: Blocks, i: nat, item: Item): (r: Blocks)
    requires i < |g|
    ensures |r| == |g| && r[i] == g[i].(stmts := g[i].stmts + [item])
    ensures forall k :: 0 <= k < |g| && k != i ==> r[k] == g[k]
  {
    g[i := g[i].(stmts := g[i].stmts + [item])]
  }

  function Emit(b: Builder, item: Item): (r: Builder)
    requires Sound(b) && b.cur.Some? && !IsJump(item)
    ensures Sound(r) && Grows(b, r) && r.cur == b.cur && |r.blocks| == |b.blocks|
    ensures r.blocks[r.cur.value].stmts == b.blocks[b.cur.value].stmts + [item]
    ensures forall i :: 0 <= i < |b.blocks| && Some(i) != b.cur ==> r.blocks[i] == b.blocks[i]
    ensures r == b.(blocks := r.blocks)
  {
    b.(blocks := AddStatement(b.blocks, b.cur.value, item))
  }

  function EmitAll(b: Builder, items: seq<Item>): (r: Builder)
    requires Sound(b) && b.cur.Some? && forall i :: 0 <= i < |items| ==> !IsJump(items[i])
    ensures Sound(r) && Grows(b, r) && r.cur == b.cur && |r.blocks| == |b.blocks|
    ensures r.blocks[r.cur.value].stmts == b.blocks[b.cur.value].stmts + items
    ensures forall i :: 0 <= i < |b.blocks| && Some(i) != b.cur ==> r.blocks[i] == b.blocks[i]
    ensures r == b.(blocks := r.blocks)
    decreases |items|
  {
    if items == [] then b
    else
      assert items == [items[0]] + items[1..];
      EmitAll(Emit(b, items[0]), items[1..])
  }

  /** The current block, if still open, falls through to `target`; building goes on at `next`. */
  function Close(b: Builder, target: nat, next: Option<nat>): (r: Builder)
    requires Sound(b) && target < |b.blocks| && (next.Some? ==> Pending(b, next.value))
    ensures Sound(r) && r.cur == next && r == b.(blocks := r.blocks, cur := next) && |r.blocks| == |b.blocks|
    ensures forall i :: 0 <= i < |b.blocks| ==> r.blocks[i].stmts == b.blocks[i].stmts
    ensures forall i :: 0 <= i < |b.blocks| && Some(i) != b.cur ==> r.blocks[i].succs == b.blocks[i].succs
    ensures b.cur.Some? ==> r.blocks[b.cur.value].succs == [target]
  {
    var g := if b.cur.Some? then AddEdge(b.blocks, b.cur.value, target) else b.blocks;
    b.(blocks := g, cur := next)
  }

  lemma InsideClose(n: nat, c: Option<nat>, a: Builder, b: Builder, target: nat, next: Option<nat>)
    requires Sound(b) && target < |b.blocks| && (next.Some? ==> Pending(b, next.value))
    requires Inside(n, c, a, b) && (next.Some? ==> next.value >= n)
    ensures Inside(n, c, a, Close(b, target, next))
  {
  }

  lemma PendingClose(b: Builder, target: nat, next: Option<nat>, i: nat)
    requires Sound(b) && target < |b.blocks| && (next.Some? ==> Pending(b, next.value))
    requires Pending(b, i) && next != Some(i)
    ensures Pending(Close(b, target, next), i)
  {
  }

  // ----- branches -----

  /** A block with a two-way branch to t and f: the first successor is taken when the test holds. */
  function Fork(g: Blocks, u: nat, t: nat, f: nat): (r: Blocks)
    requires u < |g| && t < |g| && f < |g| && g[u].succs == []
    ensures |r| == |g| && SameFlow(r[u], ToEither(g[u].stmts, t, f))
    ensures forall i :: 0 <= i < |g| && i != u ==> SameFlow(r[i], g[i])
  {
    AddEdge(AddEdge(g, u, t), u, f)
  }

  /** As many new blocks as needed. */
  function AddBlocks(g: Blocks, count: nat): (r: Blocks)
    ensures |r| == |g| + count && r[..|g|] == g
    ensures forall i :: 0 <= i < |g| ==> r[i] == g[i]
    ensures forall i :: |g| <= i < |r| ==> r[i] == EMPTY_BLOCK
  {
    g + seq(count, _ => EMPTY_BLOCK)
  }

  function OpenIf(b: Builder, c: Expr): (r: Builder)
    requires Sound(b) && b.cur.Some?
    ensures var n := |b.blocks|;
      && Sound(r) && Grows(b, r) && |r.blocks| == n + 2 && r.cur == Some(n) && Pending(r, n + 1)
      && SameFlow(r.blocks[b.cur.value], ToEither(b.blocks[b.cur.value].stmts + [IIf(c)], n, n + 1))
      && SameFlow(r.blocks[n], EMPTY_BLOCK)
      && r.defers == b.defers && r.exit == b.exit
  {
    hide Fork, AddBlocks, InBounds;
    var n := |b.blocks|;
    var g := AddBlocks(AddStatement(b.blocks, b.cur.value, IIf(c)), 2);
    TargetsKept(b, n + 2);
    b.(blocks := Fork(g, b.cur.value, n, n + 1), cur := Some(n))
  }

  function OpenTest(b: Builder, c: Expr): (r: Builder)
    requires Sound(b) && b.cur.Some?
    ensures var n := |b.blocks|;
      && Sound(r) && Grows(b, r) && |r.blocks| == n + 3 && r.cur == Some(n) && Pending(r, n + 1) && Pending(r, n + 2)
      && SameFlow(r.blocks[b.cur.value], ToEither(b.blocks[b.cur.value].stmts + [ITest(c)], n, n + 1))
      && SameFlow(r.blocks[n], EMPTY_BLOCK)
      && r.defers == b.defers && r.exit == b.exit
  {
    hide Fork, AddBlocks, InBounds;
    var n := |b.blocks|;
    var g := AddBlocks(AddStatement(b.blocks, b.cur.value, ITest(c)), 3);
    TargetsKept(b, n + 3);
    b.(blocks := Fork(g, b.cur.value, n, n + 1), cur := Some(n))
  }

  lemma TargetsKept(b: Builder, m: nat)
    requires Sound(b) && m >= |b.blocks|
    ensures InBounds(b.breaks, m) && InBounds(b.loops, m) && InBounds(b.endcases, m)
  {
  }

  lemma TargetPushed(targets: seq<nat>, m: nat, t: nat)
    requires InBounds(targets, m) && t < m
    ensures InBounds(targets + [t], m)
  {
  }

  // ----- loops -----

  /** The current block u leads to a new header; `count` more blocks follow it, the body first; exit is the last. */
  function LoopBlocks(g: Blocks, u: nat, test: Item, count: nat): (r: Blocks)
    requires u < |g| && g[u].succs == [] && count >= 2
    ensures
      var n := |g|;
      && |r| == n + 1 + count
      && (forall i :: 0 <= i < n && i != u ==> SameFlow(r[i], g[i]))
      && SameFlow(r[u], To(g[u].stmts, n))
      && SameFlow(r[n], ToEither([test], n + 1, n + count))
      && (forall i :: n < i < |r| ==> SameFlow(r[i], EMPTY_BLOCK))
  {
    var n := |g|;
    var g1 := AddEdge(AddBlocks(g, 1), u, n);
    var g2 := AddStatement(AddBlocks(g1, count), n, test);
    Fork(g2, n, n + 1, n + count)
  }

  /** What opening a loop does to the builder; a LOOP in the body goes to block w. */
  ghost predicate LoopOpened(b: Builder, r: Builder, test: Item, count: nat, w: nat)
    requires Open(b)
  {
    var n := |b.blocks|;
    && |r.blocks| == n + 1 + count && count >= 2
    && r == b.(blocks := r.blocks, cur := Some(n + 1), breaks := b.breaks + [n + count], loops := b.loops + [w])
    && SameFlow(r.blocks[b.cur.value], To(b.blocks[b.cur.value].stmts, n))
    && SameFlow(r.blocks[n], ToEither([test], n + 1, n + count))
    && SameFlow(r.blocks[n + 1], EMPTY_BLOCK)
  }

  /** Header, body and exit of a WHILE; LOOP goes back to the header. */
  function OpenWhile(b: Builder, c: Expr): (r: Builder)
    requires Sound(b) && b.cur.Some?
    ensures Sound(r) && Keeps(|b.blocks|, b.cur, b, r) && LoopOpened(b, r, IWhile(c), 2, |b.blocks|)
    ensures Pending(r, |b.blocks| + 2)
  {
    hide LoopBlocks, InBounds;
    var n := |b.blocks|;
    TargetsKept(b, n + 3);
    TargetPushed(b.breaks, n + 3, n + 2);
    TargetPushed(b.loops, n + 3, n);
    b.(blocks := LoopBlocks(b.blocks, b.cur.value, IWhile(c), 2), cur := Some(n + 1),
       breaks := b.breaks + [n + 2], loops := b.loops + [n])
  }

  /** Header, body, increment block and exit of a FOR; LOOP goes to the increment block. */
  function OpenFor(b: Builder, v: string, limit: Expr): (r: Builder)
    requires Sound(b) && b.cur.Some?
    ensures Sound(r) && Keeps(|b.blocks|, b.cur, b, r) && LoopOpened(b, r, IFor(v, limit), 3, |b.blocks| + 2)
    ensures Pending(r, |b.blocks| + 2) && Pending(r, |b.blocks| + 3)
  {
    hide LoopBlocks, InBounds;
    var n := |b.blocks|;
    TargetsKept(b, n + 4);
    TargetPushed(b.breaks, n + 4, n + 3);
    TargetPushed(b.loops, n + 4, n + 2);
    b.(blocks := LoopBlocks(b.blocks, b.cur.value, IFor(v, limit), 3), cur := Some(n + 1),
       breaks := b.breaks + [n + 3], loops := b.loops + [n + 2])
  }

  /** Leaving a loop drops its targets. */
  function PopTargets(b: Builder): (r: Builder)
    requires Sound(b) && b.breaks != [] && b.loops != []
    ensures Sound(r) && r.blocks == b.blocks && r.cur == b.cur && r.exit == b.exit
  {
    b.(breaks := b.breaks[..|b.breaks| - 1], loops := b.loops[..|b.loops| - 1])
  }

  // ----- SWITCHON -----

  function AddEdges(g: Blocks, u: nat, first: nat, count: nat): (r: Blocks)
    requires u < |g| && first + count <= |g|
    ensures |r| == |g| && r[u].succs == g[u].succs + Ids(first, count)
    ensures forall i :: 0 <= i < |g| ==> r[i].stmts == g[i].stmts
    ensures forall i :: 0 <= i < |g| && i != u ==> r[i].succs == g[i].succs
    decreases count
  {
    if count == 0 then g
    else
      var g1 := AddEdges(g, u, first, count - 1);
      AddEdge(g1, u, first + count - 1)
  }

  /** SWITCHON always starts a block of its own for the multi-way branch. */
  function SplitBlock(b: Builder): (r: Builder)
    requires Sound(b)
    ensures Sound(r) && Grows(b, r) && r.cur == Some(|b.blocks|) && |r.blocks| == |b.blocks| + 1
    ensures SameFlow(r.blocks[|b.blocks|], EMPTY_BLOCK)
    ensures b.cur.Some? ==> SameFlow(r.blocks[b.cur.value], To(b.blocks[b.cur.value].stmts, |b.blocks|))
    ensures r == b.(blocks := r.blocks, cur := r.cur)
  {
    var n := |b.blocks|;
    var g := b.blocks + [EMPTY_BLOCK];
    b.(blocks := if b.cur.Some? then AddEdge(g, b.cur.value, n) else g, cur := Some(n))
  }

  function Ids(first: nat, count: nat): (ids: seq<nat>)
    ensures |ids| == count && forall i :: 0 <= i < count ==> ids[i] == first + i
  {
    seq(count, i => first + i)
  }

  /** The header of a SWITCHON at n: the cases follow the join, which is the last successor. */
  function SwitchHeader(e: Expr, cases: seq<Case>, dflt: Option<Stmt>, n: nat): BasicBlock {
    BasicBlock([ISwitch(e, Values(cases), dflt.Some?)], Ids(n + 2, CaseCount(cases, dflt)) + [n + 1], [])
  }

  /** The blocks after the header: the join, one block per case, and the default's. */
  function SwitchBlocks(g: Blocks, k: nat): (r: Blocks)
    requires |g| > 0 && g[|g| - 1].succs == []
    ensures |r| == |g| + 1 + k
    ensures forall i :: 0 <= i < |g| - 1 ==> SameFlow(r[i], g[i])
    ensures r[|g| - 1].stmts == g[|g| - 1].stmts && r[|g| - 1].succs == Ids(|g| + 1, k) + [|g|]
    ensures forall i :: |g| <= i < |r| ==> SameFlow(r[i], EMPTY_BLOCK)
  {
    AddEdge(AddEdges(AddBlocks(g, 1 + k), |g| - 1, |g| + 1, k), |g| - 1, |g|)
  }

  function CaseCount(cases: seq<Case>, dflt: Option<Stmt>): nat {
    |cases| + if dflt.Some? then 1 else 0
  }

  /** The k blocks a header at n branches to, and the join for ENDCASE. */
  function Fan(b: Builder, k: nat): (r: Builder)
    requires Sound(b) && b.blocks != [] && b.cur == Some(|b.blocks| - 1)
    ensures
      var n := |b.blocks| - 1;
      && Sound(r) && Keeps(n, None, b, r) && |r.blocks| == n + 2 + k
      && (forall i :: n + 1 <= i < |r.blocks| ==> Pending(r, i))
      && r == b.(blocks := r.blocks, cur := None, endcases := b.endcases + [n + 1])
      && r.blocks[n].stmts == b.blocks[n].stmts && r.blocks[n].succs == Ids(n + 2, k) + [n + 1]
  {
    hide SwitchBlocks, InBounds, Ids;
    var n := |b.blocks| - 1;
    TargetsKept(b, n + 2 + k);
    TargetPushed(b.endcases, n + 2 + k, n + 1);
    b.(blocks := SwitchBlocks(b.blocks, k), cur := None, endcases := b.endcases + [n + 1])
  }

  ghost predicate SwitchOpened(b: Builder, r: Builder, header: BasicBlock) {
    var n := |b.blocks|;
    && r == b.(blocks := r.blocks, cur := None, endcases := b.endcases + [n + 1])
    && |r.blocks| > n && SameFlow(r.blocks[n], header)
    && (Open(b) ==> SameFlow(r.blocks[b.cur.value], To(b.blocks[b.cur.value].stmts, n)))
  }

  /** Header at n, join at n + 1, then one block per case, then the default. */
  function OpenSwitch(b: Builder, e: Expr, cases: seq<Case>, dflt: Option<Stmt>): (r: Builder)
    requires Sound(b)
    ensures Sound(r) && r.cur == None && |r.blocks| == |b.blocks| + 2 + CaseCount(cases, dflt)
    ensures Keeps(|b.blocks|, b.cur, b, r) && SwitchOpened(b, r, SwitchHeader(e, cases, dflt, |b.blocks|))
    ensures forall i :: |b.blocks| + 1 <= i < |r.blocks| ==> Pending(r, i)
  {
    hide SplitBlock, Fan, InBounds, Values, Emit, Ids, CaseCount, Pending, Open, EndsWithControlFlow;
    Fan(Emit(SplitBlock(b), ISwitch(e, Values(cases), dflt.Some?)), CaseCount(cases, dflt))
  }

  // ----- leaving scopes early -----

  function Frees(p: Policy, vars: seq<string>): (items: seq<Item>)
    ensures forall i :: 0 <= i < |items| ==> items[i].IFree?
  {
    if vars == [] then []
    else (if p.legacy && vars[0] in p.owners then [IFree(vars[0])] else []) + Frees(p, vars[1..])
  }

  function Reversed<T>(s: seq<T>): (r: seq<T>)
    ensures |r| == |s| && forall i :: 0 <= i < |s| ==> r[i] == s[|s| - 1 - i]
  {
    if s == [] then [] else [s[|s| - 1]] + Reversed(s[..|s| - 1])
  }

  /** One cleanup block per scope that declares something, innermost scope first, chained after `last`. */
  function CleanupChain(p: Policy, g: Blocks, scopes: seq<seq<string>>, last: nat): (r: (Blocks, nat))
    requires last < |g| && g[last].succs == [] && !EndsWithControlFlow(g[last])
    ensures |r.0| >= |g| && r.1 < |r.0| && (r.1 == last || r.1 >= |g|)
    ensures r.0[r.1].succs == [] && !EndsWithControlFlow(r.0[r.1])
    ensures forall i :: 0 <= i < |g| ==> r.0[i].stmts == g[i].stmts
    ensures forall i :: 0 <= i < |g| && i != last ==> r.0[i].succs == g[i].succs
    decreases |scopes|
  {
    if scopes == [] then (g, last)
    else
      var vars := scopes[|scopes| - 1];
      if vars == [] then CleanupChain(p, g, scopes[..|scopes| - 1], last)
      else
        var n := |g|;
        var g1 := AddEdge(g + [BasicBlock(Frees(p, vars), [], [])], last, n);
        CleanupChain(p, g1, scopes[..|scopes| - 1], n)
  }

  /** BREAK, LOOP and ENDCASE: one scope-exit call, the cleanups, the jump, and the edge if there is a target. */
  function Jump(p: Policy, b: Builder, item: Item, targets: seq<nat>): (r: Builder)
    requires Sound(b) && b.cur.Some? && IsJump(item) && targets in [b.breaks, b.loops, b.endcases]
    ensures Sound(r) && Grows(b, r) && r.cur == None && r.defers == b.defers && r.exit == b.exit
  {
    var b1 := Emit(b, IExitScope);
    var (g, last) := CleanupChain(p, b1.blocks, b.scopes, b.cur.value);
    var g1 := AddStatement(g, last, item);
    b1.(blocks := if targets != [] then AddEdge(g1, last, Last(targets)) else g1, cur := None)
  }

  /** RETURN: no scope-exit call; the first RETURN creates the exit block. */
  function ReturnJump(p: Policy, b: Builder): (r: Builder)
    requires Sound(b) && b.cur.Some?
    ensures Sound(r) && Grows(b, r) && r.cur == None && r.exit.Some? && r.defers == b.defers
  {
    var (g, last) := CleanupChain(p, b.blocks, b.scopes, b.cur.value);
    var g1 := AddStatement(g, last, IReturn);
    var (g2, exit) := if b.exit.Some? then (g1, b.exit.value) else (g1 + [EMPTY_BLOCK], |g1|);
    b.(blocks := AddEdge(g2, last, exit), cur := None, exit := Some(exit))
  }

  // ----- blocks with declarations -----

  /** A LET records its variable in the innermost scope and assigns the initializer. */
  function LowerLet(b: Builder, l: Let): (r: Builder)
    requires Sound(b)
    ensures Sound(r) && Grows(b, r.(scopes := b.scopes)) && r.cur.Some? && |r.scopes| == |b.scopes|
    ensures b.scopes != [] ==> r.scopes[..|b.scopes| - 1] == b.scopes[..|b.scopes| - 1]
    ensures r.defers == b.defers && r.exit == b.exit
  {
    var b1 := Ensure(b);
    var b2 :=
      if b1.scopes == [] then b1
      else b1.(scopes := b1.scopes[..|b1.scopes| - 1] + [Last(b1.scopes) + [l.name]]);
    if l.init.Some? then Emit(b2, IAssign(l.name, l.init.value)) else b2
  }

  function LowerLets(b: Builder, lets: seq<Let>): (r: Builder)
    requires Sound(b)
    ensures Sound(r) && Grows(b, r.(scopes := b.scopes)) && |r.scopes| == |b.scopes|
    ensures b.scopes != [] ==> r.scopes[..|b.scopes| - 1] == b.scopes[..|b.scopes| - 1]
    ensures b.cur.Some? ==> r.cur.Some?
    ensures r.defers == b.defers && r.exit == b.exit
    decreases |lets|
  {
    if lets == [] then b
    else
      var b1 := LowerLet(b, lets[0]);
      var r := LowerLets(b1, lets[1..]);
      assert Grows(b1.(scopes := b.scopes), r.(scopes := b.scopes));
      r
  }

  function EnterBlock(p: Policy, b: Builder, lets: seq<Let>): (r: Builder)
    requires Sound(b)
    ensures Sound(r) && Grows(b, r.(scopes := b.scopes))
    ensures |r.scopes| == |b.scopes| + 1 && r.scopes[..|b.scopes|] == b.scopes
    ensures b.cur.Some? ==> r.cur.Some?
    ensures r.defers == b.defers && r.exit == b.exit
  {
    var b1 := if p.scopeCalls then Emit(Ensure(b), IEnterScope) else b;
    var b2 := b1.(scopes := b1.scopes + [[]]);
    var r := LowerLets(b2, lets);
    assert Grows(b1, r.(scopes := b.scopes));
    assert b2.scopes[..|b2.scopes| - 1] == b.scopes;
    r
  }

  /** What is appended where control falls out of a block with these variables. */
  function LeaveItems(p: Policy, names: seq<string>): (items: seq<Item>)
    ensures forall i :: 0 <= i < |items| ==> items[i].IFree? || items[i].IExitScope?
  {
    if p.scopeCalls then Frees(p, Reversed(names)) + [IExitScope] else []
  }

  function LeaveBlock(p: Policy, b: Builder): (r: Builder)
    requires Sound(b) && b.scopes != []
    ensures Sound(r) && r.cur == b.cur && r.scopes == b.scopes[..|b.scopes| - 1]
    ensures Grows(b, r.(scopes := b.scopes)) && r.defers == b.defers && r.exit == b.exit
  {
    var b1 := b.(scopes := b.scopes[..|b.scopes| - 1]);
    if b.cur.Some? then EmitAll(b1, LeaveItems(p, Last(b.scopes))) else b1
  }

  // ----- statements -----

  function Lower(p: Policy, b: Builder, s: Stmt): (r: Builder)
    requires Sound(b)
    ensures Sound(r) && Grows(b, r)
    decreases s, 3
  {
    match s
    case Compound(ss) => LowerSeq(p, b, ss, true)
    case Block(lets, ss) => LowerBlock(p, b, s)
    case Switchon(e, cases, dflt) => LowerSwitch(p, b, s)
    case Defer(d) => b.(defers := b.defers + [d])
    case _ =>
      var b0 := Ensure(b);
      var r := LowerHere(p, b0, s);
      GrowsTrans(b, b0, r);
      r
  }

  /** The visitors that make sure of a current block before anything else. */
  function LowerHere(p: Policy, b: Builder, s: Stmt): (r: Builder)
    requires Sound(b) && b.cur.Some? && !s.Compound? && !s.Block? && !s.Switchon? && !s.Defer?
    ensures Sound(r) && Grows(b, r)
    decreases s, 2
  {
    match s
    case Assign(x, e) => Emit(b, IAssign(x, e))
    case Call(f, args) => Emit(b, ICall(f, args))
    case If(c, thn) => LowerIf(p, b, s)
    case Test(c, thn, els) => LowerTest(p, b, s)
    case While(c, body) => LowerWhile(p, b, s)
    case For(v, start, limit, step, body) =>
      var b0 := Emit(b, IAssign(v, start));
      var r := LowerFor(p, b0, s);
      GrowsTrans(b, b0, r);
      r
    case Break => Jump(p, b, IBreak, b.breaks)
    case Loop => Jump(p, b, ILoop, b.loops)
    case Endcase => Jump(p, b, IEndcase, b.endcases)
    case Return => ReturnJump(p, b)
  }

  function LowerBlock(p: Policy, b: Builder, s: Stmt): (r: Builder)
    requires Sound(b) && s.Block?
    ensures Sound(r) && Grows(b, r)
    decreases s, 0
  {
    var b1 := EnterBlock(p, b, s.lets);
    var b2 := LowerSeq(p, b1, s.ss, false);
    var r := LeaveBlock(p, b2);
    GrowsTrans(b, b1.(scopes := b.scopes), b2.(scopes := b.scopes));
    GrowsTrans(b, b2.(scopes := b.scopes), r);
    r
  }

  function LowerIf(p: Policy, b: Builder, s: Stmt): (r: Builder)
    requires Sound(b) && b.cur.Some? && s.If?
    ensures Sound(r) && Grows(b, r)
    decreases s, 0
  {
    hide OpenIf, Close;
    var n := |b.blocks|;
    var b1 := OpenIf(b, s.c);
    var b2 := Lower(p, b1, s.thn);
    InsideGrows(n, b.cur, b, b1, b2);
    PendingGrows(b1, b2, n + 1);
    InsideClose(n, b.cur, b, b2, n + 1, Some(n + 1));
    Close(b2, n + 1, Some(n + 1))
  }

  function LowerTest(p: Policy, b: Builder, s: Stmt): (r: Builder)
    requires Sound(b) && b.cur.Some? && s.Test?
    ensures Sound(r) && Grows(b, r)
    decreases s, 0
  {
    hide OpenTest, Close;
    var n := |b.blocks|;
    var b1 := OpenTest(b, s.c);
    var b2 := Lower(p, b1, s.thn);
    InsideGrows(n, b.cur, b, b1, b2);
    PendingGrows(b1, b2, n + 1);
    PendingGrows(b1, b2, n + 2);
    var b3 := Close(b2, n + 2, Some(n + 1));
    InsideClose(n, b.cur, b, b2, n + 2, Some(n + 1));
    PendingClose(b2, n + 2, Some(n + 1), n + 2);
    var b4 := Lower(p, b3, s.els);
    InsideGrows(n, b.cur, b, b3, b4);
    PendingGrows(b3, b4, n + 2);
    InsideClose(n, b.cur, b, b4, n + 2, Some(n + 2));
    Close(b4, n + 2, Some(n + 2))
  }

  function LowerWhile(p: Policy, b: Builder, s: Stmt): (r: Builder)
    requires Sound(b) && b.cur.Some? && s.While?
    ensures Sound(r) && Grows(b, r)
    decreases s, 0
  {
    hide OpenWhile, Close;
    var n := |b.blocks|;
    var b1 := OpenWhile(b, s.c);
    var b2 := Lower(p, b1, s.body);
    InsideGrows(n, b.cur, b, b1, b2);
    PendingGrows(b1, b2, n + 2);
    InsideClose(n, b.cur, b, b2, n, Some(n + 2));
    PopTargets(Close(b2, n, Some(n + 2)))
  }

  /** A FOR after its initial assignment. */
  function LowerFor(p: Policy, b: Builder, s: Stmt): (r: Builder)
    requires Sound(b) && b.cur.Some? && s.For?
    ensures Sound(r) && Grows(b, r)
    decreases s, 0
  {
    hide OpenFor, CloseFor;
    var n := |b.blocks|;
    var b1 := OpenFor(b, s.v, s.limit);
    var b2 := Lower(p, b1, s.body);
    InsideGrows(n, b.cur, b, b1, b2);
    PendingGrows(b1, b2, n + 2);
    PendingGrows(b1, b2, n + 3);
    InsideCloseFor(b, b2, s.v, s.step);
    CloseFor(b2, n, s.v, s.step)
  }

  lemma InsideCloseFor(a: Builder, b: Builder, v: string, step: Option<Expr>)
    requires var n := |a.blocks|; Inside(n, a.cur, a, b) && Sound(b) && Pending(b, n + 2) && Pending(b, n + 3)
    requires b.breaks != [] && b.loops != []
    ensures Inside(|a.blocks|, a.cur, a, CloseFor(b, |a.blocks|, v, step))
  {
  }

  /** The body falls into the increment block, which goes back to the header at n. */
  function CloseFor(b: Builder, n: nat, v: string, step: Option<Expr>): (r: Builder)
    requires Sound(b) && Pending(b, n + 2) && Pending(b, n + 3) && b.breaks != [] && b.loops != []
    ensures Sound(r) && r.cur == Some(n + 3) && |r.blocks| == |b.blocks| && r.exit == b.exit
    ensures r == b.(blocks := r.blocks, cur := r.cur, breaks := r.breaks, loops := r.loops)
    ensures r.breaks == b.breaks[..|b.breaks| - 1] && r.loops == b.loops[..|b.loops| - 1]
    ensures forall i :: 0 <= i < |b.blocks| && Some(i) != b.cur && i != n + 2 ==> SameFlow(r.blocks[i], b.blocks[i])
    ensures SameFlow(r.blocks[n + 2], To([IAssign(v, StepExpr(v, step))], n))
    ensures b.cur.Some? ==> SameFlow(r.blocks[b.cur.value], To(b.blocks[b.cur.value].stmts, n + 2))
  {
    var b1 := Close(b, n + 2, Some(n + 2));
    PendingClose(b, n + 2, Some(n + 2), n + 3);
    var b2 := Emit(b1, IAssign(v, StepExpr(v, step)));
    PendingGrows(b1, b2, n + 3);
    PopTargets(Close(b2, n, Some(n + 3)))
  }

  /** A SWITCHON up to its last case; the default and the join are still waiting. */
  function SwitchCased(p: Policy, b: Builder, s: Stmt): (r: Builder)
    requires Sound(b) && s.Switchon?
    ensures
      var n := |b.blocks|;
      && Sound(r) && r.cur.None? && KeepsOutside(OpenSwitch(b, s.e, s.cases, s.dflt), r, n + 2, n + 2 + |s.cases|)
      && Keeps(n, b.cur, b, r) && Pending(r, n + 1) && (s.dflt.Some? ==> Pending(r, n + 2 + |s.cases|))
    decreases s, 0
  {
    hide OpenSwitch;
    var n := |b.blocks|;
    var b1 := OpenSwitch(b, s.e, s.cases, s.dflt);
    var r := LowerCases(p, b1, s.cases, n + 2, n + 1);
    KeepsCases(b, b1, r, n, n + 2, n + 2 + |s.cases|);
    assert Pending(b1, n + 1) && (s.dflt.Some? ==> Pending(b1, n + 2 + |s.cases|));
    r
  }

  function LowerSwitch(p: Policy, b: Builder, s: Stmt): (r: Builder)
    requires Sound(b) && s.Switchon?
    ensures Sound(r) && Grows(b, r)
    decreases s, 1
  {
    hide OpenSwitch, LowerDefault, SwitchCased;
    var n := |b.blocks|;
    var at := n + 2 + |s.cases|;
    var b1 := SwitchCased(p, b, s);
    var b2 := LowerDefault(p, b1, s.dflt, at, n + 1);
    KeepsCases(b, b1, b2, n, at, if s.dflt.Some? then at + 1 else at);
    CloseSwitch(b2, n + 1)
  }

  function CloseSwitch(b: Builder, join: nat): (r: Builder)
    requires Sound(b) && Pending(b, join) && b.endcases != []
    ensures Sound(r) && r == b.(cur := Some(join), endcases := b.endcases[..|b.endcases| - 1])
  {
    b.(cur := Some(join), endcases := b.endcases[..|b.endcases| - 1])
  }

  /** Filling the cases from `first` on changes nothing below n, nor the blocks still waiting. */
  lemma KeepsCases(a: Builder, b: Builder, d: Builder, n: nat, first: nat, after: nat)
    requires n + 2 <= first && n <= |a.blocks| && Keeps(n, a.cur, a, b) && b.cur.None? && d.cur.None?
    requires KeepsOutside(b, d, first, after)
    requires after <= |b.blocks|
    ensures Keeps(n, a.cur, a, d)
    ensures forall i :: (i == n + 1 || after <= i < |b.blocks|) && Pending(b, i) ==> Pending(d, i)
  {
  }

  function LowerDefault(p: Policy, b: Builder, dflt: Option<Stmt>, at: nat, join: nat): (r: Builder)
    requires Sound(b) && b.cur.None? && join < |b.blocks| && join != at && (dflt.Some? ==> Pending(b, at))
    ensures Sound(r) && r.cur.None? && KeepsOutside(b, r, at, if dflt.Some? then at + 1 else at)
    decreases dflt, 0
  {
    if dflt.Some? then LowerCase(p, b, dflt.value, at, join) else b
  }

  /** What the cases of a SWITCHON leave alone: every block below n but those from `first` up to `after`. */
  ghost predicate KeepsOutside(a: Builder, b: Builder, first: nat, after: nat) {
    && |a.blocks| <= |b.blocks| && SameStacks(a, b)
    && (forall i :: 0 <= i < |a.blocks| && !(first <= i < after) ==> SameFlow(a.blocks[i], b.blocks[i]))
    && (a.exit.Some? ==> b.exit == a.exit)
    && (a.exit.None? && b.exit.Some? ==> b.exit.value >= |a.blocks|)
  }

  lemma PendingCases(a: Builder, b: Builder, first: nat, after: nat)
    requires KeepsOutside(a, b, first, first + 1) && b.cur.None?
    requires forall i :: first <= i < after ==> Pending(a, i)
    ensures forall i :: first + 1 <= i < after ==> Pending(b, i)
  {
    forall i | first + 1 <= i < after ensures Pending(b, i) {
      assert Pending(a, i);
    }
  }

  /** One command in its own block, falling through to the join. */
  function LowerCase(p: Policy, b: Builder, s: Stmt, at: nat, join: nat): (r: Builder)
    requires Sound(b) && b.cur.None? && join < |b.blocks| && Pending(b, at) && join != at
    ensures Sound(r) && r.cur.None? && KeepsOutside(b, r, at, at + 1)
    decreases s, 4
  {
    Close(Lower(p, b.(cur := Some(at)), s), join, None)
  }

  /** The commands of the cases, one after the other. */
  function LowerCases(p: Policy, b: Builder, cases: seq<Case>, first: nat, join: nat): (r: Builder)
    requires Sound(b) && b.cur.None? && join < first && first + |cases| <= |b.blocks|
    requires forall i :: first <= i < first + |cases| ==> Pending(b, i)
    ensures Sound(r) && r.cur.None? && KeepsOutside(b, r, first, first + |cases|)
    decreases cases, 0
  {
    if cases == [] then b
    else
      assert Pending(b, first) && cases[0].command < cases[0];
      var b1 := LowerCase(p, b, cases[0].command, first, join);
      assert forall i :: first + 1 <= i < first + |cases| ==> Pending(b1, i) by { PendingCases(b, b1, first, first + |cases|); }
      LowerCases(p, b1, cases[1..], first + 1, join)
  }

  /** CompoundStatement starts a block for a statement that finds none (`anew`); BlockStatement leaves that to the visitor. */
  function LowerSeq(p: Policy, b: Builder, ss: seq<Stmt>, anew: bool): (r: Builder)
    requires Sound(b)
    ensures Sound(r) && Grows(b, r)
    decreases ss, 0
  {
    hide Ensure;
    if ss == [] then b
    else
      var b0 := if anew then Ensure(b) else b;
      var b1 := Lower(p, b0, ss[0]);
      GrowsTrans(b, b0, b1);
      var r := LowerSeq(p, b1, ss[1..], anew);
      GrowsTrans(b, b1, r);
      r
  }
}
