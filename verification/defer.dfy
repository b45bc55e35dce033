/** DEFER: the cleanup block, and the rewiring that puts it before the exit block. */
module Deferral {
  import opened Wrappers
  import opened Syntax
  import opened Graph
  import opened Lowering
  import opened Simulation
  import opened Links
  import opened Functions
  import opened DeferredStatements

  function Without(s: seq<nat>, x: nat): (r: seq<nat>)
    ensures forall y :: Count(r, y) == if y == x then 0 else Count(s, y)
  {
    if s == [] then []
    else
      var rest := Without(s[1..], x);
      assert forall y :: Count(s, y) == Count([s[0]], y) + Count(s[1..], y) by { assert s == [s[0]] + s[1..]; }
      if s[0] == x then rest else [s[0]] + rest
  }

  lemma CountAppend(s: seq<nat>, t: seq<nat>, x: nat)
    ensures Count(s + t, x) == Count(s, x) + Count(t, x)
  {
  }

  lemma CountHead(s: seq<nat>, x: nat)
    requires s != []
    ensures Count(s, x) == (if s[0] == x then 1 else 0) + Count(s[1..], x)
    ensures x in s <==> Count(s, x) > 0
  {
    assert s == [s[0]] + s[1..];
  }

  /** One predecessor of the exit block is led to the cleanup block c instead, unless it is c itself. */
  function RewireOne(g: Blocks, u: nat, exit: nat, c: nat): (r: Blocks)
    requires u < |g| && exit < |g| && c < |g| && exit != c
    ensures |r| == |g| && forall i :: 0 <= i < |g| ==> r[i].stmts == g[i].stmts
    ensures forall i :: 0 <= i < |g| && i != u ==> r[i].succs == g[i].succs
    ensures r[u].succs == if u == c then g[u].succs else Without(g[u].succs, exit) + [c]
    ensures forall i :: 0 <= i < |g| && i != c && i != exit ==> r[i].preds == g[i].preds
    ensures r[c].preds == g[c].preds + if u == c then [] else [u]
    ensures r[exit].preds == g[exit].preds + if u == c then [c] else []
  {
    if u == c then g[exit := g[exit].(preds := g[exit].preds + [c])]
    else AddEdge(g[u := g[u].(succs := Without(g[u].succs, exit))], u, c)
  }

  function RewireAll(g: Blocks, preds: seq<nat>, exit: nat, c: nat): (r: Blocks)
    requires exit < |g| && c < |g| && exit != c && forall i :: 0 <= i < |preds| ==> preds[i] < |g|
    ensures |r| == |g| && forall i :: 0 <= i < |g| ==> r[i].stmts == g[i].stmts
    decreases |preds|
  {
    if preds == [] then g else RewireAll(RewireOne(g, preds[0], exit, c), preds[1..], exit, c)
  }

  /** The exit block's predecessors are forgotten, then led to c one after the other. */
  function Rewire(g: Blocks, exit: nat, c: nat): (r: Blocks)
    requires exit < |g| && c < |g| && exit != c && InRange(g)
    ensures |r| == |g| && forall i :: 0 <= i < |g| ==> r[i].stmts == g[i].stmts
  {
    assert forall i :: 0 <= i < |g[exit].preds| ==> g[exit].preds[i] in g[exit].preds;
    RewireAll(g[exit := g[exit].(preds := [])], g[exit].preds, exit, c)
  }

  lemma {:induction false} LinkedDefers(p: Policy, b: Builder, defers: seq<Stmt>)
    requires Sound(b) && Linked(b)
    ensures Linked(LowerDefers(p, b, defers))
    decreases |defers|
  {
    hide WellLinked, Lower;
    if defers != [] {
      LowerLinked(p, b, defers[|defers| - 1]);
      LinkedDefers(p, Lower(p, b, defers[|defers| - 1]), defers[..|defers| - 1]);
    }
  }

  lemma LinkedBody(p: Policy, s: Stmt)
    ensures var b := BuildBody(p, s); WellLinked(b.blocks, b.exit) && Bare(b)
  {
    hide Lower;
    LowerLinked(p, START, s);
    var b := Lower(p, START, s);
    LinkedBlock(b.blocks, b.exit, EMPTY_BLOCK);
    if b.cur.Some? {
      if b.exit.Some? { LinkedEdge(b.blocks, b.exit, b.cur.value, b.exit.value); }
      else { LinkedEdge(b.blocks + [EMPTY_BLOCK], Some(|b.blocks|), b.cur.value, |b.blocks|); }
    }
  }

  /** The builder when it starts on the cleanup block. */
  function CleanupStart(p: Policy, s: Stmt): (b: Builder)
    requires BuildBody(p, s).exit.Some?
    ensures Sound(b) && Linked(b) && b.exit == BuildBody(p, s).exit
    ensures b.cur == Some(|BuildBody(p, s).blocks|) && b.blocks[b.cur.value] == EMPTY_BLOCK
  {
    hide Lower, WellLinked;
    var r := BuildBody(p, s);
    LinkedBody(p, s);
    LinkedBlock(r.blocks, r.exit, EMPTY_BLOCK);
    r.(blocks := r.blocks + [EMPTY_BLOCK], cur := Some(|r.blocks|))
  }

  ghost predicate Consistent(g: Blocks) {
    InRange(g) && Mirrored(g)
  }

  lemma AddEdgeConsistent(g: Blocks, u: nat, v: nat)
    requires Consistent(g) && u < |g| && v < |g|
    ensures Consistent(AddEdge(g, u, v))
  {
    AddEdgeMirrored(g, u, v);
  }

  /** The finished graph of a function or routine. */
  function BuildFunction(p: Policy, s: Stmt): (r: (Blocks, Option<nat>))
    ensures r.1 == BuildBody(p, s).exit
    ensures r.1.Some? ==> r.1.value < |r.0|
  {
    var b := BuildBody(p, s);
    if b.defers == [] || b.exit.None? then (b.blocks, b.exit)
    else
      var b1 := CleanupStart(p, s);
      var b2 := LowerDefers(p, b1, b.defers);
      LinkedDefers(p, b1, b.defers);
      AddEdgeConsistent(b2.blocks, b1.cur.value, b.exit.value);
      (Rewire(AddEdge(b2.blocks, b1.cur.value, b.exit.value), b.exit.value, b1.cur.value), b.exit)
  }

  // ----- every edge still on both sides -----

  lemma {:induction false} RewireAllCounts(g: Blocks, preds: seq<nat>, exit: nat, c: nat, u: nat, v: nat)
    requires exit < |g| && c < |g| && exit != c && u < |g| && v < |g| && forall i :: 0 <= i < |preds| ==> preds[i] < |g|
    ensures
      var r := RewireAll(g, preds, exit, c);
      && Count(r[u].succs, v) ==
         (if u == c || u !in preds then Count(g[u].succs, v)
          else if v == exit then 0
          else Count(g[u].succs, v) + if v == c then Count(preds, u) else 0)
      && Count(r[v].preds, u) ==
         Count(g[v].preds, u) + if (v == c && u != c) || (v == exit && u == c) then Count(preds, u) else 0
    decreases |preds|
  {
    hide Count, RewireOne;
    if preds == [] {
      assert Count(preds, u) == 0 by { NoneInEmpty(u); }
    } else {
      var g1 := RewireOne(g, preds[0], exit, c);
      CountHead(preds, u);
      RewireOneCounts(g, preds[0], exit, c, u, v);
      InIffCount(preds[1..], u);
      RewireAllCounts(g1, preds[1..], exit, c, u, v);
    }
  }

  lemma NoneInEmpty(x: nat)
    ensures Count([], x) == 0
  {
  }

  lemma InIffCount(s: seq<nat>, x: nat)
    ensures x in s <==> Count(s, x) > 0
  {
  }

  lemma RewireOneCounts(g: Blocks, w: nat, exit: nat, c: nat, u: nat, v: nat)
    requires w < |g| && exit < |g| && c < |g| && exit != c && u < |g| && v < |g|
    ensures
      var r := RewireOne(g, w, exit, c);
      && Count(r[u].succs, v) ==
         (if u == c || u != w then Count(g[u].succs, v)
          else if v == exit then 0
          else Count(g[u].succs, v) + if v == c then 1 else 0)
      && Count(r[v].preds, u) ==
         Count(g[v].preds, u) + if w == u && ((v == c && u != c) || (v == exit && u == c)) then 1 else 0
  {
    hide RewireOne, Count, Without;
    CountMore([], c, v);
    CountMore([], w, u);
    CountMore([], c, u);
    NoneInEmpty(v);
    NoneInEmpty(u);
    assert [] + [c] == [c] && [] + [w] == [w];
    CountAppend(Without(g[w].succs, exit), [c], v);
    CountAppend(g[c].preds, [w], u);
    CountAppend(g[exit].preds, [c], u);
    assert g[c].preds + [] == g[c].preds && g[exit].preds + [] == g[exit].preds;
  }

  /** The rewiring of any well-linked graph is well linked, whatever edges occur more than once. */
  lemma RewireLinked(g: Blocks, exit: nat, c: nat)
    requires exit < |g| && c < |g| && exit != c && Consistent(g)
    ensures Consistent(Rewire(g, exit, c))
    ensures var r := Rewire(g, exit, c);
      && (forall u :: u in r[exit].preds ==> u == c)
      && |r[exit].preds| == Count(g[c].succs, exit)
      && (forall u :: 0 <= u < |g| && u != c ==> exit !in r[u].succs)
  {
    hide RewireAll, Count, RewireOne;
    var preds := g[exit].preds;
    var g1 := g[exit := g[exit].(preds := [])];
    var r := Rewire(g, exit, c);
    assert forall i :: 0 <= i < |preds| ==> preds[i] in preds;
    forall u ensures Count([], u) == 0 { NoneInEmpty(u); }
    forall u ensures u in preds <==> Count(preds, u) > 0 { InIffCount(preds, u); }
    forall u, v | 0 <= u < |r| && 0 <= v < |r|
      ensures Count(r[u].succs, v) == Count(r[v].preds, u)
      ensures v == exit ==> Count(r[v].preds, u) == if u == c then Count(g[c].succs, exit) else 0
    {
      RewireAllCounts(g1, preds, exit, c, u, v);
      assert Count(g[u].succs, v) == Count(g[v].preds, u);
      assert Count(g[u].succs, exit) == Count(g[exit].preds, u);
    }
    RewireInRange(g1, preds, exit, c);
    forall u | u in r[exit].preds ensures u == c {
      assert u < |r| && Count(r[u].succs, exit) == Count(r[exit].preds, u);
      InIffCount(r[exit].preds, u);
    }
    OnlyOne(r[exit].preds, c);
    forall u | 0 <= u < |g| && u != c ensures exit !in r[u].succs {
      InIffCount(r[u].succs, exit);
      InIffCount(r[exit].preds, u);
    }
  }

  lemma {:induction false} OnlyOne(s: seq<nat>, x: nat)
    requires forall y :: y in s ==> y == x
    ensures Count(s, x) == |s|
    decreases |s|
  {
    if s != [] {
      CountHead(s, x);
      assert s[0] in s && forall y :: y in s[1..] ==> y in s;
      OnlyOne(s[1..], x);
    }
  }

  lemma {:induction false} RewireInRange(g: Blocks, preds: seq<nat>, exit: nat, c: nat)
    requires exit < |g| && c < |g| && exit != c && InRange(g) && forall i :: 0 <= i < |preds| ==> preds[i] < |g|
    ensures InRange(RewireAll(g, preds, exit, c))
    decreases |preds|
  {
    if preds != [] {
      var g1 := RewireOne(g, preds[0], exit, c);
      WithoutSubset(g[preds[0]].succs, exit);
      RewireInRange(g1, preds[1..], exit, c);
    }
  }

  lemma WithoutSubset(s: seq<nat>, x: nat)
    ensures forall y :: y in Without(s, x) ==> y in s && y != x
  {
    forall y | y in Without(s, x) ensures y in s && y != x {
      InIffCount(Without(s, x), y);
      InIffCount(s, y);
    }
  }

  // ----- the finished graph against the body's -----

  /** g is the body's graph b with the ways into the exit block led through block c. */
  ghost predicate Diverted(b: Blocks, g: Blocks, exit: nat, c: nat, items: seq<Item>) {
    && exit < c == |b| < |g|
    && SameFlow(g[c], To(items, exit))
    && SameFlow(b[exit], EMPTY_BLOCK) && SameFlow(g[exit], EMPTY_BLOCK)
    && InRange(b) && Feeders(b, Some(exit))
    && forall u :: 0 <= u < c ==> g[u].stmts == b[u].stmts && g[u].succs == if exit in b[u].succs then [c] else b[u].succs
  }

  lemma RewireKeeps(g: Blocks, preds: seq<nat>, exit: nat, c: nat, u: nat)
    requires exit < |g| && c < |g| && exit != c && u < |g| && forall i :: 0 <= i < |preds| ==> preds[i] < |g|
    requires u !in preds || u == c
    ensures RewireAll(g, preds, exit, c)[u].succs == g[u].succs
    decreases |preds|
  {
    if preds != [] {
      assert preds[0] in preds;
      RewireKeeps(RewireOne(g, preds[0], exit, c), preds[1..], exit, c, u);
    }
  }

  /** A block whose only way out was the exit block is left with as many edges to c. */
  lemma {:induction false} RewireFeeder(g: Blocks, preds: seq<nat>, exit: nat, c: nat, u: nat, k: nat)
    requires exit < |g| && c < |g| && exit != c && u < |g| && u != c && forall i :: 0 <= i < |preds| ==> preds[i] < |g|
    requires (k == 0 && g[u].succs == [exit] && Count(preds, u) == 1) || (k == 1 && g[u].succs == [c] && Count(preds, u) == 0)
    ensures RewireAll(g, preds, exit, c)[u].succs == [c]
    decreases |preds|
  {
    InIffCount(preds, u);
    if preds != [] {
      var g1 := RewireOne(g, preds[0], exit, c);
      CountHead(preds, u);
      assert Without([exit], exit) == Without([exit][1..], exit) == [] by { assert [exit][1..] == []; }
      assert [] + [c] == [c];
      RewireFeeder(g1, preds[1..], exit, c, u, if preds[0] == u then 1 else k);
    }
  }

  lemma FunctionDiverted(p: Policy, s: Stmt)
    requires var b := BuildBody(p, s); b.exit.Some? && b.defers != [] && Deferrable(b.defers)
    ensures
      var b := BuildBody(p, s);
      var g := BuildFunction(p, s).0;
      && Diverted(b.blocks, g, b.exit.value, |b.blocks|, CleanupItems(p, b.defers))
      && g[b.exit.value].preds == [|b.blocks|]
      && (DefersWay(b.defers) == Stays ==> |g| == |b.blocks| + 1)
  {
    hide BuildBody, Lower, RewireAll, RewireOne, Rewire, CleanupItems, Mirrored;
    var b := BuildBody(p, s);
    var exit := b.exit.value;
    var c := |b.blocks|;
    var b1 := CleanupStart(p, s);
    CleanupStartIs(p, s);
    LinkedBody(p, s);
    DefersLower(p, b1, b.defers);
    LinkedDefers(p, b1, b.defers);
    var b2 := LowerDefers(p, b1, b.defers);
    AddEdgeConsistent(b2.blocks, c, exit);
    var g := AddEdge(b2.blocks, c, exit);
    BodyExit(p, s);
    DivertBlocks(b.blocks, g, exit, c, CleanupItems(p, b.defers));
  }

  lemma CleanupStartIs(p: Policy, s: Stmt)
    requires BuildBody(p, s).exit.Some?
    ensures var b := BuildBody(p, s); CleanupStart(p, s) == b.(blocks := b.blocks + [EMPTY_BLOCK], cur := Some(|b.blocks|))
  {
    hide BuildBody;
  }

  lemma BodyExit(p: Policy, s: Stmt)
    requires BuildBody(p, s).exit.Some?
    ensures var b := BuildBody(p, s);
      0 < b.exit.value < |b.blocks| && SameFlow(b.blocks[b.exit.value], EMPTY_BLOCK)
  {
  }

  /** Where a block leads after the rewiring, if it leads to the exit block alone or not at all. */
  lemma RewiredSuccs(g: Blocks, exit: nat, c: nat, u: nat)
    requires exit < |g| && c < |g| && exit != c && u < |g| && Consistent(g)
    requires u != c && exit in g[u].succs ==> g[u].succs == [exit]
    ensures Rewire(g, exit, c)[u].succs == if u != c && exit in g[u].succs then [c] else g[u].succs
  {
    hide RewireAll, RewireOne;
    var preds := g[exit].preds;
    var g1 := g[exit := g[exit].(preds := [])];
    assert forall i :: 0 <= i < |preds| ==> preds[i] in preds;
    assert Count(g[u].succs, exit) == Count(preds, u);
    assert Count([exit], exit) == 1;
    InIffCount(preds, u);
    InIffCount(g[u].succs, exit);
    if u != c && exit in g[u].succs {
      RewireFeeder(g1, preds, exit, c, u, 0);
    } else {
      RewireKeeps(g1, preds, exit, c, u);
    }
  }

  /** The body's graph with a filled cleanup block c and the edge from it, rewired. */
  lemma DivertBlocks(b: Blocks, g: Blocks, exit: nat, c: nat, items: seq<Item>)
    requires exit < c == |b| < |g| && Consistent(g) && WellLinked(b, Some(exit)) && SameFlow(b[exit], EMPTY_BLOCK)
    requires SameFlow(g[c], To(items, exit)) && forall u :: 0 <= u < c ==> SameFlow(g[u], b[u])
    ensures Diverted(b, Rewire(g, exit, c), exit, c, items) && Rewire(g, exit, c)[exit].preds == [c]
  {
    hide Rewire;
    var r := Rewire(g, exit, c);
    RewireLinked(g, exit, c);
    assert Count([exit], exit) == 1;
    RewiredSuccs(g, exit, c, c);
    forall u | 0 <= u < c ensures r[u].succs == if exit in b[u].succs then [c] else b[u].succs {
      assert SameFlow(g[u], b[u]);
      RewiredSuccs(g, exit, c, u);
    }
    assert r[exit].preds[0] in r[exit].preds;
  }

  lemma BranchInRange(env: Env, b: BasicBlock, st: Store)
    ensures Branch(env, b, st).Some? ==> Branch(env, b, st).value in b.succs
  {
  }

  lemma DivertedStep(env: Env, b: Blocks, g: Blocks, exit: nat, c: nat, items: seq<Item>, d: Config)
    requires Diverted(b, g, exit, c, items) && d.block < c && d.block != exit
    ensures
      match Step(env, b, d)
      case None => Step(env, g, d).None?
      case Some(d') => d'.block < c && Step(env, g, d) == Some(if d'.block == exit then d'.(block := c) else d')
    ensures var r := Step(env, b, d); r.Some? && r.value.block == exit ==> r.value.pos == 0
  {
    hide InRange;
    BranchInRange(env, b[d.block], d.st);
    BranchInside(b, d.block);
    assert g[d.block].stmts == b[d.block].stmts;
    if exit in b[d.block].succs {
      assert b[d.block].succs == [exit] && g[d.block].succs == [c];
    } else {
      assert g[d.block].succs == b[d.block].succs;
    }
  }

  lemma BranchInside(b: Blocks, u: nat)
    requires InRange(b) && u < |b|
    ensures forall v :: v in b[u].succs ==> v < |b|
  {
  }

  lemma {:induction false} DivertedRun(env: Env, b: Blocks, g: Blocks, exit: nat, c: nat, items: seq<Item>, d: Config, n: nat, st: Store)
    requires Diverted(b, g, exit, c, items) && d.block < c && d.block != exit
    requires Run(env, b, n, d) == Some(At(exit, 0, st))
    ensures Run(env, g, n, d) == Some(At(c, 0, st))
    decreases n
  {
    hide Diverted, Branch;
    DivertedStep(env, b, g, exit, c, items, d);
    var d' := Step(env, b, d).value;
    if d'.block == exit {
      DivertedExit(env, b, g, exit, c, items, d'.st);
      assert Run(env, b, n - 1, d').Some? ==> n == 1;
    } else {
      DivertedRun(env, b, g, exit, c, items, d', n - 1, st);
    }
  }

  lemma DivertedExit(env: Env, b: Blocks, g: Blocks, exit: nat, c: nat, items: seq<Item>, st: Store)
    requires Diverted(b, g, exit, c, items)
    ensures Final(env, b, At(exit, 0, st)) && Final(env, g, At(exit, 0, st))
  {
  }

  lemma CleanupRun(env: Env, b: Blocks, g: Blocks, exit: nat, c: nat, items: seq<Item>, st: Store)
    requires Diverted(b, g, exit, c, items)
    ensures Run(env, g, |items| + 1, At(c, 0, st)) == Some(At(exit, 0, Effects(env, items, st)))
  {
    hide Run, Step, Effects;
    RunItems(env, g, c, 0, items, st);
    Follow(env, g, c, exit, Effects(env, items, st));
    RunAdd(env, g, |items|, 1, At(c, 0, st));
  }

  lemma {:induction false} DivertedBack(env: Env, b: Blocks, g: Blocks, exit: nat, c: nat, items: seq<Item>, d: Config, n: nat, st2: Store)
    returns (m: nat, st1: Store)
    requires Diverted(b, g, exit, c, items) && d.block < c && d.block != exit
    requires Run(env, g, n, d) == Some(At(exit, 0, st2))
    ensures Run(env, b, m, d) == Some(At(exit, 0, st1)) && st2 == Effects(env, items, st1)
    decreases n
  {
    hide Diverted, Branch, Effects;
    DivertedStep(env, b, g, exit, c, items, d);
    var d' := Step(env, b, d).value;
    if d'.block == exit {
      m, st1 := 1, d'.st;
      assert Run(env, b, 1, d) == Run(env, b, 0, d');
      CleanupRun(env, b, g, exit, c, items, st1);
      DivertedExit(env, b, g, exit, c, items, Effects(env, items, st1));
      DivertedExit(env, b, g, exit, c, items, st2);
      RunSplit(env, g, |items| + 1, n - 1, At(c, 0, st1));
      assert Run(env, g, n - 1 - (|items| + 1), At(exit, 0, Effects(env, items, st1))) == Some(At(exit, 0, st2));
    } else {
      m, st1 := DivertedBack(env, b, g, exit, c, items, d', n - 1, st2);
      m := m + 1;
    }
  }

  /**
    The whole function: its graph reaches the exit block in st2 exactly when the body leaves the function in
    some store and the deferred statements, executed last one first up to a stray jump, turn it into st2.
   */
  lemma FunctionPreserved(env: Env, p: Policy, s: Stmt, st: Store, st2: Store)
    requires Deferrable(DefersOf(s))
    ensures
      (exists st1 :: Leaves(env, s, st, st1) && st2 == Cleanup(env, DefersOf(s), st1))
      <==> Reaches(env, BuildFunction(p, s).0, st, BuildFunction(p, s).1, st2)
  {
    hide Run, Step, BuildBody, Leaves, Cleanup, CleanupItems, Effects, BuildFunction, Diverted;
    BodyCollects(p, s);
    var b := BuildBody(p, s);
    var (g, exit) := BuildFunction(p, s);
    if b.defers == [] || b.exit.None? {
      UndeferredFunction(p, s);
      if b.exit.Some? { NoCleanup(env, b.defers); }
      forall st1 { BodyPreserved(env, p, s, st, st1); }
    } else {
      FunctionDiverted(p, s);
      BodyExit(p, s);
      var x := b.exit.value;
      var items := CleanupItems(p, b.defers);
      if st1 :| Leaves(env, s, st, st1) && st2 == Cleanup(env, b.defers, st1) {
        BodyPreserved(env, p, s, st, st1);
        var n :| Run(env, b.blocks, n, At(0, 0, st)) == Some(At(x, 0, st1));
        DivertedRun(env, b.blocks, g, x, |b.blocks|, items, At(0, 0, st), n, st1);
        CleanupRun(env, b.blocks, g, x, |b.blocks|, items, st1);
        RunAdd(env, g, n, |items| + 1, At(0, 0, st));
        CleanupEffects(env, p, b.defers, st1);
      }
      if Reaches(env, g, st, exit, st2) {
        var n :| Run(env, g, n, At(0, 0, st)) == Some(At(x, 0, st2));
        var m, st1 := DivertedBack(env, b.blocks, g, x, |b.blocks|, items, At(0, 0, st), n, st2);
        assert Reaches(env, b.blocks, st, b.exit, st1);
        BodyPreserved(env, p, s, st, st1);
        CleanupEffects(env, p, b.defers, st1);
      }
    }
  }

  lemma UndeferredFunction(p: Policy, s: Stmt)
    requires var b := BuildBody(p, s); b.defers == [] || b.exit.None?
    ensures BuildFunction(p, s) == (BuildBody(p, s).blocks, BuildBody(p, s).exit)
  {
    hide BuildBody;
  }

  lemma NoCleanup(env: Env, defers: seq<Stmt>)
    requires defers == []
    ensures forall st :: Cleanup(env, defers, st) == st
  {
  }
}
