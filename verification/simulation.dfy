/**
  Lowering preserves meaning, first half: whatever structured execution of a statement does, the
  finished graph does from the point where the builder began to the point where the outcome leads.
 */
module Simulation {
  import opened Wrappers
  import opened Syntax
  import opened Graph
  import opened Lowering

  /** Block i of the finished graph is the builder's; the block still current may have grown. */
  ghost predicate SealedAt(b: Builder, g: Blocks, i: nat)
    requires i < |b.blocks| <= |g|
  {
    if b.cur == Some(i) then b.blocks[i].stmts <= g[i].stmts else SameFlow(b.blocks[i], g[i])
  }

  /** The finished graph g contains all that lowering did between a and b. */
  ghost predicate Sealed(a: Builder, b: Builder, g: Blocks) {
    |b.blocks| <= |g| &&
    forall i :: 0 <= i < |b.blocks| && (i >= |a.blocks| || a.cur == Some(i)) ==> SealedAt(b, g, i)
  }

  function End(b: Builder, st: Store): Config
    requires Open(b)
  {
    At(b.cur.value, |b.blocks[b.cur.value].stmts|, st)
  }

  /** A jump without a target: the block that ends with it leads nowhere. */
  ghost predicate DeadEnd(g: Blocks, item: Item, d: Config) {
    d.block < |g| && d.pos == |g[d.block].stmts| && g[d.block].succs == []
    && g[d.block].stmts != [] && Last(g[d.block].stmts) == item
  }

  ghost predicate AtTarget(g: Blocks, targets: seq<nat>, item: Item, st: Store, d: Config) {
    if targets != [] then d == At(Last(targets), 0, st) else DeadEnd(g, item, d) && d.st == st
  }

  /** Where the graph is when a statement lowered from a to b has ended with outcome o in store st. */
  ghost predicate Arrives(g: Blocks, b: Builder, o: Outcome, st: Store, d: Config) {
    match o
    case Normal => Open(b) && d == End(b, st)
    case Broke => AtTarget(g, b.breaks, IBreak, st, d)
    case Looped => AtTarget(g, b.loops, ILoop, st, d)
    case Endcased => AtTarget(g, b.endcases, IEndcase, st, d)
    case Returned => b.exit.Some? && d == At(b.exit.value, 0, st)
  }

  lemma SealedSplit(a: Builder, b: Builder, c: Builder, g: Blocks)
    requires Sealed(a, c, g) && Grows(a, b) && Grows(b, c)
    ensures Sealed(a, b, g) && Sealed(b, c, g)
  {
    forall i | 0 <= i < |b.blocks| && (i >= |a.blocks| || a.cur == Some(i)) ensures SealedAt(b, g, i) {
      assert SealedAt(c, g, i);
    }
    forall i | 0 <= i < |c.blocks| && (i >= |b.blocks| || b.cur == Some(i)) ensures SealedAt(c, g, i) {
    }
  }

  // ----- straight pieces of a run -----

  function Effects(env: Env, items: seq<Item>, st: Store): Store {
    if items == [] then st else Effects(env, items[1..], Effect(env, items[0], st))
  }

  lemma {:induction false} RunItems(env: Env, g: Blocks, i: nat, p: nat, items: seq<Item>, st: Store)
    requires i < |g| && p + |items| <= |g[i].stmts| && g[i].stmts[p..p + |items|] == items
    ensures Run(env, g, |items|, At(i, p, st)) == Some(At(i, p + |items|, Effects(env, items, st)))
    decreases |items|
  {
    if items != [] {
      assert g[i].stmts[p] == items[0];
      assert g[i].stmts[p + 1..p + 1 + |items[1..]|] == items[1..];
      RunItems(env, g, i, p + 1, items[1..], Effect(env, items[0], st));
    }
  }

  lemma {:induction false} NoEffects(env: Env, items: seq<Item>, st: Store)
    requires forall i :: 0 <= i < |items| ==> items[i].IFree? || items[i].IExitScope? || items[i].IEnterScope?
    ensures Effects(env, items, st) == st
    decreases |items|
  {
    if items != [] {
      assert items[0].IFree? || items[0].IExitScope? || items[0].IEnterScope?;
      NoEffects(env, items[1..], st);
    }
  }

  /** One step from the end of a block with a single successor. */
  lemma Follow(env: Env, g: Blocks, i: nat, t: nat, st: Store)
    requires i < |g| && g[i].succs == [t]
    ensures Run(env, g, 1, At(i, |g[i].stmts|, st)) == Some(At(t, 0, st))
  {
    assert Run(env, g, 1, At(i, |g[i].stmts|, st)) == Run(env, g, 0, At(t, 0, st));
  }

  /** The chain of cleanup blocks is walked from end to end without changing the store. */
  lemma {:induction false} RunChain(env: Env, p: Policy, b: Blocks, scopes: seq<seq<string>>, last: nat, g: Blocks, st: Store)
    returns (n: nat)
    requires last < |b| && b[last].succs == [] && !EndsWithControlFlow(b[last])
    requires var (b', last') := CleanupChain(p, b, scopes, last);
      && |b'| <= |g| && b'[last'].stmts <= g[last'].stmts
      && forall i :: 0 <= i < |b'| && (i >= |b| || i == last) && i != last' ==> SameFlow(b'[i], g[i])
    ensures var (b', last') := CleanupChain(p, b, scopes, last);
      Run(env, g, n, At(last, |b[last].stmts|, st)) == Some(At(last', |b'[last'].stmts|, st))
    decreases |scopes|
  {
    hide Frees, Effects, Step, Branch;
    var (b', last') := CleanupChain(p, b, scopes, last);
    if scopes == [] {
      n := 0;
    } else {
      var vars := scopes[|scopes| - 1];
      if vars == [] {
        n := RunChain(env, p, b, scopes[..|scopes| - 1], last, g, st);
      } else {
        var k := |b|;
        var items := Frees(p, vars);
        var b1 := AddEdge(b + [BasicBlock(items, [], [])], last, k);
        var m := RunChain(env, p, b1, scopes[..|scopes| - 1], k, g, st);
        assert SameFlow(b'[last], g[last]);
        Follow(env, g, last, k, st);
        assert b1[k].stmts == items && items <= g[k].stmts;
        RunItems(env, g, k, 0, items, st);
        NoEffects(env, items, st);
        RunAdd(env, g, 1, |items|, At(last, |b[last].stmts|, st));
        RunAdd(env, g, 1 + |items|, m, At(last, |b[last].stmts|, st));
        n := 1 + |items| + m;
      }
    }
  }

  /** The chain and, at its end, the jump statement itself; r is the builder's graph after the jump. */
  lemma RunToJump(env: Env, p: Policy, b: Blocks, scopes: seq<seq<string>>, c: nat, item: Item, r: Blocks, g: Blocks, st: Store)
    returns (n: nat, last: nat)
    requires c < |b| && b[c].succs == [] && !EndsWithControlFlow(b[c]) && IsJump(item)
    requires var (b', l) := CleanupChain(p, b, scopes, c);
      && |b'| <= |r| <= |g|
      && (forall i :: 0 <= i < |b'| && i != l ==> SameFlow(r[i], b'[i]))
      && r[l].stmts == b'[l].stmts + [item]
    requires forall i :: 0 <= i < |r| && (i >= |b| || i == c) ==> SameFlow(r[i], g[i])
    ensures last == CleanupChain(p, b, scopes, c).1 && last < |r| && r[last].stmts != [] && Last(r[last].stmts) == item
    ensures Run(env, g, n, At(c, |b[c].stmts|, st)) == Some(At(last, |r[last].stmts|, st))
  {
    var (b', l) := CleanupChain(p, b, scopes, c);
    forall i | 0 <= i < |b'| && (i >= |b| || i == c) && i != l ensures SameFlow(b'[i], g[i]) {
      assert SameFlow(r[i], g[i]);
    }
    assert SameFlow(r[l], g[l]);
    var m := RunChain(env, p, b, scopes, c, g, st);
    RunItems(env, g, l, |b'[l].stmts|, [item], st);
    RunAdd(env, g, m, 1, At(c, |b[c].stmts|, st));
    n, last := m + 1, l;
  }

  lemma SimJump(env: Env, p: Policy, b: Builder, item: Item, targets: seq<nat>, g: Blocks, st: Store)
    returns (n: nat, d: Config)
    requires Sound(b) && b.cur.Some? && IsJump(item) && targets in [b.breaks, b.loops, b.endcases]
    requires Sealed(b, Jump(p, b, item, targets), g)
    ensures Run(env, g, n, End(b, st)) == Some(d) && AtTarget(g, targets, item, st, d)
  {
    hide Jump, CleanupChain, Run, Step, Sealed, InBounds, Keeps;
    var last;
    JumpBlocks(p, b, item, targets, g);
    n, last := SimToJump(env, p, b, item, targets, g, st);
    d := At(last, |g[last].stmts|, st);
    if targets != [] {
      Follow(env, g, last, Last(targets), st);
      RunAdd(env, g, n, 1, End(b, st));
      n, d := n + 1, At(Last(targets), 0, st);
    }
  }

  lemma SimToJump(env: Env, p: Policy, b: Builder, item: Item, targets: seq<nat>, g: Blocks, st: Store)
    returns (n: nat, last: nat)
    requires Sound(b) && b.cur.Some? && IsJump(item) && targets in [b.breaks, b.loops, b.endcases]
    requires Sealed(b, Jump(p, b, item, targets), g)
    ensures last == CleanupChain(p, Emit(b, IExitScope).blocks, b.scopes, b.cur.value).1 < |g|
    ensures Run(env, g, n, End(b, st)) == Some(At(last, |g[last].stmts|, st)) && g[last].stmts != [] && Last(g[last].stmts) == item
  {
    hide Jump, CleanupChain, Run, Step, Sealed, InBounds, Keeps;
    var c := b.cur.value;
    JumpBlocks(p, b, item, targets, g);
    RunItems(env, g, c, |b.blocks[c].stmts|, [IExitScope], st);
    NoEffects(env, [IExitScope], st);
    n, last := RunToJump(env, p, Emit(b, IExitScope).blocks, b.scopes, c, item, Jump(p, b, item, targets).blocks, g, st);
    RunAdd(env, g, 1, n, End(b, st));
    n := 1 + n;
  }

  /** How the graph after a jump relates to the cleanup chain before it. */
  lemma JumpBlocks(p: Policy, b: Builder, item: Item, targets: seq<nat>, g: Blocks)
    requires Sound(b) && b.cur.Some? && IsJump(item) && targets in [b.breaks, b.loops, b.endcases]
    requires Sealed(b, Jump(p, b, item, targets), g)
    ensures
      var r := Jump(p, b, item, targets).blocks;
      var b1 := Emit(b, IExitScope).blocks;
      var (b', l) := CleanupChain(p, b1, b.scopes, b.cur.value);
      && |b'| == |r| <= |g|
      && (forall i :: 0 <= i < |b'| && i != l ==> SameFlow(r[i], b'[i]))
      && r[l].stmts == b'[l].stmts + [item]
      && r[l].succs == (if targets == [] then [] else [Last(targets)])
      && (forall i :: 0 <= i < |r| && (i >= |b1| || i == b.cur.value) ==> SameFlow(r[i], g[i]))
      && b1[b.cur.value].stmts <= g[b.cur.value].stmts
  {
    var r := Jump(p, b, item, targets);
    forall i | 0 <= i < |r.blocks| && (i >= |b.blocks| || i == b.cur.value) ensures SameFlow(r.blocks[i], g[i]) {
      assert SealedAt(r, g, i);
    }
  }

  lemma SimReturn(env: Env, p: Policy, b: Builder, g: Blocks, st: Store) returns (n: nat, d: Config)
    requires Sound(b) && b.cur.Some? && Sealed(b, ReturnJump(p, b), g)
    ensures Run(env, g, n, End(b, st)) == Some(d) && Arrives(g, ReturnJump(p, b), Returned, st, d)
  {
    var r := ReturnJump(p, b);
    ReturnBlocks(p, b, g);
    var m, last := RunToJump(env, p, b.blocks, b.scopes, b.cur.value, IReturn, r.blocks, g, st);
    Follow(env, g, last, r.exit.value, st);
    RunAdd(env, g, m, 1, End(b, st));
    n, d := m + 1, At(r.exit.value, 0, st);
  }

  lemma ReturnBlocks(p: Policy, b: Builder, g: Blocks)
    requires Sound(b) && b.cur.Some? && Sealed(b, ReturnJump(p, b), g)
    ensures
      var r := ReturnJump(p, b);
      var (b', l) := CleanupChain(p, b.blocks, b.scopes, b.cur.value);
      && |b'| <= |r.blocks| <= |g|
      && (forall i :: 0 <= i < |b'| && i != l ==> SameFlow(r.blocks[i], b'[i]))
      && r.blocks[l].stmts == b'[l].stmts + [IReturn]
      && r.blocks[l].succs == [r.exit.value]
      && (forall i :: 0 <= i < |r.blocks| && (i >= |b.blocks| || i == b.cur.value) ==> SameFlow(r.blocks[i], g[i]))
  {
    var r := ReturnJump(p, b);
    forall i | 0 <= i < |r.blocks| && (i >= |b.blocks| || i == b.cur.value) ensures SameFlow(r.blocks[i], g[i]) {
      assert SealedAt(r, g, i);
    }
  }
}
