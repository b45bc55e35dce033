/** What leaving scopes frees: which variables, and in what order. */
module ScopeFrees {
  import opened Graph
  import opened Lowering

  /** One owned variable gives one free, any other none; a list is freed in its order. */
  lemma {:induction false} FreesPointwise(p: Policy, x: string, xs: seq<string>, ys: seq<string>)
    ensures Frees(p, [x]) == if p.legacy && x in p.owners then [IFree(x)] else []
    ensures Frees(p, []) == [] && Frees(p, xs + ys) == Frees(p, xs) + Frees(p, ys)
    decreases |xs|
  {
    assert [x][1..] == [];
    if xs == [] {
      assert xs + ys == ys;
    } else {
      FreesPointwise(p, x, xs[1..], ys);
      assert (xs + ys)[1..] == xs[1..] + ys;
    }
  }

  /** Where control falls out of a block its variables are freed, the one declared last first, and then its scope is left. */
  lemma BlockEndFrees(p: Policy, b: Builder, backwards: seq<string>)
    requires Sound(b) && b.cur.Some? && b.scopes != []
    requires var names := Last(b.scopes); |backwards| == |names| && forall i :: 0 <= i < |names| ==> backwards[i] == names[|names| - 1 - i]
    ensures
      var (before, after) := (b.blocks[b.cur.value].stmts, LeaveBlock(p, b).blocks[b.cur.value].stmts);
      after == before + if p.scopeCalls then Frees(p, backwards) + [IExitScope] else []
  {
    hide EmitAll, Frees, InBounds;
    assert backwards == Reversed(Last(b.scopes));
  }

  /** The statements of blocks that follow each other. */
  function Trace(g: Blocks, path: seq<nat>): seq<Item>
    requires forall i :: 0 <= i < |path| ==> path[i] < |g|
  {
    if path == [] then [] else g[path[0]].stmts + Trace(g, path[1..])
  }

  /** Block by block from u to v, along edges that are the only way out. */
  ghost predicate Passes(g: Blocks, path: seq<nat>, u: nat, v: nat) {
    && path != [] && path[0] == u && path[|path| - 1] == v
    && (forall i :: 0 <= i < |path| ==> path[i] < |g|)
    && forall i :: 0 <= i < |path| - 1 ==> g[path[i]].succs == [path[i + 1]]
  }

  /** The variables of all scopes, innermost scope first. */
  function Outwards(scopes: seq<seq<string>>): seq<string> {
    if scopes == [] then [] else scopes[|scopes| - 1] + Outwards(scopes[..|scopes| - 1])
  }

  /** On the way through the cleanup blocks of a jump the variables of all scopes are freed, innermost scope first. */
  lemma {:induction false} ChainFrees(p: Policy, g: Blocks, scopes: seq<seq<string>>, last: nat) returns (path: seq<nat>)
    requires last < |g| && g[last].succs == [] && !EndsWithControlFlow(g[last])
    ensures
      var (r, end) := CleanupChain(p, g, scopes, last);
      && Passes(r, path, last, end) && (forall i :: 0 < i < |path| ==> path[i] >= |g|)
      && Trace(r, path) == g[last].stmts + Frees(p, Outwards(scopes))
    decreases |scopes|
  {
    var (r, end) := CleanupChain(p, g, scopes, last);
    if scopes == [] {
      path := [last];
      assert path[1..] == [];
    } else {
      var (names, outer) := (scopes[|scopes| - 1], scopes[..|scopes| - 1]);
      if names == [] {
        path := ChainFrees(p, g, outer, last);
        assert Outwards(scopes) == Outwards(outer);
      } else {
        var n := |g|;
        var g1 := AddEdge(g + [BasicBlock(Frees(p, names), [], [])], last, n);
        var rest := ChainFrees(p, g1, outer, n);
        path := [last] + rest;
        assert path[1..] == rest;
        assert r[last].succs == [n] && r[last].stmts == g[last].stmts;
        FreesPointwise(p, "", names, Outwards(outer));
      }
    }
  }
}
