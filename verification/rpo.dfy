/** The reverse post-order of a graph's blocks, by depth-first search. */
module Ordering {
  import opened Wrappers
  import opened Graph

  // ----- paths -----

  ghost predicate IsPath(g: Blocks, p: seq<nat>) {
    && p != [] && (forall i :: 0 <= i < |p| ==> p[i] < |g|)
    && forall i :: 0 <= i < |p| - 1 ==> p[i + 1] in g[p[i]].succs
  }

  ghost predicate Connects(g: Blocks, p: seq<nat>, u: nat, v: nat) {
    IsPath(g, p) && p[0] == u && p[|p| - 1] == v
  }

  /** Some path of at least zero edges leads from u to v. */
  ghost predicate Leads(g: Blocks, u: nat, v: nat) {
    exists p :: Connects(g, p, u, v)
  }

  lemma LeadsSelf(g: Blocks, u: nat)
    requires u < |g|
    ensures Leads(g, u, u)
  {
    assert Connects(g, [u], u, u);
  }

  /** A path followed by one more edge. */
  lemma LeadsEdge(g: Blocks, u: nat, v: nat, w: nat)
    requires Leads(g, u, v) && w < |g| && w in g[v].succs
    ensures Leads(g, u, w)
  {
    var p :| Connects(g, p, u, v);
    assert Connects(g, p + [w], u, w);
  }

  lemma LeadsTrans(g: Blocks, u: nat, v: nat, w: nat)
    requires Leads(g, u, v) && Leads(g, v, w)
    ensures Leads(g, u, w)
  {
    var p :| Connects(g, p, u, v);
    var q :| Connects(g, q, v, w);
    var r := p + q[1..];
    forall i | 0 <= i < |r| - 1 ensures r[i + 1] in g[r[i]].succs {
      if i >= |p| - 1 { assert r[i + 1] == q[i + 2 - |p|] && r[i] == q[i + 1 - |p|]; }
    }
    assert Connects(g, r, u, w);
  }

  /** What is closed under edges holds all that can be reached from within it. */
  lemma {:induction false} ClosedHolds(g: Blocks, s: set<nat>, p: seq<nat>)
    requires IsPath(g, p) && p[0] in s && forall u, v :: u in s && u < |g| && v in g[u].succs ==> v in s
    ensures p[|p| - 1] in s
    decreases |p|
  {
    if |p| > 1 {
      var q := p[..|p| - 1];
      ClosedHolds(g, s, q);
      assert p[|p| - 2 + 1] in g[p[|p| - 2]].succs;
    }
  }

  // ----- the search -----

  ghost predicate InGraph(g: Blocks) {
    forall u, v :: 0 <= u < |g| && v in g[u].succs ==> v < |g|
  }

  ghost function AllBlocks(g: Blocks): set<nat> {
    Elements(seq(|g|, i => i))
  }

  function Elements(s: seq<nat>): set<nat> {
    set x | x in s
  }

  ghost predicate Distinct(s: seq<nat>) {
    forall i, j :: 0 <= i < j < |s| ==> s[i] != s[j]
  }

  /** Every edge out of a finished block leads to a block finished before it, or to one that leads back to it. */
  ghost predicate Ordered(g: Blocks, post: seq<nat>) {
    forall i, v :: 0 <= i < |post| && post[i] < |g| && v in g[post[i]].succs ==> v in post[..i] || Leads(g, v, post[i])
  }

  /** What holds between two calls of the search: finished blocks are visited, and lead to visited blocks only. */
  ghost predicate Searching(g: Blocks, visited: set<nat>, post: seq<nat>) {
    && InGraph(g) && (forall u :: u in visited ==> u < |g|) && Elements(post) <= visited
    && Distinct(post) && Ordered(g, post)
    && forall u, v :: u in post && u < |g| && v in g[u].succs ==> v in visited
  }

  /** What one call adds: it finishes exactly what it visits, and visits only what `from` leads to. */
  ghost predicate Extends(g: Blocks, from: nat, visited: set<nat>, post: seq<nat>, visited': set<nat>, post': seq<nat>) {
    && visited <= visited' && post <= post'
    && visited' - Elements(post') == visited - Elements(post)
    && forall u :: u in visited' && u !in visited ==> Leads(g, from, u)
  }

  method Search(g: Blocks, block: nat, visited: set<nat>, post: seq<nat>) returns (visited': set<nat>, post': seq<nat>)
    requires Searching(g, visited, post) && block < |g|
    requires forall u :: u in visited && u !in post ==> Leads(g, u, block)
    ensures Searching(g, visited', post') && Extends(g, block, visited, post, visited', post') && block in visited'
    ensures block !in visited ==> post' != [] && post'[|post'| - 1] == block
    decreases AllBlocks(g) - visited
  {
    if block in visited {
      return visited, post;
    }
    assert block in AllBlocks(g) by { assert seq(|g|, i => i)[block] == block; }
    visited', post' := visited + {block}, post;
    LeadsSelf(g, block);
    var i := 0;
    while i < |g[block].succs|
      invariant 0 <= i <= |g[block].succs|
      invariant Searching(g, visited', post') && block in visited' && block !in post'
      invariant Extends(g, block, visited + {block}, post, visited', post')
      invariant forall j :: 0 <= j < i ==> g[block].succs[j] in visited'
    {
      var succ := g[block].succs[i];
      assert succ in g[block].succs && Leads(g, block, block);
      forall u | u in visited' && u !in post' ensures Leads(g, u, block) && Leads(g, u, succ) {
        assert u in visited' - Elements(post');
        assert u in visited + {block} - Elements(post);
        if u != block { assert u in visited && u !in post; }
        LeadsEdge(g, u, block, succ);
      }
      ghost var seen, done := visited', post';
      visited', post' := Search(g, succ, visited', post');
      ExtendsTrans(g, block, succ, visited + {block}, post, seen, done, visited', post');
      i := i + 1;
    }
    Finish(g, block, visited, post, visited', post');
    post' := post' + [block];
  }

  lemma ExtendsTrans(g: Blocks, block: nat, succ: nat, v0: set<nat>, p0: seq<nat>, v1: set<nat>, p1: seq<nat>, v2: set<nat>, p2: seq<nat>)
    requires block < |g| && succ < |g| && succ in g[block].succs
    requires Extends(g, block, v0, p0, v1, p1) && Extends(g, succ, v1, p1, v2, p2)
    requires block in v0 && block !in p0
    ensures Extends(g, block, v0, p0, v2, p2) && block !in p2
  {
    forall u | u in v2 && u !in v0 ensures Leads(g, block, u) {
      if u !in v1 {
        LeadsSelf(g, block);
        LeadsEdge(g, block, block, succ);
        LeadsTrans(g, block, succ, u);
      }
    }
    assert block in v0 - Elements(p0);
    assert block in v2 - Elements(p2);
  }

  /** The block itself is finished after all its successors. */
  lemma Finish(g: Blocks, block: nat, visited: set<nat>, post: seq<nat>, visited': set<nat>, post': seq<nat>)
    requires Searching(g, visited', post') && block < |g| && block in visited' && block !in post' && block !in visited
    requires Extends(g, block, visited + {block}, post, visited', post')
    requires Elements(post) <= visited && forall u :: u in visited && u !in post ==> Leads(g, u, block)
    requires forall j :: 0 <= j < |g[block].succs| ==> g[block].succs[j] in visited'
    ensures Searching(g, visited', post' + [block]) && Extends(g, block, visited, post, visited', post' + [block])
  {
    var r := post' + [block];
    assert Elements(r) == Elements(post') + {block};
    LeadsSelf(g, block);
    forall i, v | 0 <= i < |r| && r[i] < |g| && v in g[r[i]].succs ensures v in r[..i] || Leads(g, v, r[i]) {
      assert r[..i] == post'[..i];
      if i == |post'| {
        assert post'[..i] == post';
        if v !in post' {
          assert v in visited' - Elements(post');
          assert v in (visited + {block}) - Elements(post);
        }
      }
    }
    assert visited' - Elements(r) == visited - Elements(post) by {
      assert visited' - Elements(r) == (visited' - Elements(post')) - {block};
    }
  }

  method Reverse(s: seq<nat>) returns (r: seq<nat>)
    ensures |r| == |s| && forall i :: 0 <= i < |s| ==> r[i] == s[|s| - 1 - i]
  {
    r := s;
    var i, j := 0, |s|;
    while i < j && i < j - 1
      invariant 0 <= i <= j <= |s| && i + j == |s| && |r| == |s|
      invariant forall k :: i <= k < j ==> r[k] == s[k]
      invariant forall k :: (0 <= k < i || j <= k < |s|) ==> r[k] == s[|s| - 1 - k]
    {
      j := j - 1;
      r := r[i := r[j]][j := r[i]];
      i := i + 1;
    }
  }

  /** Where v stands in the order. */
  ghost predicate Precedes(order: seq<nat>, u: nat, v: nat) {
    exists i, j :: 0 <= i < j < |order| && order[i] == u && order[j] == v
  }

  /** The order lists the blocks reachable from the entry, each once, entry first, and goes against an edge only inside a cycle. */
  ghost predicate ReversePostOrder(g: Blocks, entry: nat, order: seq<nat>) {
    && Distinct(order) && order != [] && order[0] == entry
    && (forall u :: u in order <==> Leads(g, entry, u))
    && forall u, v :: u in order && u < |g| && v in g[u].succs ==> Precedes(order, u, v) || Leads(g, v, u)
  }

  method BlocksInRpo(g: Blocks, entry: Option<nat>) returns (order: seq<nat>)
    requires InGraph(g) && (entry.Some? ==> entry.value < |g|)
    ensures entry.None? ==> order == []
    ensures entry.Some? ==> ReversePostOrder(g, entry.value, order)
  {
    if entry.None? {
      return [];
    }
    var visited, post := Search(g, entry.value, {}, []);
    order := Reverse(post);
    Reached(g, entry.value, visited, post);
    ReversedOrder(g, entry.value, post, order);
  }

  lemma Reached(g: Blocks, entry: nat, visited: set<nat>, post: seq<nat>)
    requires entry < |g| && Searching(g, visited, post) && Extends(g, entry, {}, [], visited, post) && entry in visited
    ensures forall u :: u in post <==> Leads(g, entry, u)
  {
    assert visited - Elements(post) == {};
    forall u ensures u in post <==> Leads(g, entry, u) {
      if u in post { assert u in visited; }
      if Leads(g, entry, u) {
        var p :| Connects(g, p, entry, u);
        assert entry in Elements(post) by { assert entry !in visited - Elements(post); }
        assert forall a, b :: a in Elements(post) && a < |g| && b in g[a].succs ==> b in Elements(post) by {
          forall a, b | a in Elements(post) && a < |g| && b in g[a].succs ensures b in Elements(post) {
            assert b in visited && b !in visited - Elements(post);
          }
        }
        ClosedHolds(g, Elements(post), p);
      }
    }
  }

  lemma ReversedOrder(g: Blocks, entry: nat, post: seq<nat>, order: seq<nat>)
    requires |order| == |post| && forall i :: 0 <= i < |post| ==> order[i] == post[|post| - 1 - i]
    requires Distinct(post) && Ordered(g, post) && post != [] && post[|post| - 1] == entry
    requires forall u :: u in post <==> Leads(g, entry, u)
    ensures ReversePostOrder(g, entry, order)
  {
    var n := |post|;
    forall u ensures u in order <==> u in post {
      if u in order { var i :| 0 <= i < n && order[i] == u; assert post[n - 1 - i] == u; }
      if u in post { var i :| 0 <= i < n && post[i] == u; assert order[n - 1 - i] == u; }
    }
    forall u, v | u in order && u < |g| && v in g[u].succs ensures Precedes(order, u, v) || Leads(g, v, u) {
      var i :| 0 <= i < n && post[i] == u;
      if !Leads(g, v, u) {
        assert v in post[..i];
        var j :| 0 <= j < i && post[j] == v;
        assert order[n - 1 - i] == u && order[n - 1 - j] == v;
      }
    }
  }

  /** Without a cycle among the reachable blocks, the order is a topological one. */
  lemma Topological(g: Blocks, entry: nat, order: seq<nat>, u: nat, v: nat)
    requires ReversePostOrder(g, entry, order)
    requires forall a, b :: 0 <= a < |g| && Leads(g, entry, a) && b in g[a].succs ==> !Leads(g, b, a)
    requires u < |g| && v in g[u].succs && Leads(g, entry, u)
    ensures Precedes(order, u, v) && !Precedes(order, v, u)
  {
  }
}
