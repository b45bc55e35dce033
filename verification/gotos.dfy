/** GOTOs get their edges last, when all labels are known and the exit block has been rewired. */
module Gotos {
  import opened Wrappers
  import opened Syntax
  import opened Graph
  import opened Deferral

  /** A GOTO waiting for its label, by the block it ends; the label of a computed GOTO is unknown. */
  datatype Goto = Goto(from: nat, name: Option<string>)

  type Labels = map<string, nat>

  ghost predicate Placed(g: Blocks, labels: Labels, gotos: seq<Goto>) {
    (forall l :: l in labels ==> labels[l] < |g|) && forall i :: 0 <= i < |gotos| ==> gotos[i].from < |g|
  }

  function Destination(labels: Labels, q: Goto): Option<nat> {
    if q.name.Some? && q.name.value in labels then Some(labels[q.name.value]) else None
  }

  function ResolveOne(g: Blocks, labels: Labels, q: Goto): (r: Blocks)
    requires Placed(g, labels, [q])
    ensures |r| == |g|
  {
    assert [q][0] == q;
    var to := Destination(labels, q);
    if to.Some? then AddEdge(g, q.from, to.value) else g
  }

  function Resolve(g: Blocks, labels: Labels, gotos: seq<Goto>): (r: Blocks)
    requires Placed(g, labels, gotos)
    ensures |r| == |g|
    decreases |gotos|
  {
    if gotos == [] then g
    else
      var n := |gotos| - 1;
      ResolveOne(Resolve(g, labels, gotos[..n]), labels, gotos[n])
  }

  /** Where the GOTOs of block u lead, in their order; unknown labels and computed GOTOs lead nowhere. */
  function Destinations(labels: Labels, gotos: seq<Goto>, u: nat): seq<nat>
    decreases |gotos|
  {
    if gotos == [] then []
    else
      var q := gotos[|gotos| - 1];
      var to := Destination(labels, q);
      Destinations(labels, gotos[..|gotos| - 1], u) + if q.from == u && to.Some? then [to.value] else []
  }

  /** Every block keeps its statements and its ways out, and gets the destinations of its GOTOs behind them. */
  lemma {:induction false} ResolvedEdges(g: Blocks, labels: Labels, gotos: seq<Goto>, u: nat)
    requires Placed(g, labels, gotos) && u < |g|
    ensures
      var r := Resolve(g, labels, gotos);
      r[u].stmts == g[u].stmts && r[u].succs == g[u].succs + Destinations(labels, gotos, u)
    decreases |gotos|
  {
    if gotos != [] { ResolvedEdges(g, labels, gotos[..|gotos| - 1], u); }
  }

  /** Successors and predecessors still mirror each other. */
  lemma {:induction false} ResolvedConsistent(g: Blocks, labels: Labels, gotos: seq<Goto>)
    requires Placed(g, labels, gotos) && Consistent(g)
    ensures Consistent(Resolve(g, labels, gotos))
    decreases |gotos|
  {
    hide Consistent;
    if gotos != [] {
      var n := |gotos| - 1;
      ResolvedConsistent(g, labels, gotos[..n]);
      var to := Destination(labels, gotos[n]);
      if to.Some? { AddEdgeConsistent(Resolve(g, labels, gotos[..n]), gotos[n].from, to.value); }
    }
  }

  /** A block that no label names keeps its predecessors; so the exit block keeps the cleanup block as its only one. */
  lemma {:induction false} UnnamedKept(g: Blocks, labels: Labels, gotos: seq<Goto>, exit: nat)
    requires Placed(g, labels, gotos) && exit < |g| && exit !in labels.Values
    ensures Resolve(g, labels, gotos)[exit].preds == g[exit].preds
    decreases |gotos|
  {
    if gotos != [] {
      var n := |gotos| - 1;
      UnnamedKept(g, labels, gotos[..n], exit);
      var to := Destination(labels, gotos[n]);
      if to.Some? { EdgeElsewhere(Resolve(g, labels, gotos[..n]), gotos[n].from, to.value, exit); }
    }
  }

  lemma EdgeElsewhere(g: Blocks, u: nat, v: nat, w: nat)
    requires u < |g| && v < |g| && w < |g| && v != w
    ensures AddEdge(g, u, v)[w].preds == g[w].preds
  {
  }

  lemma {:induction false} NoneFrom(labels: Labels, gotos: seq<Goto>, u: nat)
    requires forall i :: 0 <= i < |gotos| ==> gotos[i].from != u
    ensures Destinations(labels, gotos, u) == []
    decreases |gotos|
  {
    if gotos != [] { NoneFrom(labels, gotos[..|gotos| - 1], u); }
  }

  lemma {:induction false} OneFrom(labels: Labels, gotos: seq<Goto>, k: nat)
    requires k < |gotos| && forall i :: 0 <= i < |gotos| && i != k ==> gotos[i].from != gotos[k].from
    ensures
      var to := Destination(labels, gotos[k]);
      Destinations(labels, gotos, gotos[k].from) == if to.Some? then [to.value] else []
    decreases |gotos|
  {
    var n := |gotos| - 1;
    if k == n {
      NoneFrom(labels, gotos[..n], gotos[k].from);
    } else {
      OneFrom(labels, gotos[..n], k);
    }
  }

  /**
    A block that had no way out and ends in one GOTO is left for the block of its label, in every store; with an
    unknown label, or a computed one, the run stops there.
   */
  lemma GotoTaken(env: Env, g: Blocks, labels: Labels, gotos: seq<Goto>, k: nat, st: Store)
    requires Placed(g, labels, gotos) && k < |gotos| && g[gotos[k].from].succs == []
    requires forall i :: 0 <= i < |gotos| && i != k ==> gotos[i].from != gotos[k].from
    ensures Branch(env, Resolve(g, labels, gotos)[gotos[k].from], st) == Destination(labels, gotos[k])
  {
    ResolvedEdges(g, labels, gotos, gotos[k].from);
    OneFrom(labels, gotos, k);
  }

  class GotoResolver {
    var blocks: Blocks
    var labelTargets: Labels
    var unresolvedGotos: seq<Goto>

    constructor (blocks: Blocks, labelTargets: Labels, unresolvedGotos: seq<Goto>)
      ensures this.blocks == blocks && this.labelTargets == labelTargets && this.unresolvedGotos == unresolvedGotos
    {
      this.blocks, this.labelTargets, this.unresolvedGotos := blocks, labelTargets, unresolvedGotos;
    }

    method ResolveGotos()
      requires Placed(blocks, labelTargets, unresolvedGotos)
      modifies this`blocks
      ensures blocks == Resolve(old(blocks), labelTargets, unresolvedGotos)
    {
      var i := 0;
      while i < |unresolvedGotos|
        invariant 0 <= i <= |unresolvedGotos| && |blocks| == |old(blocks)|
        invariant blocks == Resolve(old(blocks), labelTargets, unresolvedGotos[..i])
      {
        var q := unresolvedGotos[i];
        if q.name.Some? && q.name.value in labelTargets {
          blocks := AddEdge(blocks, q.from, labelTargets[q.name.value]);
        }
        assert unresolvedGotos[..i + 1][..i] == unresolvedGotos[..i];
        i := i + 1;
      }
      assert unresolvedGotos[..i] == unresolvedGotos;
    }
  }
}
