/** What holds of the graph of every function, whatever its body and its deferred statements are. */
module FunctionGraphs {
  import opened Syntax
  import opened Graph
  import opened Lowering
  import opened Functions
  import opened DeferredStatements
  import opened Deferral
  import opened Ordering

  /** The cleanup block comes right after the blocks of the body. */
  function CleanupBlock(p: Policy, s: Stmt): nat {
    |BuildBody(p, s).blocks|
  }

  /** Edges stay inside the graph and are recorded on both sides, the rewired ones included; the graph has an entry. */
  lemma FunctionConsistent(p: Policy, s: Stmt)
    ensures var g := BuildFunction(p, s).0; g != [] && Consistent(g) && InGraph(g)
  {
    hide Rewire, LowerDefers, Mirrored, Lower, FinishBody;
    LinkedBody(p, s);
    var b := BuildBody(p, s);
    BodyNotEmpty(p, s);
    if b.defers != [] && b.exit.Some? {
      var b1 := CleanupStart(p, s);
      var b2 := LowerDefers(p, b1, b.defers);
      LinkedDefers(p, b1, b.defers);
      AddEdgeConsistent(b2.blocks, b1.cur.value, b.exit.value);
      RewireLinked(AddEdge(b2.blocks, b1.cur.value, b.exit.value), b.exit.value, b1.cur.value);
    }
  }

  lemma BodyNotEmpty(p: Policy, s: Stmt)
    ensures BuildBody(p, s).blocks != []
  {
  }

  /** With anything deferred, whatever it is, every way from the entry to the exit block ends with the cleanup block. */
  lemma ExitThroughCleanup(p: Policy, s: Stmt, path: seq<nat>)
    requires DefersOf(s) != [] && BuildFunction(p, s).1.Some?
    requires var (g, exit) := BuildFunction(p, s); IsPath(g, path) && path[0] == 0 && path[|path| - 1] == exit.value
    ensures |path| >= 2 && path[|path| - 2] == CleanupBlock(p, s)
  {
    hide Rewire, LowerDefers, Mirrored, Lower, FinishBody;
    var b := BuildBody(p, s);
    BodyCollects(p, s);
    BodyExit(p, s);
    LinkedBody(p, s);
    var b1 := CleanupStart(p, s);
    var b2 := LowerDefers(p, b1, b.defers);
    LinkedDefers(p, b1, b.defers);
    AddEdgeConsistent(b2.blocks, b1.cur.value, b.exit.value);
    RewireLinked(AddEdge(b2.blocks, b1.cur.value, b.exit.value), b.exit.value, b1.cur.value);
    assert path[|path| - 2 + 1] in BuildFunction(p, s).0[path[|path| - 2]].succs;
  }
}
