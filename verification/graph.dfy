/** Basic blocks, their edges, and the abstract machine that runs them. */
module Graph {
  import opened Wrappers
  import opened Syntax

  /** What a basic block holds: plain statements, clones of branching statements, injected calls and jumps. */
  datatype Item =
    | IAssign(x: string, e: Expr)
    | ICall(routine: nat, args: seq<Expr>)
    | IEnterScope
    | IExitScope
    | IFree(v: string)
    | IIf(c: Expr)
    | ITest(c: Expr)
    | IWhile(c: Expr)
    | IFor(v: string, limit: Expr)
    | ISwitch(e: Expr, values: seq<int>, hasDefault: bool)
    | IBreak
    | ILoop
    | IEndcase
    | IReturn

  datatype BasicBlock = BasicBlock(stmts: seq<Item>, succs: seq<nat>, preds: seq<nat>)

  /** The blocks of one function; block number k is the k-th one created, block 0 is the entry. */
  type Blocks = seq<BasicBlock>

  const EMPTY_BLOCK := BasicBlock([], [], [])

  function To(stmts: seq<Item>, t: nat): BasicBlock {
    BasicBlock(stmts, [t], [])
  }

  function ToEither(stmts: seq<Item>, t: nat, f: nat): BasicBlock {
    BasicBlock(stmts, [t, f], [])
  }

  predicate IsJump(item: Item) {
    item.IBreak? || item.ILoop? || item.IEndcase? || item.IReturn?
  }

  predicate EndsWithControlFlow(b: BasicBlock) {
    b.stmts != [] && IsJump(b.stmts[|b.stmts| - 1])
  }

  /** The same statements and the same way out; predecessors do not matter to a run. */
  predicate SameFlow(a: BasicBlock, b: BasicBlock) {
    a.stmts == b.stmts && a.succs == b.succs
  }

  function AddEdge(g: Blocks, u: nat, v: nat): (r: Blocks)
    requires u < |g| && v < |g|
    ensures |r| == |g|
    ensures r[u].succs == g[u].succs + [v]
    ensures forall i :: 0 <= i < |g| ==> r[i].stmts == g[i].stmts
    ensures forall i :: 0 <= i < |g| && i != u ==> r[i].succs == g[i].succs
  {
    var g1 := g[u := g[u].(succs := g[u].succs + [v])];
    g1[v := g1[v].(preds := g1[v].preds + [u])]
  }

  // ----- running a graph -----

  datatype Config = At(block: nat, pos: nat, st: Store)

  /** Scope calls and frees work on the heap, branching statements on nothing: none of them changes a variable. */
  function Effect(env: Env, item: Item, st: Store): Store {
    match item
    case IAssign(x, e) => st[x := Eval(env, e, st)]
    case ICall(f, args) => env.call(f, EvalAll(env, args, st), st)
    case _ => st
  }

  /** Which successor the end of a block leads to; None when the code generator has no branch to emit. */
  function Branch(env: Env, b: BasicBlock, st: Store): Option<nat> {
    if |b.succs| == 0 then None
    else if |b.succs| == 1 then Some(b.succs[0])
    else if b.stmts == [] then None
    else
      match b.stmts[|b.stmts| - 1]
      case IIf(c) => TwoWay(b, Eval(env, c, st) != 0)
      case ITest(c) => TwoWay(b, Eval(env, c, st) != 0)
      case IWhile(c) => TwoWay(b, Eval(env, c, st) != 0)
      case IFor(v, limit) => TwoWay(b, Eval(env, Var(v), st) <= Eval(env, limit, st))
      case ISwitch(e, values, hasDefault) =>
        var i := Select(Eval(env, e, st), values);
        if i < |values| || hasDefault then (if i < |b.succs| then Some(b.succs[i]) else None)
        else Some(b.succs[|b.succs| - 1])
      case _ => None
  }

  function TwoWay(b: BasicBlock, holds: bool): Option<nat> {
    if |b.succs| != 2 then None else Some(if holds then b.succs[0] else b.succs[1])
  }

  function Step(env: Env, g: Blocks, c: Config): Option<Config> {
    if c.block >= |g| then None
    else if c.pos < |g[c.block].stmts| then Some(At(c.block, c.pos + 1, Effect(env, g[c.block].stmts[c.pos], c.st)))
    else
      match Branch(env, g[c.block], c.st)
      case None => None
      case Some(b) => Some(At(b, 0, c.st))
  }

  function Run(env: Env, g: Blocks, n: nat, c: Config): Option<Config> {
    if n == 0 then Some(c)
    else
      match Step(env, g, c)
      case None => None
      case Some(d) => Run(env, g, n - 1, d)
  }

  lemma {:induction false} RunAdd(env: Env, g: Blocks, m: nat, n: nat, c: Config)
    requires Run(env, g, m, c).Some?
    ensures Run(env, g, m + n, c) == Run(env, g, n, Run(env, g, m, c).value)
  {
    if m > 0 {
      RunAdd(env, g, m - 1, n, Step(env, g, c).value);
    }
  }

  predicate Final(env: Env, g: Blocks, c: Config) {
    Step(env, g, c).None?
  }

  /** A run that stops after n steps passes, on its way, whatever it reaches after m steps. */
  lemma RunSplit(env: Env, g: Blocks, m: nat, n: nat, c: Config)
    requires Run(env, g, m, c).Some?
    requires Run(env, g, n, c).Some? && Final(env, g, Run(env, g, n, c).value)
    ensures m <= n && Run(env, g, n - m, Run(env, g, m, c).value) == Run(env, g, n, c)
  {
    if m <= n {
      RunAdd(env, g, m, n - m, c);
    } else {
      RunAdd(env, g, n, m - n, c);
    }
  }

  // ----- edges are recorded on both sides -----

  function Count(s: seq<nat>, x: nat): nat {
    multiset(s)[x]
  }

  ghost predicate InRange(g: Blocks) {
    forall u :: 0 <= u < |g| ==> (forall v :: v in g[u].succs ==> v < |g|) && (forall v :: v in g[u].preds ==> v < |g|)
  }

  /** v occurs in u's successors as often as u occurs in v's predecessors. */
  ghost predicate Mirrored(g: Blocks) {
    forall u, v :: 0 <= u < |g| && 0 <= v < |g| ==> Count(g[u].succs, v) == Count(g[v].preds, u)
  }

  lemma CountMore(s: seq<nat>, x: nat, y: nat)
    ensures Count(s + [x], y) == Count(s, y) + if x == y then 1 else 0
  {
  }

  lemma AddEdgeMirrored(g: Blocks, u: nat, v: nat)
    requires u < |g| && v < |g| && Mirrored(g)
    ensures Mirrored(AddEdge(g, u, v))
  {
    hide Count;
    var r := AddEdge(g, u, v);
    forall a, b | 0 <= a < |r| && 0 <= b < |r| ensures Count(r[a].succs, b) == Count(r[b].preds, a) {
      assert Count(g[a].succs, b) == Count(g[b].preds, a);
      CountMore(g[u].succs, v, b);
      CountMore(g[v].preds, u, a);
      assert r[a].succs == (if a == u then g[u].succs + [v] else g[a].succs);
      assert r[b].preds == (if b == v then g[v].preds + [u] else g[b].preds);
    }
  }
}
