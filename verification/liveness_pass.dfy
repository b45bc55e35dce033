/** The liveness visitors over one block, and the iteration over the blocks of a function. */
module LivenessPass {
  import opened Graph
  import opened Ordering
  import L = Liveness

  // ----- calls -----

  predicate HasCall(e: L.Expr) {
    match e
    case Number(_) => false
    case Var(_) => false
    case Unary(_, a) => HasCall(a)
    case Binary(_, l, r) => HasCall(l) || HasCall(r)
    case Element(v, i) => HasCall(v) || HasCall(i)
    case Member(o, _) => HasCall(o)
    case Choice(c, t, f) => HasCall(c) || HasCall(t) || HasCall(f)
    case FunctionCall(_, _) => true
  }

  predicate AnyCall(es: seq<L.Expr>) {
    es != [] && (HasCall(es[0]) || AnyCall(es[1..]))
  }

  predicate TargetsCall(ts: seq<L.Target>) {
    ts != [] && ((ts[0].ToElement? && (HasCall(ts[0].vector) || HasCall(ts[0].index))) || TargetsCall(ts[1..]))
  }

  predicate Calls(s: L.Stmt) {
    match s
    case Assign(targets, values) => TargetsCall(targets) || AnyCall(values)
    case RoutineCall(_, _) => true
    case Condition(c) => HasCall(c)
    case ForHeader(_, start, end, step) => HasCall(start) || HasCall(end) || (step.Some? && HasCall(step.value))
    case Plain => false
  }

  predicate BlockCalls(ss: seq<L.Stmt>) {
    ss != [] && (Calls(ss[0]) || BlockCalls(ss[1..]))
  }

  class BlockVisitor {
    const vars: L.Symbols
    var useSet: set<string>
    var defSet: set<string>
    var callSeen: bool

    ghost function State(): L.Summary
      reads this
    {
      L.Summary(useSet, defSet)
    }

    constructor (vars: L.Symbols)
      ensures this.vars == vars && State() == L.Summary({}, {}) && !callSeen
    {
      this.vars := vars;
      useSet, defSet, callSeen := {}, {}, false;
    }

    /** A variable read before the block has defined it is used by the block. */
    method VisitVariable(x: string)
      modifies this`useSet
      ensures useSet == old(useSet) + ((if x in vars then {x} else {}) - defSet)
    {
      if x in vars && x !in defSet {
        useSet := useSet + {x};
      }
    }

    method VisitExpr(e: L.Expr)
      modifies this`useSet, this`callSeen
      ensures useSet == old(useSet) + (L.Uses(vars, e) - defSet)
      ensures callSeen <==> old(callSeen) || HasCall(e)
      decreases e, 1
    {
      match e
      case Number(_) =>
      case Var(x) => VisitVariable(x);
      case Unary(_, a) => VisitExpr(a);
      case Binary(_, l, r) =>
        VisitExpr(l);
        VisitExpr(r);
      case Element(v, i) =>
        VisitExpr(v);
        VisitExpr(i);
      case Member(o, _) => VisitExpr(o);
      case Choice(c, t, f) =>
        VisitExpr(c);
        VisitExpr(t);
        VisitExpr(f);
      case FunctionCall(callee, args) =>
        callSeen := true;
        VisitCallee(callee);
        VisitExprs(args);
    }

    /** The callee is visited only when it is a variable. */
    method VisitCallee(callee: L.Expr)
      modifies this`useSet
      ensures useSet == old(useSet) + (L.CalleeUses(vars, callee) - defSet)
    {
      if callee.Var? && callee.x in vars {
        VisitVariable(callee.x);
      }
    }

    method VisitExprs(es: seq<L.Expr>)
      modifies this`useSet, this`callSeen
      ensures useSet == old(useSet) + (L.UsesAll(vars, es) - defSet)
      ensures callSeen <==> old(callSeen) || AnyCall(es)
      decreases es, 0
    {
      hide HasCall;
      var i := 0;
      assert es[0..] == es;
      while i < |es|
        invariant 0 <= i <= |es|
        invariant useSet + (L.UsesAll(vars, es[i..]) - defSet) == old(useSet) + (L.UsesAll(vars, es) - defSet)
        invariant callSeen || AnyCall(es[i..]) <==> old(callSeen) || AnyCall(es)
      {
        assert es[i..][0] == es[i] && es[i..][1..] == es[i + 1..];
        VisitExpr(es[i]);
        i := i + 1;
      }
    }

    method VisitTargets(ts: seq<L.Target>)
      modifies this`useSet, this`callSeen
      ensures useSet == old(useSet) + (L.AllTargetUses(vars, ts) - defSet)
      ensures callSeen <==> old(callSeen) || TargetsCall(ts)
    {
      hide HasCall;
      var i := 0;
      assert ts[0..] == ts;
      while i < |ts|
        invariant 0 <= i <= |ts|
        invariant useSet + (L.AllTargetUses(vars, ts[i..]) - defSet) == old(useSet) + (L.AllTargetUses(vars, ts) - defSet)
        invariant callSeen || TargetsCall(ts[i..]) <==> old(callSeen) || TargetsCall(ts)
      {
        assert ts[i..][0] == ts[i] && ts[i..][1..] == ts[i + 1..];
        if ts[i].ToElement? {
          VisitExpr(ts[i].vector);
          VisitExpr(ts[i].index);
        }
        i := i + 1;
      }
    }

    method DefineTargets(ts: seq<L.Target>)
      modifies this`defSet
      ensures defSet == old(defSet) + L.AllTargetDefs(ts)
    {
      var i := 0;
      assert ts[0..] == ts;
      while i < |ts|
        invariant 0 <= i <= |ts| && defSet + L.AllTargetDefs(ts[i..]) == old(defSet) + L.AllTargetDefs(ts)
      {
        assert ts[i..][0] == ts[i] && ts[i..][1..] == ts[i + 1..];
        match ts[i] {
          case ToVar(x) => defSet := defSet + {x};
          case ToElement(v, _) =>
            if v.Var? {
              defSet := defSet + {v.x};
            }
        }
        i := i + 1;
      }
    }

    /** Addresses first, then values, and only then the definitions. */
    method VisitStmt(s: L.Stmt)
      modifies this
      ensures State() == L.Add(vars, old(State()), s) && (callSeen <==> old(callSeen) || Calls(s))
    {
      hide HasCall;
      match s
      case Assign(targets, values) =>
        VisitTargets(targets);
        VisitExprs(values);
        DefineTargets(targets);
      case RoutineCall(callee, args) =>
        callSeen := true;
        VisitCallee(callee);
        VisitExprs(args);
      case Condition(c) => VisitExpr(c);
      case ForHeader(v, start, end, step) =>
        VisitExpr(start);
        VisitExpr(end);
        if step.Some? {
          VisitExpr(step.value);
        }
        defSet := defSet + {v};
      case Plain =>
    }

    /** A whole block, on top of the variables kept for its calls. */
    method AnalyzeBlock(ss: seq<L.Stmt>, across: set<string>)
      modifies this
      ensures State() == L.Summarize(vars, L.Summary(across, {}), ss) && (callSeen <==> BlockCalls(ss))
    {
      hide Calls;
      useSet, defSet, callSeen := across, {}, false;
      var i := 0;
      assert ss[0..] == ss;
      while i < |ss|
        invariant 0 <= i <= |ss|
        invariant L.Summarize(vars, State(), ss[i..]) == L.Summarize(vars, L.Summary(across, {}), ss)
        invariant callSeen || BlockCalls(ss[i..]) <==> BlockCalls(ss)
      {
        assert ss[i..][0] == ss[i] && ss[i..][1..] == ss[i + 1..];
        VisitStmt(ss[i]);
        i := i + 1;
      }
    }
  }

  // ----- the equations -----

  /** What the blocks' analysis found: uses, definitions, and whether there is a call. */
  datatype Facts = Facts(use: set<string>, def: set<string>, calls: bool)

  type Sets = seq<set<string>>

  /** A block with a call keeps everything live behind it. */
  function Transfer(f: Facts, out: set<string>): set<string> {
    f.use + (if f.calls then out else {}) + (out - f.def)
  }

  function Union(ins: Sets, succs: seq<nat>): set<string>
    requires forall i :: 0 <= i < |succs| ==> succs[i] < |ins|
  {
    if succs == [] then {} else Union(ins, succs[..|succs| - 1]) + ins[succs[|succs| - 1]]
  }

  lemma {:induction false} UnionHolds(ins: Sets, succs: seq<nat>, x: string)
    requires forall i :: 0 <= i < |succs| ==> succs[i] < |ins|
    ensures x in Union(ins, succs) <==> exists i :: 0 <= i < |succs| && x in ins[succs[i]]
    decreases |succs|
  {
    if succs != [] {
      var n := |succs| - 1;
      UnionHolds(ins, succs[..n], x);
      if exists i :: 0 <= i < |succs| && x in ins[succs[i]] {
        var i :| 0 <= i < |succs| && x in ins[succs[i]];
        if i < n { assert x in ins[succs[..n][i]]; }
      }
    }
  }

  /** Blocks with their facts; every successor exists. */
  ghost predicate WellFormed(g: Blocks, facts: seq<Facts>) {
    |facts| == |g| && forall u, i :: 0 <= u < |g| && 0 <= i < |g[u].succs| ==> g[u].succs[i] < |g|
  }

  lemma SuccsIn(g: Blocks, facts: seq<Facts>, u: nat)
    requires WellFormed(g, facts) && u < |g|
    ensures forall i :: 0 <= i < |g[u].succs| ==> g[u].succs[i] < |g|
  {
  }

  function Out(g: Blocks, facts: seq<Facts>, ins: Sets, u: nat): set<string>
    requires WellFormed(g, facts) && |ins| == |g| && u < |g|
  {
    SuccsIn(g, facts, u);
    Union(ins, g[u].succs)
  }

  function Next(g: Blocks, facts: seq<Facts>, ins: Sets, u: nat): set<string>
    requires WellFormed(g, facts) && |ins| == |g| && u < |g|
  {
    Transfer(facts[u], Out(g, facts, ins, u))
  }

  ghost predicate Below(a: Sets, b: Sets) {
    |a| == |b| && forall u :: 0 <= u < |a| ==> a[u] <= b[u]
  }

  lemma NextMonotone(g: Blocks, facts: seq<Facts>, a: Sets, b: Sets, u: nat)
    requires WellFormed(g, facts) && |a| == |g| && Below(a, b) && u < |g|
    ensures Out(g, facts, a, u) <= Out(g, facts, b, u) && Next(g, facts, a, u) <= Next(g, facts, b, u)
  {
    SuccsIn(g, facts, u);
    forall x | x in Out(g, facts, a, u) ensures x in Out(g, facts, b, u) {
      UnionHolds(a, g[u].succs, x);
      UnionHolds(b, g[u].succs, x);
      var i :| 0 <= i < |g[u].succs| && x in a[g[u].succs[i]];
      assert x in b[g[u].succs[i]];
    }
  }

  /** Sets that satisfy the equations from above at the blocks of `order`. */
  ghost predicate Closed(g: Blocks, facts: seq<Facts>, order: seq<nat>, x: Sets)
    requires WellFormed(g, facts)
  {
    |x| == |g| && forall i :: 0 <= i < |order| && order[i] < |g| ==> Next(g, facts, x, order[i]) <= x[order[i]]
  }

  /** The sets found so far: below every solution, and growing. */
  ghost predicate Rising(g: Blocks, facts: seq<Facts>, order: seq<nat>, ins: Sets)
    requires WellFormed(g, facts)
  {
    && |ins| == |g|
    && (forall u :: 0 <= u < |g| ==> ins[u] <= Next(g, facts, ins, u))
    && (forall x :: Closed(g, facts, order, x) ==> Below(ins, x))
  }

  ghost function Everything(facts: seq<Facts>): set<string> {
    if facts == [] then {} else Everything(facts[..|facts| - 1]) + facts[|facts| - 1].use
  }

  /** How much the sets can still grow. */
  ghost function Room(facts: seq<Facts>, ins: Sets, n: nat): nat
    requires n <= |ins|
  {
    if n == 0 then 0 else Room(facts, ins, n - 1) + |Everything(facts) - ins[n - 1]|
  }

  lemma {:induction false} UseInEverything(facts: seq<Facts>, u: nat)
    requires u < |facts|
    ensures facts[u].use <= Everything(facts)
    decreases |facts|
  {
    if u < |facts| - 1 { UseInEverything(facts[..|facts| - 1], u); }
  }

  ghost function Full(g: Blocks, facts: seq<Facts>): (x: Sets)
    ensures |x| == |g| && forall u :: 0 <= u < |g| ==> x[u] == Everything(facts)
  {
    seq(|g|, _ => Everything(facts))
  }

  lemma FullClosed(g: Blocks, facts: seq<Facts>, order: seq<nat>)
    requires WellFormed(g, facts)
    ensures Closed(g, facts, order, Full(g, facts))
  {
    forall i | 0 <= i < |order| && order[i] < |g| ensures Next(g, facts, Full(g, facts), order[i]) <= Everything(facts) {
      var u := order[i];
      UseInEverything(facts, u);
      SuccsIn(g, facts, u);
      forall x | x in Out(g, facts, Full(g, facts), u) ensures x in Everything(facts) {
        UnionHolds(Full(g, facts), g[u].succs, x);
      }
    }
  }

  /** Replacing one set by what its equation asks for keeps the sets rising. */
  lemma RisingStep(g: Blocks, facts: seq<Facts>, order: seq<nat>, ins: Sets, u: nat)
    requires WellFormed(g, facts) && Rising(g, facts, order, ins) && u < |g| && u in order
    ensures Rising(g, facts, order, ins[u := Next(g, facts, ins, u)])
    ensures Below(ins, ins[u := Next(g, facts, ins, u)])
  {
    hide Next;
    var next := ins[u := Next(g, facts, ins, u)];
    assert Below(ins, next);
    forall v | 0 <= v < |g| ensures next[v] <= Next(g, facts, next, v) {
      NextMonotone(g, facts, ins, next, v);
    }
    forall x | Closed(g, facts, order, x) ensures Below(next, x) {
      assert Below(ins, x);
      NextMonotone(g, facts, ins, x, u);
      var i :| 0 <= i < |order| && order[i] == u;
      assert Next(g, facts, x, order[i]) <= x[order[i]];
    }
  }

  lemma {:induction false} RoomShrinks(facts: seq<Facts>, a: Sets, b: Sets, n: nat)
    requires n <= |a| && Below(a, b) && forall u :: 0 <= u < n ==> b[u] <= Everything(facts)
    ensures Room(facts, b, n) <= Room(facts, a, n)
    ensures (exists u :: 0 <= u < n && a[u] != b[u]) ==> Room(facts, b, n) < Room(facts, a, n)
    decreases n
  {
    hide Everything;
    if n > 0 {
      RoomShrinks(facts, a, b, n - 1);
      var all := Everything(facts);
      SizeShrinks(all - b[n - 1], all - a[n - 1]);
      if a[n - 1] != b[n - 1] {
        var x :| x in b[n - 1] && x !in a[n - 1];
        assert x in all - a[n - 1] && x !in all - b[n - 1];
      }
    }
  }

  lemma SizeShrinks(a: set<string>, b: set<string>)
    requires a <= b
    ensures |a| <= |b| && (a != b ==> |a| < |b|)
  {
    SubsetSize(a, b);
    if a != b {
      var x :| x in b && x !in a;
      SubsetSize(a, b - {x});
    }
  }

  lemma {:induction false} SubsetSize(a: set<string>, b: set<string>)
    requires a <= b
    ensures |a| <= |b|
    decreases a
  {
    if a != {} {
      var x :| x in a;
      SubsetSize(a - {x}, b - {x});
    }
  }

  lemma RisingInside(g: Blocks, facts: seq<Facts>, order: seq<nat>, ins: Sets)
    requires WellFormed(g, facts) && Rising(g, facts, order, ins)
    ensures |ins| == |g| && forall u :: 0 <= u < |g| ==> ins[u] <= Everything(facts)
  {
    FullClosed(g, facts, order);
    assert Below(ins, Full(g, facts));
  }

  /** The least sets that satisfy the equations at the blocks of the order. */
  ghost predicate Solution(g: Blocks, facts: seq<Facts>, order: seq<nat>, ins: Sets, outs: Sets)
    requires WellFormed(g, facts)
  {
    && |ins| == |outs| == |g|
    && (forall i :: 0 <= i < |order| && order[i] < |g| ==>
          outs[order[i]] == Out(g, facts, ins, order[i]) && ins[order[i]] == Next(g, facts, ins, order[i]))
    && forall x :: Closed(g, facts, order, x) ==> Below(ins, x)
  }

  /** Round after round over the blocks, last one of the order first, until nothing changes. */
  method RunDataFlow(g: Blocks, facts: seq<Facts>, order: seq<nat>) returns (ins: Sets, outs: Sets)
    requires WellFormed(g, facts) && forall i :: 0 <= i < |order| ==> order[i] < |g|
    ensures Solution(g, facts, order, ins, outs)
  {
    hide Next, Out, Rising, Everything;
    ins, outs := seq(|g|, _ => {}), seq(|g|, _ => {});
    RisingStart(g, facts, order, ins);
    var changed := true;
    while changed
      invariant Rising(g, facts, order, ins) && |ins| == |outs| == |g|
      invariant !changed ==> Stable(g, facts, order, ins, outs, 0)
      decreases Room(facts, ins, |g|), changed
    {
      ghost var before := ins;
      changed, ins, outs := Round(g, facts, order, ins, outs);
      RisingInside(g, facts, order, ins);
      RoomShrinks(facts, before, ins, |g|);
    }
    LeastOf(g, facts, order, ins);
  }

  lemma RisingStart(g: Blocks, facts: seq<Facts>, order: seq<nat>, ins: Sets)
    requires WellFormed(g, facts) && |ins| == |g| && forall u :: 0 <= u < |g| ==> ins[u] == {}
    ensures Rising(g, facts, order, ins)
  {
    hide Next;
  }

  lemma LeastOf(g: Blocks, facts: seq<Facts>, order: seq<nat>, ins: Sets)
    requires WellFormed(g, facts) && Rising(g, facts, order, ins)
    ensures |ins| == |g| && forall x :: Closed(g, facts, order, x) ==> Below(ins, x)
  {
  }

  /** The equations hold at the blocks from index k of the order on. */
  ghost predicate Stable(g: Blocks, facts: seq<Facts>, order: seq<nat>, ins: Sets, outs: Sets, k: nat)
    requires WellFormed(g, facts)
  {
    && |ins| == |outs| == |g|
    && forall i :: k <= i < |order| && order[i] < |g| ==>
         outs[order[i]] == Out(g, facts, ins, order[i]) && ins[order[i]] == Next(g, facts, ins, order[i])
  }

  method Round(g: Blocks, facts: seq<Facts>, order: seq<nat>, ins0: Sets, outs0: Sets) returns (changed: bool, ins: Sets, outs: Sets)
    requires WellFormed(g, facts) && (forall i :: 0 <= i < |order| ==> order[i] < |g|)
    requires Rising(g, facts, order, ins0) && |ins0| == |outs0| == |g|
    ensures Rising(g, facts, order, ins) && |ins| == |outs| == |g| && Below(ins0, ins)
    ensures if changed then exists u :: 0 <= u < |g| && ins0[u] != ins[u] else ins == ins0 && Stable(g, facts, order, ins, outs, 0)
  {
    hide Rising;
    changed, ins, outs := false, ins0, outs0;
    var i := |order|;
    while i > 0
      invariant 0 <= i <= |order| && |ins| == |outs| == |g|
      invariant Rising(g, facts, order, ins) && Below(ins0, ins)
      invariant if changed then exists u :: 0 <= u < |g| && ins0[u] != ins[u] else ins == ins0 && Stable(g, facts, order, ins, outs, i)
    {
      i := i - 1;
      var b := order[i];
      SuccsIn(g, facts, b);
      var out := UnionOf(ins, g[b].succs);
      outs := outs[b := out];
      var next := Transfer(facts[b], out);
      RisingStep(g, facts, order, ins, b);
      if ins[b] != next {
        ghost var before := ins;
        ins := ins[b := next];
        GrownSomewhere(ins0, before, ins, b);
        changed := true;
      }
    }
  }

  lemma GrownSomewhere(a: Sets, b: Sets, c: Sets, u: nat)
    requires Below(a, b) && Below(b, c) && u < |a| && b[u] != c[u]
    ensures Below(a, c) && a[u] != c[u]
  {
  }

  method UnionOf(ins: Sets, succs: seq<nat>) returns (out: set<string>)
    requires forall i :: 0 <= i < |succs| ==> succs[i] < |ins|
    ensures out == Union(ins, succs)
  {
    out := {};
    var k := 0;
    while k < |succs|
      invariant 0 <= k <= |succs| && out == Union(ins, succs[..k])
    {
      assert succs[..k + 1][..k] == succs[..k];
      out := out + ins[succs[k]];
      k := k + 1;
    }
    assert succs[..k] == succs;
  }

  // ----- what the solution means -----

  /** Along the path nothing defines x (or a call keeps it), and the last block uses it. */
  ghost predicate LivePath(g: Blocks, facts: seq<Facts>, path: seq<nat>, x: string) {
    && |facts| == |g| && IsPath(g, path) && x in facts[path[|path| - 1]].use
    && forall i :: 0 <= i < |path| - 1 ==> facts[path[i]].calls || x !in facts[path[i]].def
  }

  ghost predicate LiveAt(g: Blocks, facts: seq<Facts>, u: nat, x: string) {
    exists path :: LivePath(g, facts, path, x) && path[0] == u
  }

  ghost function LiveSet(g: Blocks, facts: seq<Facts>, u: nat): set<string> {
    set x | x in Everything(facts) && LiveAt(g, facts, u, x)
  }

  ghost function LiveSets(g: Blocks, facts: seq<Facts>): (x: Sets)
    ensures |x| == |g| && forall u :: 0 <= u < |g| ==> x[u] == LiveSet(g, facts, u)
  {
    seq(|g|, u requires 0 <= u < |g| => LiveSet(g, facts, u))
  }

  /** One more block in front of a path. */
  lemma LiveStep(g: Blocks, facts: seq<Facts>, u: nat, v: nat, x: string)
    requires WellFormed(g, facts) && u < |g| && v in g[u].succs && LiveAt(g, facts, v, x)
    requires facts[u].calls || x !in facts[u].def
    ensures LiveAt(g, facts, u, x)
  {
    var path :| LivePath(g, facts, path, x) && path[0] == v;
    var longer := [u] + path;
    forall i | 0 <= i < |longer| - 1
      ensures longer[i + 1] in g[longer[i]].succs && (facts[longer[i]].calls || x !in facts[longer[i]].def)
    {
      if i > 0 { assert longer[i] == path[i - 1] && longer[i + 1] == path[i - 1 + 1]; }
    }
    assert LivePath(g, facts, longer, x) && longer[0] == u;
  }

  lemma LiveClosed(g: Blocks, facts: seq<Facts>, order: seq<nat>)
    requires WellFormed(g, facts)
    ensures Closed(g, facts, order, LiveSets(g, facts))
  {
    var xs := LiveSets(g, facts);
    forall i | 0 <= i < |order| && order[i] < |g| ensures Next(g, facts, xs, order[i]) <= xs[order[i]] {
      var u := order[i];
      SuccsIn(g, facts, u);
      UseInEverything(facts, u);
      forall x | x in Next(g, facts, xs, u) ensures x in xs[u] {
        if x in facts[u].use {
          assert LivePath(g, facts, [u], x) && [u][0] == u;
        } else {
          UnionHolds(xs, g[u].succs, x);
          var k :| 0 <= k < |g[u].succs| && x in xs[g[u].succs[k]];
          LiveStep(g, facts, u, g[u].succs[k], x);
        }
      }
    }
  }

  lemma {:induction false} PathLive(g: Blocks, facts: seq<Facts>, order: seq<nat>, ins: Sets, outs: Sets, path: seq<nat>, x: string)
    requires WellFormed(g, facts) && Solution(g, facts, order, ins, outs) && LivePath(g, facts, path, x)
    requires forall i :: 0 <= i < |path| ==> path[i] in order
    ensures x in ins[path[0]]
    decreases |path|
  {
    var u := path[0];
    var k :| 0 <= k < |order| && order[k] == u;
    assert ins[order[k]] == Next(g, facts, ins, order[k]);
    if |path| > 1 {
      var rest := path[1..];
      assert forall i :: 0 <= i < |rest| ==> rest[i] == path[i + 1];
      assert path[0 + 1] in g[path[0]].succs;
      PathLive(g, facts, order, ins, outs, rest, x);
      SuccsIn(g, facts, u);
      UnionHolds(ins, g[u].succs, x);
      var j :| 0 <= j < |g[u].succs| && g[u].succs[j] == path[1];
    }
  }

  /**
    The iteration finds exactly the live variables: x is in a block's set if and only if some path from the
    block reaches a use of x before any block on it defines x, calls keeping everything live behind them.
   */
  lemma SolutionIsLive(g: Blocks, facts: seq<Facts>, entry: nat, order: seq<nat>, ins: Sets, outs: Sets, u: nat, x: string)
    requires WellFormed(g, facts) && ReversePostOrder(g, entry, order) && Solution(g, facts, order, ins, outs)
    requires u < |g| && u in order
    ensures x in ins[u] <==> LiveAt(g, facts, u, x)
  {
    if x in ins[u] {
      LiveClosed(g, facts, order);
      assert Below(ins, LiveSets(g, facts));
    }
    if LiveAt(g, facts, u, x) {
      var path :| LivePath(g, facts, path, x) && path[0] == u;
      forall i | 0 <= i < |path| ensures path[i] in order {
        LeadsAlong(g, path, i);
        assert Leads(g, entry, u);
        LeadsTrans(g, entry, u, path[i]);
      }
      PathLive(g, facts, order, ins, outs, path, x);
    }
  }

  lemma LeadsAlong(g: Blocks, path: seq<nat>, i: nat)
    requires IsPath(g, path) && i < |path|
    ensures Leads(g, path[0], path[i])
  {
    assert Connects(g, path[..i + 1], path[0], path[i]);
  }

  /** The facts about a block are what its visitor finds. */
  ghost predicate Found(vars: L.Symbols, facts: seq<Facts>, bodies: seq<seq<L.Stmt>>, across: Sets) {
    && |facts| == |bodies| == |across|
    && forall u :: 0 <= u < |facts| ==>
         var m := L.Summarize(vars, L.Summary(across[u], {}), bodies[u]);
         facts[u] == Facts(m.use, m.def, BlockCalls(bodies[u]))
  }

  /**
    From block to block: two states that agree on what is live before a block are led to the same branch,
    with the same memory, and agree on what is live before every successor.
   */
  lemma FlowAgrees(
    g: Blocks, facts: seq<Facts>, order: seq<nat>, ins: Sets, outs: Sets, vars: L.Symbols, bodies: seq<seq<L.Stmt>>, across: Sets,
    env: L.Env, u: nat, v: nat, a: L.Config, b: L.Config)
    requires WellFormed(g, facts) && Solution(g, facts, order, ins, outs) && Found(vars, facts, bodies, across)
    requires u in order && u < |g| && v in g[u].succs && a.mem == b.mem && a.tests == b.tests
    requires forall i :: 0 <= i < |bodies[u]| ==> L.Balanced(bodies[u][i]) && L.Covered(vars, bodies[u][i])
    requires L.Agree(vars, ins[u], a.st, b.st, env)
    ensures v < |g|
    ensures
      var (a1, b1) := (L.RunBlock(vars, env, bodies[u], a), L.RunBlock(vars, env, bodies[u], b));
      L.Agree(vars, ins[v], a1.st, b1.st, env) && a1.mem == b1.mem && a1.tests == b1.tests
  {
    hide L.Get, L.LiveIn, L.Summarize, L.RunBlock, BlockCalls;
    var k :| 0 <= k < |order| && order[k] == u;
    assert ins[order[k]] == Next(g, facts, ins, order[k]) && outs[order[k]] == Out(g, facts, ins, order[k]);
    var out := Out(g, facts, ins, u);
    L.SummaryIsTransfer(vars, across[u], bodies[u], out);
    assert L.LiveIn(vars, bodies[u], out) <= ins[u];
    L.BlockAgrees(vars, env, bodies[u], out, a, b);
    SuccsIn(g, facts, u);
    var j :| 0 <= j < |g[u].succs| && g[u].succs[j] == v;
    forall x | x in ins[v] ensures x in out {
      UnionHolds(ins, g[u].succs, x);
    }
  }

  /** The greatest number of variables live at the boundary of a block. */
  method RegisterPressure(ins: Sets, outs: Sets) returns (pressure: nat)
    requires |ins| == |outs|
    ensures forall u :: 0 <= u < |ins| ==> |ins[u]| <= pressure && |outs[u]| <= pressure
    ensures pressure == 0 || exists u :: 0 <= u < |ins| && (pressure == |ins[u]| || pressure == |outs[u]|)
  {
    pressure := 0;
    var u := 0;
    while u < |ins|
      invariant 0 <= u <= |ins|
      invariant forall v :: 0 <= v < u ==> |ins[v]| <= pressure && |outs[v]| <= pressure
      invariant pressure == 0 || exists v :: 0 <= v < u && (pressure == |ins[v]| || pressure == |outs[v]|)
    {
      var most := if |ins[u]| > |outs[u]| then |ins[u]| else |outs[u]|;
      if most > pressure {
        pressure := most;
      }
      u := u + 1;
    }
  }
}
