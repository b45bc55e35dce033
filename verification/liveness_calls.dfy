/**
  What a block is noted to call. A block that is not noted does the same whatever calls do; a block that calls on
  every way through its conditional expressions does not.
 */
module LivenessCalls {
  import opened Liveness
  import opened LivenessPass

  // ----- without calls -----

  lemma {:induction false} EvalWithoutCalls(vars: Symbols, e: Expr, env: Env, other: Env, st: Locals, mem: Memory)
    requires !HasCall(e) && other == env.(call := other.call)
    ensures Eval(vars, env, e, st, mem) == Eval(vars, other, e, st, mem)
    decreases e, 1
  {
    match e
    case Number(_) =>
    case Var(_) =>
    case Unary(_, a) => EvalWithoutCalls(vars, a, env, other, st, mem);
    case Binary(_, l, r) =>
      EvalWithoutCalls(vars, l, env, other, st, mem);
      EvalWithoutCalls(vars, r, env, other, st, Eval(vars, env, l, st, mem).1);
    case Element(v, i) =>
      EvalWithoutCalls(vars, v, env, other, st, mem);
      EvalWithoutCalls(vars, i, env, other, st, Eval(vars, env, v, st, mem).1);
    case Member(o, _) => EvalWithoutCalls(vars, o, env, other, st, mem);
    case Choice(c, t, f) =>
      EvalWithoutCalls(vars, c, env, other, st, mem);
      EvalWithoutCalls(vars, t, env, other, st, Eval(vars, env, c, st, mem).1);
      EvalWithoutCalls(vars, f, env, other, st, Eval(vars, env, c, st, mem).1);
    case FunctionCall(_, _) =>
  }

  lemma {:induction false} AllWithoutCalls(vars: Symbols, es: seq<Expr>, env: Env, other: Env, st: Locals, mem: Memory)
    requires !AnyCall(es) && other == env.(call := other.call)
    ensures EvalAll(vars, env, es, st, mem) == EvalAll(vars, other, es, st, mem)
    decreases es
  {
    if es != [] {
      EvalWithoutCalls(vars, es[0], env, other, st, mem);
      AllWithoutCalls(vars, es[1..], env, other, st, Eval(vars, env, es[0], st, mem).1);
    }
  }

  lemma {:induction false} AddressesWithoutCalls(vars: Symbols, ts: seq<Target>, env: Env, other: Env, st: Locals, mem: Memory)
    requires !TargetsCall(ts) && other == env.(call := other.call)
    ensures Addresses(vars, env, ts, st, mem) == Addresses(vars, other, ts, st, mem)
    decreases |ts|
  {
    if ts != [] {
      var mem1 := mem;
      if ts[0].ToElement? {
        EvalWithoutCalls(vars, ts[0].vector, env, other, st, mem);
        mem1 := Eval(vars, env, ts[0].vector, st, mem).1;
        EvalWithoutCalls(vars, ts[0].index, env, other, st, mem1);
        mem1 := Eval(vars, env, ts[0].index, st, mem1).1;
      }
      AddressesWithoutCalls(vars, ts[1..], env, other, st, mem1);
    }
  }

  lemma RunWithoutCalls(vars: Symbols, s: Stmt, env: Env, other: Env, c: Config)
    requires !Calls(s) && other == env.(call := other.call)
    ensures Run(vars, env, s, c) == Run(vars, other, s, c)
  {
    match s
    case Assign(targets, values) =>
      AddressesWithoutCalls(vars, targets, env, other, c.st, c.mem);
      AllWithoutCalls(vars, values, env, other, c.st, Addresses(vars, env, targets, c.st, c.mem).1);
    case RoutineCall(_, _) =>
    case Condition(e) => EvalWithoutCalls(vars, e, env, other, c.st, c.mem);
    case ForHeader(_, _, end, _) => EvalWithoutCalls(vars, end, env, other, c.st, c.mem);
    case Plain =>
  }

  /** A block that is not noted to call does the same whatever calls do. */
  lemma {:induction false} BlockWithoutCalls(vars: Symbols, ss: seq<Stmt>, env: Env, other: Env, c: Config)
    requires !BlockCalls(ss) && other == env.(call := other.call)
    ensures RunBlock(vars, env, ss, c) == RunBlock(vars, other, ss, c)
    decreases |ss|
  {
    hide Run, Calls;
    if ss != [] {
      RunWithoutCalls(vars, ss[0], env, other, c);
      BlockWithoutCalls(vars, ss[1..], env, other, Run(vars, env, ss[0], c));
    }
  }

  // ----- calls on every way -----

  /** Whatever branches are taken, evaluating e makes a call. */
  predicate Always(e: Expr) {
    match e
    case Number(_) => false
    case Var(_) => false
    case Unary(_, a) => Always(a)
    case Binary(_, l, r) => Always(l) || Always(r)
    case Element(v, i) => Always(v) || Always(i)
    case Member(o, _) => Always(o)
    case Choice(c, t, f) => Always(c) || (Always(t) && Always(f))
    case FunctionCall(_, _) => true
  }

  predicate AlwaysIn(s: Stmt) {
    match s
    case Assign(targets, values) =>
      || (exists i :: 0 <= i < |targets| && targets[i].ToElement? && (Always(targets[i].vector) || Always(targets[i].index)))
      || exists i :: 0 <= i < |values| && Always(values[i])
    case RoutineCall(_, _) => true
    case Condition(c) => Always(c)
    case ForHeader(_, _, end, _) => Always(end)
    case Plain => false
  }

  // ----- a silent world and a loud one -----

  const SILENT := Env((op, a) => 0, (op, a, b) => 0, name => 0, (code: Code, args, mem) => (0, mem))

  /** The same, but that every call leaves n marks in memory. */
  function Loud(n: nat): Env {
    SILENT.(call := (code: Code, args, mem) => (0, mem + Marks(n)))
  }

  function Marks(n: nat): (mem: Memory)
    ensures |mem| == n && forall z :: z in mem <==> 0 <= z < n
  {
    if n == 0 then map[] else Marks(n - 1)[n - 1 := 0]
  }

  lemma {:induction false} EvalSilent(vars: Symbols, e: Expr, st: Locals, mem: Memory)
    ensures Eval(vars, SILENT, e, st, mem).1 == mem
    decreases e, 1
  {
    match e
    case Number(_) =>
    case Var(_) =>
    case Unary(_, a) => EvalSilent(vars, a, st, mem);
    case Binary(_, l, r) =>
      EvalSilent(vars, l, st, mem);
      EvalSilent(vars, r, st, mem);
    case Element(v, i) =>
      EvalSilent(vars, v, st, mem);
      EvalSilent(vars, i, st, mem);
    case Member(o, _) => EvalSilent(vars, o, st, mem);
    case Choice(c, t, f) =>
      EvalSilent(vars, c, st, mem);
      EvalSilent(vars, t, st, mem);
      EvalSilent(vars, f, st, mem);
    case FunctionCall(callee, args) => CallSilent(vars, callee, args, st, mem);
  }

  lemma {:induction false} CallSilent(vars: Symbols, callee: Expr, args: seq<Expr>, st: Locals, mem: Memory)
    ensures
      var (values, mem1) := EvalAll(vars, SILENT, args, st, mem);
      mem1 == mem && Callee(vars, SILENT, callee, st, mem1).1 == mem
    decreases FunctionCall(callee, args), 0
  {
    AllSilent(vars, args, st, mem);
    EvalSilent(vars, if callee.Member? then callee.owner else callee, st, mem);
  }

  lemma {:induction false} AllSilent(vars: Symbols, es: seq<Expr>, st: Locals, mem: Memory)
    ensures EvalAll(vars, SILENT, es, st, mem).1 == mem
    decreases es, 0
  {
    if es != [] {
      EvalSilent(vars, es[0], st, mem);
      AllSilent(vars, es[1..], st, mem);
    }
  }

  lemma {:induction false} AddressesSilent(vars: Symbols, ts: seq<Target>, st: Locals, mem: Memory)
    ensures Addresses(vars, SILENT, ts, st, mem).1 == mem
    decreases |ts|
  {
    if ts != [] {
      if ts[0].ToElement? {
        EvalSilent(vars, ts[0].vector, st, mem);
        EvalSilent(vars, ts[0].index, st, mem);
      }
      AddressesSilent(vars, ts[1..], st, mem);
    }
  }

  /** What memory holds is not taken away, and a call leaves all its marks. */
  lemma {:induction false} EvalLoud(vars: Symbols, e: Expr, st: Locals, mem: Memory, n: nat)
    ensures var mem1 := Eval(vars, Loud(n), e, st, mem).1; mem.Keys <= mem1.Keys && (Always(e) ==> Marks(n).Keys <= mem1.Keys)
    decreases e, 1
  {
    match e
    case Number(_) =>
    case Var(_) =>
    case Unary(_, a) => EvalLoud(vars, a, st, mem, n);
    case Binary(_, l, r) =>
      EvalLoud(vars, l, st, mem, n);
      EvalLoud(vars, r, st, Eval(vars, Loud(n), l, st, mem).1, n);
    case Element(v, i) =>
      EvalLoud(vars, v, st, mem, n);
      EvalLoud(vars, i, st, Eval(vars, Loud(n), v, st, mem).1, n);
    case Member(o, _) => EvalLoud(vars, o, st, mem, n);
    case Choice(c, t, f) =>
      EvalLoud(vars, c, st, mem, n);
      EvalLoud(vars, t, st, Eval(vars, Loud(n), c, st, mem).1, n);
      EvalLoud(vars, f, st, Eval(vars, Loud(n), c, st, mem).1, n);
    case FunctionCall(callee, args) => CallLoud(vars, callee, args, st, mem, n);
  }

  lemma {:induction false} CallLoud(vars: Symbols, callee: Expr, args: seq<Expr>, st: Locals, mem: Memory, n: nat)
    ensures
      var env := Loud(n);
      var (values, mem1) := EvalAll(vars, env, args, st, mem);
      var (code, mem2) := Callee(vars, env, callee, st, mem1);
      var mem3 := env.call(code, values, mem2).1;
      mem.Keys <= mem3.Keys && Marks(n).Keys <= mem3.Keys
    decreases FunctionCall(callee, args), 0
  {
    AllLoud(vars, args, st, mem, n);
    EvalLoud(vars, if callee.Member? then callee.owner else callee, st, EvalAll(vars, Loud(n), args, st, mem).1, n);
  }

  lemma {:induction false} AllLoud(vars: Symbols, es: seq<Expr>, st: Locals, mem: Memory, n: nat)
    ensures
      var mem1 := EvalAll(vars, Loud(n), es, st, mem).1;
      mem.Keys <= mem1.Keys && ((exists i :: 0 <= i < |es| && Always(es[i])) ==> Marks(n).Keys <= mem1.Keys)
    decreases es, 0
  {
    if es != [] {
      EvalLoud(vars, es[0], st, mem, n);
      AllLoud(vars, es[1..], st, Eval(vars, Loud(n), es[0], st, mem).1, n);
      assert forall i :: 0 < i < |es| ==> es[i] == es[1..][i - 1];
    }
  }

  lemma {:induction false} AddressesLoud(vars: Symbols, ts: seq<Target>, st: Locals, mem: Memory, n: nat)
    ensures
      var mem1 := Addresses(vars, Loud(n), ts, st, mem).1;
      && mem.Keys <= mem1.Keys
      && ((exists i :: 0 <= i < |ts| && ts[i].ToElement? && (Always(ts[i].vector) || Always(ts[i].index))) ==> Marks(n).Keys <= mem1.Keys)
    decreases |ts|
  {
    if ts != [] {
      var mem1 := mem;
      if ts[0].ToElement? {
        EvalLoud(vars, ts[0].vector, st, mem, n);
        mem1 := Eval(vars, Loud(n), ts[0].vector, st, mem).1;
        EvalLoud(vars, ts[0].index, st, mem1, n);
        mem1 := Eval(vars, Loud(n), ts[0].index, st, mem1).1;
      }
      AddressesLoud(vars, ts[1..], st, mem1, n);
      assert forall i :: 0 < i < |ts| ==> ts[i] == ts[1..][i - 1];
    }
  }

  lemma {:induction false} StoreKeys(ts: seq<Target>, addresses: seq<int>, values: seq<int>, st: Locals, mem: Memory)
    ensures var mem1 := Store(ts, addresses, values, st, mem).1; mem.Keys <= mem1.Keys && |mem1| <= |mem| + |ts|
    decreases |ts|
  {
    if ts != [] && addresses != [] && values != [] {
      match ts[0]
      case ToVar(x) => StoreKeys(ts[1..], addresses[1..], values[1..], st[x := values[0]], mem);
      case ToElement(_, _) =>
        var mem1 := mem[addresses[0] := values[0]];
        assert mem1.Keys == mem.Keys + {addresses[0]};
        assert |mem1.Keys| <= |mem.Keys| + 1;
        StoreKeys(ts[1..], addresses[1..], values[1..], st, mem1);
    }
  }

  // ----- statements and blocks -----

  function Stores(s: Stmt): nat {
    if s.Assign? then |s.targets| else 0
  }

  function AllStores(ss: seq<Stmt>): nat {
    if ss == [] then 0 else Stores(ss[0]) + AllStores(ss[1..])
  }

  lemma RunSilent(vars: Symbols, s: Stmt, c: Config)
    ensures |Run(vars, SILENT, s, c).mem| <= |c.mem| + Stores(s)
  {
    match s
    case Assign(targets, values) =>
      AddressesSilent(vars, targets, c.st, c.mem);
      AllSilent(vars, values, c.st, c.mem);
      var (addresses, mem1) := Addresses(vars, SILENT, targets, c.st, c.mem);
      var (vs, mem2) := EvalAll(vars, SILENT, values, c.st, mem1);
      StoreKeys(targets, addresses, vs, c.st, mem2);
    case RoutineCall(callee, args) => CallSilent(vars, callee, args, c.st, c.mem);
    case Condition(e) => EvalSilent(vars, e, c.st, c.mem);
    case ForHeader(_, _, end, _) => EvalSilent(vars, end, c.st, c.mem);
    case Plain =>
  }

  lemma RunLoud(vars: Symbols, s: Stmt, c: Config, n: nat)
    ensures var mem := Run(vars, Loud(n), s, c).mem; c.mem.Keys <= mem.Keys && (AlwaysIn(s) ==> Marks(n).Keys <= mem.Keys)
  {
    match s
    case Assign(targets, values) =>
      AddressesLoud(vars, targets, c.st, c.mem, n);
      var (addresses, mem1) := Addresses(vars, Loud(n), targets, c.st, c.mem);
      AllLoud(vars, values, c.st, mem1, n);
      var (vs, mem2) := EvalAll(vars, Loud(n), values, c.st, mem1);
      StoreKeys(targets, addresses, vs, c.st, mem2);
    case RoutineCall(callee, args) => CallLoud(vars, callee, args, c.st, c.mem, n);
    case Condition(e) => EvalLoud(vars, e, c.st, c.mem, n);
    case ForHeader(_, _, end, _) => EvalLoud(vars, end, c.st, c.mem, n);
    case Plain =>
  }

  lemma {:induction false} BlockSilent(vars: Symbols, ss: seq<Stmt>, c: Config)
    ensures |RunBlock(vars, SILENT, ss, c).mem| <= |c.mem| + AllStores(ss)
    decreases |ss|
  {
    hide Run, Stores;
    if ss != [] {
      RunSilent(vars, ss[0], c);
      BlockSilent(vars, ss[1..], Run(vars, SILENT, ss[0], c));
    }
  }

  lemma {:induction false} BlockLoud(vars: Symbols, ss: seq<Stmt>, c: Config, n: nat)
    ensures
      var mem := RunBlock(vars, Loud(n), ss, c).mem;
      c.mem.Keys <= mem.Keys && ((exists i :: 0 <= i < |ss| && AlwaysIn(ss[i])) ==> Marks(n).Keys <= mem.Keys)
    decreases |ss|
  {
    hide Run, AlwaysIn;
    if ss != [] {
      RunLoud(vars, ss[0], c, n);
      BlockLoud(vars, ss[1..], Run(vars, Loud(n), ss[0], c), n);
      assert forall i :: 0 < i < |ss| ==> ss[i] == ss[1..][i - 1];
    }
  }

  /** Some two worlds that differ in what calls do lead the block to different results. */
  ghost predicate Depends(vars: Symbols, ss: seq<Stmt>) {
    exists env: Env, other: Env, c :: other == env.(call := other.call) && RunBlock(vars, env, ss, c) != RunBlock(vars, other, ss, c)
  }

  lemma CallsDepend(vars: Symbols, ss: seq<Stmt>, i: nat)
    requires i < |ss| && AlwaysIn(ss[i])
    ensures Depends(vars, ss)
  {
    hide AlwaysIn;
    var n := AllStores(ss) + 1;
    var c := Config(map[], map[], []);
    BlockSilent(vars, ss, c);
    BlockLoud(vars, ss, c, n);
    var (quiet, marked) := (RunBlock(vars, SILENT, ss, c).mem, RunBlock(vars, Loud(n), ss, c).mem);
    if quiet == marked {
      assert Marks(n).Keys <= quiet.Keys;
      Fewer(Marks(n), quiet);
    }
    assert Loud(n) == SILENT.(call := Loud(n).call);
  }

  lemma Fewer(a: Memory, b: Memory)
    requires a.Keys <= b.Keys
    ensures |a| <= |b|
  {
    assert |a| == |a.Keys| && |b| == |b.Keys|;
    assert b.Keys == a.Keys + (b.Keys - a.Keys);
  }

  // ----- the note -----

  /** Of each conditional expression, both branches make a call or neither, unless its condition makes one. */
  predicate Even(e: Expr)
    decreases e, 1
  {
    match e
    case Number(_) => true
    case Var(_) => true
    case Unary(_, a) => Even(a)
    case Binary(_, l, r) => Even(l) && Even(r)
    case Element(v, i) => Even(v) && Even(i)
    case Member(o, _) => Even(o)
    case Choice(c, t, f) => Even(c) && Even(t) && Even(f) && (Always(c) || (Always(t) <==> Always(f)))
    case FunctionCall(_, _) => true
  }

  /** And the start and step of a FOR, which its header does not evaluate, make none. */
  predicate EvenIn(s: Stmt) {
    match s
    case Assign(targets, values) =>
      && (forall i :: 0 <= i < |targets| && targets[i].ToElement? ==> Even(targets[i].vector) && Even(targets[i].index))
      && forall i :: 0 <= i < |values| ==> Even(values[i])
    case RoutineCall(_, _) => true
    case Condition(c) => Even(c)
    case ForHeader(_, start, end, step) =>
      Even(start) && Even(end) && !Always(start) && (step.Some? ==> Even(step.value) && !Always(step.value))
    case Plain => true
  }

  lemma {:induction false} EvenAlways(e: Expr)
    requires Even(e) && HasCall(e)
    ensures Always(e)
    decreases e, 1
  {
    match e
    case Number(_) =>
    case Var(_) =>
    case Unary(_, a) => EvenAlways(a);
    case Binary(_, l, r) => EvenAlways(if HasCall(l) then l else r);
    case Element(v, i) => EvenAlways(if HasCall(v) then v else i);
    case Member(o, _) => EvenAlways(o);
    case Choice(c, t, f) => EvenAlways(if HasCall(c) then c else if HasCall(t) then t else f);
    case FunctionCall(_, _) =>
  }

  lemma {:induction false} EvenAlwaysAll(es: seq<Expr>)
    requires (forall i :: 0 <= i < |es| ==> Even(es[i])) && AnyCall(es)
    ensures exists i :: 0 <= i < |es| && Always(es[i])
    decreases es
  {
    if HasCall(es[0]) {
      EvenAlways(es[0]);
    } else {
      assert forall i :: 0 < i < |es| ==> es[i] == es[1..][i - 1];
      EvenAlwaysAll(es[1..]);
    }
  }

  lemma {:induction false} EvenAlwaysTargets(ts: seq<Target>)
    requires (forall i :: 0 <= i < |ts| && ts[i].ToElement? ==> Even(ts[i].vector) && Even(ts[i].index)) && TargetsCall(ts)
    ensures exists i :: 0 <= i < |ts| && ts[i].ToElement? && (Always(ts[i].vector) || Always(ts[i].index))
    decreases |ts|
  {
    if ts[0].ToElement? && (HasCall(ts[0].vector) || HasCall(ts[0].index)) {
      EvenAlways(if HasCall(ts[0].vector) then ts[0].vector else ts[0].index);
    } else {
      assert forall i :: 0 < i < |ts| ==> ts[i] == ts[1..][i - 1];
      EvenAlwaysTargets(ts[1..]);
    }
  }

  lemma EvenAlwaysIn(s: Stmt)
    requires EvenIn(s) && Calls(s)
    ensures AlwaysIn(s)
  {
    match s
    case Assign(targets, values) => if TargetsCall(targets) { EvenAlwaysTargets(targets); } else { EvenAlwaysAll(values); }
    case RoutineCall(_, _) =>
    case Condition(c) => EvenAlways(c);
    case ForHeader(_, start, end, step) =>
      if HasCall(start) { EvenAlways(start); }
      if step.Some? && HasCall(step.value) { EvenAlways(step.value); }
      EvenAlways(end);
    case Plain =>
  }

  lemma {:induction false} CallingStatement(ss: seq<Stmt>) returns (i: nat)
    requires BlockCalls(ss)
    ensures i < |ss| && Calls(ss[i])
  {
    if Calls(ss[0]) {
      i := 0;
    } else {
      i := CallingStatement(ss[1..]);
      i := i + 1;
    }
  }

  /**
    The note is right: a block is noted to call if and only if it matters to the block what calls do; as far as
    each of its conditional expressions calls on both ways or on none.
   */
  lemma NotedExactly(vars: Symbols, ss: seq<Stmt>)
    requires forall i :: 0 <= i < |ss| ==> EvenIn(ss[i])
    ensures BlockCalls(ss) <==> Depends(vars, ss)
  {
    hide AlwaysIn, EvenIn, Calls;
    if BlockCalls(ss) {
      var i := CallingStatement(ss);
      EvenAlwaysIn(ss[i]);
      CallsDepend(vars, ss, i);
    } else {
      forall env: Env, other: Env, c | other == env.(call := other.call) ensures RunBlock(vars, env, ss, c) == RunBlock(vars, other, ss, c) {
        BlockWithoutCalls(vars, ss, env, other, c);
      }
    }
  }

  /** A call in a branch that is never taken is noted all the same. */
  lemma NotedInVain(vars: Symbols)
    ensures
      var ss := [Condition(Choice(Number(0), FunctionCall(Var("f"), []), Number(0)))];
      BlockCalls(ss) && !Depends(vars, ss)
  {
    var ss := [Condition(Choice(Number(0), FunctionCall(Var("f"), []), Number(0)))];
    assert Calls(ss[0]);
    forall env: Env, other: Env, c | other == env.(call := other.call) ensures RunBlock(vars, env, ss, c) == RunBlock(vars, other, ss, c) {
      assert Run(vars, env, ss[0], c) == Run(vars, other, ss[0], c);
      assert ss[1..] == [];
    }
  }
}
