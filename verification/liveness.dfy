/** What a basic block uses and defines, found in one forward pass, against the statement-by-statement transfer. */
module Liveness {
  import opened Wrappers

  /**
    Expressions may read memory and call functions. A member is a field of an object or, as a callee, one of
    its methods; a callee may be any expression.
   */
  datatype Expr =
    | Number(n: int)
    | Var(x: string)
    | Unary(op: nat, e: Expr)
    | Binary(op: nat, l: Expr, r: Expr)
    | Element(vector: Expr, index: Expr)
    | Member(owner: Expr, offset: int)
    | Choice(c: Expr, t: Expr, f: Expr)
    | FunctionCall(callee: Expr, args: seq<Expr>)

  datatype Target = ToVar(x: string) | ToElement(vector: Expr, index: Expr)

  /** What a basic block holds; of branching statements only the condition belongs to the block. */
  datatype Stmt =
    | Assign(targets: seq<Target>, values: seq<Expr>)
    | RoutineCall(callee: Expr, args: seq<Expr>)
    | Condition(c: Expr)
    | ForHeader(v: string, start: Expr, end: Expr, step: Option<Expr>)
    | Plain

  // ----- uses and definitions -----

  /** The names that are variables; others are functions, routines and constants. */
  type Symbols = set<string>

  function Uses(vars: Symbols, e: Expr): set<string>
    decreases e, 1
  {
    match e
    case Number(_) => {}
    case Var(x) => if x in vars then {x} else {}
    case Unary(_, a) => Uses(vars, a)
    case Binary(_, l, r) => Uses(vars, l) + Uses(vars, r)
    case Element(v, i) => Uses(vars, v) + Uses(vars, i)
    case Member(o, _) => Uses(vars, o)
    case Choice(c, t, f) => Uses(vars, c) + Uses(vars, t) + Uses(vars, f)
    case FunctionCall(callee, args) => CalleeUses(vars, callee) + UsesAll(vars, args)
  }

  /** A callee is looked at only when it is a variable. */
  function CalleeUses(vars: Symbols, callee: Expr): set<string> {
    if callee.Var? && callee.x in vars then {callee.x} else {}
  }

  function UsesAll(vars: Symbols, es: seq<Expr>): set<string>
    decreases es, 0
  {
    if es == [] then {} else Uses(vars, es[0]) + UsesAll(vars, es[1..])
  }

  function TargetUses(vars: Symbols, t: Target): set<string> {
    if t.ToElement? then Uses(vars, t.vector) + Uses(vars, t.index) else {}
  }

  function AllTargetUses(vars: Symbols, ts: seq<Target>): set<string> {
    if ts == [] then {} else TargetUses(vars, ts[0]) + AllTargetUses(vars, ts[1..])
  }

  /** Assigning an element counts as defining the vector's variable. */
  function TargetDefs(t: Target): set<string> {
    match t
    case ToVar(x) => {x}
    case ToElement(v, _) => if v.Var? then {v.x} else {}
  }

  function AllTargetDefs(ts: seq<Target>): set<string> {
    if ts == [] then {} else TargetDefs(ts[0]) + AllTargetDefs(ts[1..])
  }

  function StepUses(vars: Symbols, step: Option<Expr>): set<string> {
    if step.Some? then Uses(vars, step.value) else {}
  }

  function Gen(vars: Symbols, s: Stmt): set<string> {
    match s
    case Assign(targets, values) => AllTargetUses(vars, targets) + UsesAll(vars, values)
    case RoutineCall(callee, args) => CalleeUses(vars, callee) + UsesAll(vars, args)
    case Condition(c) => Uses(vars, c)
    case ForHeader(_, start, end, step) => Uses(vars, start) + Uses(vars, end) + StepUses(vars, step)
    case Plain => {}
  }

  function Kill(s: Stmt): set<string> {
    match s
    case Assign(targets, _) => AllTargetDefs(targets)
    case ForHeader(v, _, _, _) => {v}
    case _ => {}
  }

  // ----- the backward transfer -----

  function LiveBefore(vars: Symbols, s: Stmt, after: set<string>): set<string> {
    Gen(vars, s) + (after - Kill(s))
  }

  function LiveIn(vars: Symbols, ss: seq<Stmt>, out: set<string>): set<string> {
    if ss == [] then out else LiveBefore(vars, ss[0], LiveIn(vars, ss[1..], out))
  }

  // ----- the forward summary -----

  datatype Summary = Summary(use: set<string>, def: set<string>)

  /** A use counts unless the block has defined the variable already. */
  function Add(vars: Symbols, m: Summary, s: Stmt): Summary {
    Summary(m.use + (Gen(vars, s) - m.def), m.def + Kill(s))
  }

  function Summarize(vars: Symbols, m: Summary, ss: seq<Stmt>): Summary
    decreases |ss|
  {
    if ss == [] then m else Summarize(vars, Add(vars, m, ss[0]), ss[1..])
  }

  /**
    The summary of a block, started with the variables `across` that the call-interval scan wants kept,
    says the same as the statements one by one, whatever is live behind the block.
   */
  lemma {:induction false} SummaryIsTransfer(vars: Symbols, across: set<string>, ss: seq<Stmt>, out: set<string>)
    ensures
      var m := Summarize(vars, Summary(across, {}), ss);
      m.use + (out - m.def) == across + LiveIn(vars, ss, out)
  {
    SummaryFrom(vars, Summary(across, {}), ss, out);
    assert LiveIn(vars, ss, out) - {} == LiveIn(vars, ss, out);
  }

  lemma {:induction false} SummaryFrom(vars: Symbols, m: Summary, ss: seq<Stmt>, out: set<string>)
    ensures
      var r := Summarize(vars, m, ss);
      r.use + (out - r.def) == m.use + (LiveIn(vars, ss, out) - m.def)
    decreases |ss|
  {
    hide Gen, Kill;
    if ss != [] {
      SummaryFrom(vars, Add(vars, m, ss[0]), ss[1..], out);
      var rest := LiveIn(vars, ss[1..], out);
      assert (m.use + (Gen(vars, ss[0]) - m.def)) + (rest - (m.def + Kill(ss[0])))
        == m.use + ((Gen(vars, ss[0]) + (rest - Kill(ss[0]))) - m.def);
    }
  }

  // ----- what a block computes -----

  type Locals = map<string, int>

  type Memory = map<int, int>

  /**
    Operators, the values of names that are no variables, and calls, which see what they call, their
    arguments and memory.
   */
  datatype Env = Env(
    unary: (nat, int) -> int,
    binary: (nat, int, int) -> int,
    name: string -> int,
    call: (Code, seq<int>, Memory) -> (int, Memory))

  /** What is called: the code and, for a method, its object. */
  datatype Code = Code(address: int, owner: int)

  function Get(vars: Symbols, env: Env, x: string, st: Locals): int {
    if x !in vars then env.name(x) else if x in st then st[x] else 0
  }

  function Load(mem: Memory, a: int): int {
    if a in mem then mem[a] else 0
  }

  /** Operands from left to right; calls may change memory. */
  function Eval(vars: Symbols, env: Env, e: Expr, st: Locals, mem: Memory): (int, Memory)
    decreases e, 1
  {
    match e
    case Number(n) => (n, mem)
    case Var(x) => (Get(vars, env, x, st), mem)
    case Unary(op, a) =>
      var (v, mem1) := Eval(vars, env, a, st, mem);
      (env.unary(op, v), mem1)
    case Binary(op, l, r) =>
      var (a, mem1) := Eval(vars, env, l, st, mem);
      var (b, mem2) := Eval(vars, env, r, st, mem1);
      (env.binary(op, a, b), mem2)
    case Element(v, i) =>
      var (a, mem1) := Eval(vars, env, v, st, mem);
      var (b, mem2) := Eval(vars, env, i, st, mem1);
      (Load(mem2, a + 8 * b), mem2)
    case Member(o, offset) =>
      var (a, mem1) := Eval(vars, env, o, st, mem);
      (Load(mem1, a + offset), mem1)
    case Choice(c, t, f) =>
      var (a, mem1) := Eval(vars, env, c, st, mem);
      if a != 0 then Eval(vars, env, t, st, mem1) else Eval(vars, env, f, st, mem1)
    case FunctionCall(callee, args) =>
      var (values, mem1) := EvalAll(vars, env, args, st, mem);
      var (code, mem2) := Callee(vars, env, callee, st, mem1);
      env.call(code, values, mem2)
  }

  /** The callee is evaluated after the arguments; a method is found through the first word of its object. */
  function Callee(vars: Symbols, env: Env, callee: Expr, st: Locals, mem: Memory): (Code, Memory)
    decreases callee, 2
  {
    if callee.Member? then
      var (a, mem1) := Eval(vars, env, callee.owner, st, mem);
      (Code(Load(mem1, Load(mem1, a) + callee.offset), a), mem1)
    else
      var (v, mem1) := Eval(vars, env, callee, st, mem);
      (Code(v, 0), mem1)
  }

  function EvalAll(vars: Symbols, env: Env, es: seq<Expr>, st: Locals, mem: Memory): (seq<int>, Memory)
    decreases es, 0
  {
    if es == [] then ([], mem)
    else
      var (v, mem1) := Eval(vars, env, es[0], st, mem);
      var (rest, mem2) := EvalAll(vars, env, es[1..], st, mem1);
      ([v] + rest, mem2)
  }

  /** The addresses of element targets, in order. */
  function Addresses(vars: Symbols, env: Env, ts: seq<Target>, st: Locals, mem: Memory): (seq<int>, Memory) {
    if ts == [] then ([], mem)
    else
      match ts[0]
      case ToVar(_) =>
        var (rest, mem1) := Addresses(vars, env, ts[1..], st, mem);
        ([0] + rest, mem1)
      case ToElement(v, i) =>
        var (a, mem1) := Eval(vars, env, v, st, mem);
        var (b, mem2) := Eval(vars, env, i, st, mem1);
        var (rest, mem3) := Addresses(vars, env, ts[1..], st, mem2);
        ([a + 8 * b] + rest, mem3)
  }

  function Store(ts: seq<Target>, addresses: seq<int>, values: seq<int>, st: Locals, mem: Memory): (Locals, Memory)
    decreases |ts|
  {
    if ts == [] || addresses == [] || values == [] then (st, mem)
    else
      match ts[0]
      case ToVar(x) => Store(ts[1..], addresses[1..], values[1..], st[x := values[0]], mem)
      case ToElement(_, _) => Store(ts[1..], addresses[1..], values[1..], st, mem[addresses[0] := values[0]])
  }

  datatype Config = Config(st: Locals, mem: Memory, tests: seq<int>)

  /** One statement; the values of conditions are what the block's branch goes by. */
  function Run(vars: Symbols, env: Env, s: Stmt, c: Config): Config {
    match s
    case Assign(targets, values) =>
      var (addresses, mem1) := Addresses(vars, env, targets, c.st, c.mem);
      var (vs, mem2) := EvalAll(vars, env, values, c.st, mem1);
      var (st1, mem3) := Store(targets, addresses, vs, c.st, mem2);
      Config(st1, mem3, c.tests)
    case RoutineCall(callee, args) =>
      var (vs, mem1) := EvalAll(vars, env, args, c.st, c.mem);
      var (code, mem2) := Callee(vars, env, callee, c.st, mem1);
      c.(mem := env.call(code, vs, mem2).1)
    case Condition(e) =>
      var (v, mem1) := Eval(vars, env, e, c.st, c.mem);
      c.(mem := mem1, tests := c.tests + [v])
    case ForHeader(v, _, end, _) =>
      var (limit, mem1) := Eval(vars, env, end, c.st, c.mem);
      c.(mem := mem1, tests := c.tests + [if Get(vars, env, v, c.st) <= limit then 1 else 0])
    case Plain => c
  }

  function RunBlock(vars: Symbols, env: Env, ss: seq<Stmt>, c: Config): Config
    decreases |ss|
  {
    if ss == [] then c else RunBlock(vars, env, ss[1..], Run(vars, env, ss[0], c))
  }

  // ----- what is read -----

  /** All variables an expression may read, those of its callees included. */
  function Reads(vars: Symbols, e: Expr): set<string>
    decreases e, 1
  {
    match e
    case Number(_) => {}
    case Var(x) => if x in vars then {x} else {}
    case Unary(_, a) => Reads(vars, a)
    case Binary(_, l, r) => Reads(vars, l) + Reads(vars, r)
    case Element(v, i) => Reads(vars, v) + Reads(vars, i)
    case Member(o, _) => Reads(vars, o)
    case Choice(c, t, f) => Reads(vars, c) + Reads(vars, t) + Reads(vars, f)
    case FunctionCall(callee, args) => Reads(vars, callee) + ReadsAll(vars, args)
  }

  function ReadsAll(vars: Symbols, es: seq<Expr>): set<string>
    decreases es, 0
  {
    if es == [] then {} else Reads(vars, es[0]) + ReadsAll(vars, es[1..])
  }

  function TargetReads(vars: Symbols, t: Target): set<string> {
    if t.ToElement? then Reads(vars, t.vector) + Reads(vars, t.index) else {}
  }

  function AllTargetReads(vars: Symbols, ts: seq<Target>): set<string> {
    if ts == [] then {} else TargetReads(vars, ts[0]) + AllTargetReads(vars, ts[1..])
  }

  /** What running a statement may read; a FOR header evaluates its limit and tests its variable. */
  function ReadsOf(vars: Symbols, s: Stmt): set<string> {
    match s
    case Assign(targets, values) => AllTargetReads(vars, targets) + ReadsAll(vars, values)
    case RoutineCall(callee, args) => Reads(vars, callee) + ReadsAll(vars, args)
    case Condition(c) => Reads(vars, c)
    case ForHeader(v, _, end, _) => (if v in vars then {v} else {}) + Reads(vars, end)
    case Plain => {}
  }

  // ----- what is not live does not matter -----

  ghost predicate Agree(vars: Symbols, live: set<string>, a: Locals, b: Locals, env: Env) {
    forall x :: x in live ==> Get(vars, env, x, a) == Get(vars, env, x, b)
  }

  lemma {:induction false} EvalAgrees(vars: Symbols, env: Env, e: Expr, a: Locals, b: Locals, mem: Memory)
    requires Agree(vars, Reads(vars, e), a, b, env)
    ensures Eval(vars, env, e, a, mem) == Eval(vars, env, e, b, mem)
    decreases e, 1
  {
    match e
    case Number(_) =>
    case Var(x) =>
    case Unary(_, u) => EvalAgrees(vars, env, u, a, b, mem);
    case Binary(_, l, r) =>
      EvalAgrees(vars, env, l, a, b, mem);
      EvalAgrees(vars, env, r, a, b, Eval(vars, env, l, a, mem).1);
    case Element(v, i) =>
      EvalAgrees(vars, env, v, a, b, mem);
      EvalAgrees(vars, env, i, a, b, Eval(vars, env, v, a, mem).1);
    case Member(o, _) => EvalAgrees(vars, env, o, a, b, mem);
    case Choice(c, t, f) =>
      EvalAgrees(vars, env, c, a, b, mem);
      EvalAgrees(vars, env, t, a, b, Eval(vars, env, c, a, mem).1);
      EvalAgrees(vars, env, f, a, b, Eval(vars, env, c, a, mem).1);
    case FunctionCall(callee, args) =>
      EvalAllAgrees(vars, env, args, a, b, mem);
      CalleeAgrees(vars, env, callee, a, b, EvalAll(vars, env, args, a, mem).1);
  }

  lemma CalleeAgrees(vars: Symbols, env: Env, callee: Expr, a: Locals, b: Locals, mem: Memory)
    requires Agree(vars, Reads(vars, callee), a, b, env)
    ensures Callee(vars, env, callee, a, mem) == Callee(vars, env, callee, b, mem)
    decreases callee, 2
  {
    EvalAgrees(vars, env, if callee.Member? then callee.owner else callee, a, b, mem);
  }

  lemma {:induction false} EvalAllAgrees(vars: Symbols, env: Env, es: seq<Expr>, a: Locals, b: Locals, mem: Memory)
    requires Agree(vars, ReadsAll(vars, es), a, b, env)
    ensures EvalAll(vars, env, es, a, mem) == EvalAll(vars, env, es, b, mem)
    decreases es, 0
  {
    if es != [] {
      EvalAgrees(vars, env, es[0], a, b, mem);
      EvalAllAgrees(vars, env, es[1..], a, b, Eval(vars, env, es[0], a, mem).1);
    }
  }

  lemma {:induction false} AddressesAgree(vars: Symbols, env: Env, ts: seq<Target>, a: Locals, b: Locals, mem: Memory)
    requires Agree(vars, AllTargetReads(vars, ts), a, b, env)
    ensures Addresses(vars, env, ts, a, mem) == Addresses(vars, env, ts, b, mem)
    decreases |ts|
  {
    if ts != [] {
      match ts[0]
      case ToVar(_) => AddressesAgree(vars, env, ts[1..], a, b, mem);
      case ToElement(v, i) =>
        EvalAgrees(vars, env, v, a, b, mem);
        var mem1 := Eval(vars, env, v, a, mem).1;
        EvalAgrees(vars, env, i, a, b, mem1);
        AddressesAgree(vars, env, ts[1..], a, b, Eval(vars, env, i, a, mem1).1);
    }
  }

  /** The variables that are assigned, not counting those whose elements are. */
  function Assigned(ts: seq<Target>): set<string> {
    if ts == [] then {} else (if ts[0].ToVar? then {ts[0].x} else {}) + Assigned(ts[1..])
  }

  /** Storing the same values: what agreed or is assigned agrees, and memory is the same. */
  lemma {:induction false} StoreAgrees(vars: Symbols, env: Env, live: set<string>, ts: seq<Target>, addresses: seq<int>, values: seq<int>, a: Locals, b: Locals, mem: Memory)
    requires |addresses| == |ts| && |values| >= |ts| && Agree(vars, live, a, b, env)
    ensures
      var (a1, mem1) := Store(ts, addresses, values, a, mem);
      var (b1, mem2) := Store(ts, addresses, values, b, mem);
      mem1 == mem2 && Agree(vars, live + Assigned(ts), a1, b1, env)
    decreases |ts|
  {
    if ts != [] {
      match ts[0]
      case ToVar(x) =>
        StoreAgrees(vars, env, live + {x}, ts[1..], addresses[1..], values[1..], a[x := values[0]], b[x := values[0]], mem);
        assert live + Assigned(ts) == live + {x} + Assigned(ts[1..]);
      case ToElement(_, _) =>
        StoreAgrees(vars, env, live, ts[1..], addresses[1..], values[1..], a, b, mem[addresses[0] := values[0]]);
    }
  }

  lemma {:induction false} AddressCount(vars: Symbols, env: Env, ts: seq<Target>, st: Locals, mem: Memory)
    ensures |Addresses(vars, env, ts, st, mem).0| == |ts|
    decreases |ts|
  {
    if ts != [] {
      match ts[0]
      case ToVar(_) => AddressCount(vars, env, ts[1..], st, mem);
      case ToElement(v, i) =>
        AddressCount(vars, env, ts[1..], st, Eval(vars, env, i, st, Eval(vars, env, v, st, mem).1).1);
    }
  }

  lemma {:induction false} ValueCount(vars: Symbols, env: Env, es: seq<Expr>, st: Locals, mem: Memory)
    ensures |EvalAll(vars, env, es, st, mem).0| == |es|
    decreases |es|
  {
    if es != [] { ValueCount(vars, env, es[1..], st, Eval(vars, env, es[0], st, mem).1); }
  }

  /** A variable counted as defined is assigned, or used for an address, or no variable at all. */
  lemma {:induction false} DefsAreSeen(vars: Symbols, ts: seq<Target>)
    ensures forall x :: x in AllTargetDefs(ts) ==> x in Assigned(ts) || x in AllTargetUses(vars, ts) || x !in vars
    decreases |ts|
  {
    if ts != [] { DefsAreSeen(vars, ts[1..]); }
  }

  /** Every assignment has a value for every target. */
  predicate Balanced(s: Stmt) {
    s.Assign? ==> |s.values| == |s.targets|
  }

  /**
    Everything a statement may read counts as used: no FOR header whose variable is not used elsewhere in it,
    and no computed callee with a variable that is not.
   */
  predicate Covered(vars: Symbols, s: Stmt) {
    ReadsOf(vars, s) <= Gen(vars, s)
  }

  lemma RunAgrees(vars: Symbols, env: Env, s: Stmt, after: set<string>, a: Config, b: Config)
    requires Balanced(s) && Covered(vars, s) && a.mem == b.mem && a.tests == b.tests
    requires Agree(vars, LiveBefore(vars, s, after), a.st, b.st, env)
    ensures
      var (a1, b1) := (Run(vars, env, s, a), Run(vars, env, s, b));
      Agree(vars, after, a1.st, b1.st, env) && a1.mem == b1.mem && a1.tests == b1.tests
  {
    hide Get, Eval;
    match s
    case Assign(targets, values) =>
      AddressesAgree(vars, env, targets, a.st, b.st, a.mem);
      var (addresses, mem1) := Addresses(vars, env, targets, a.st, a.mem);
      EvalAllAgrees(vars, env, values, a.st, b.st, mem1);
      var (vs, mem2) := EvalAll(vars, env, values, a.st, mem1);
      AddressCount(vars, env, targets, a.st, a.mem);
      ValueCount(vars, env, values, a.st, mem1);
      StoreAgrees(vars, env, LiveBefore(vars, s, after), targets, addresses, vs, a.st, b.st, mem2);
      DefsAreSeen(vars, targets);
      var a1, b1 := Run(vars, env, s, a).st, Run(vars, env, s, b).st;
      forall x | x in after ensures Get(vars, env, x, a1) == Get(vars, env, x, b1) {
        if x !in vars { NoVariable(vars, env, x, a1, b1); }
      }
    case RoutineCall(callee, args) =>
      EvalAllAgrees(vars, env, args, a.st, b.st, a.mem);
      CalleeAgrees(vars, env, callee, a.st, b.st, EvalAll(vars, env, args, a.st, a.mem).1);
    case Condition(c) => EvalAgrees(vars, env, c, a.st, b.st, a.mem);
    case ForHeader(v, _, end, _) =>
      EvalAgrees(vars, env, end, a.st, b.st, a.mem);
      if v !in vars { NoVariable(vars, env, v, a.st, b.st); }
    case Plain =>
  }

  lemma NoVariable(vars: Symbols, env: Env, x: string, a: Locals, b: Locals)
    requires x !in vars
    ensures Get(vars, env, x, a) == Get(vars, env, x, b)
  {
  }

  /** A block of covered statements makes the same of any two states that agree on what is live before it. */
  lemma {:induction false} BlockAgrees(vars: Symbols, env: Env, ss: seq<Stmt>, out: set<string>, a: Config, b: Config)
    requires (forall i :: 0 <= i < |ss| ==> Balanced(ss[i]) && Covered(vars, ss[i])) && a.mem == b.mem && a.tests == b.tests
    requires Agree(vars, LiveIn(vars, ss, out), a.st, b.st, env)
    ensures
      var (a1, b1) := (RunBlock(vars, env, ss, a), RunBlock(vars, env, ss, b));
      Agree(vars, out, a1.st, b1.st, env) && a1.mem == b1.mem && a1.tests == b1.tests
    decreases |ss|
  {
    hide Run, Agree, LiveBefore;
    if ss != [] {
      RunAgrees(vars, env, ss[0], LiveIn(vars, ss[1..], out), a, b);
      BlockAgrees(vars, env, ss[1..], out, Run(vars, env, ss[0], a), Run(vars, env, ss[0], b));
    }
  }
}
