/**
  Exactly which statements the liveness transfer gets right. A variable that a statement reads but does not
  count as used is told apart in a world whose operators add, whose memory holds every address at that address,
  and whose calls book all they are given at one address that nothing else touches.
 */
module LivenessExact {
  import opened Wrappers
  import opened Liveness

  /** Whatever is live behind a statement, states that agree on what is live before it are led to the same. */
  ghost predicate Adequate(vars: Symbols, env: Env, s: Stmt) {
    forall after, a, b :: SameBefore(vars, env, s, after, a, b) ==> SameAfter(vars, env, s, after, a, b)
  }

  ghost predicate SameBefore(vars: Symbols, env: Env, s: Stmt, after: set<string>, a: Config, b: Config) {
    a.mem == b.mem && a.tests == b.tests && Agree(vars, LiveBefore(vars, s, after), a.st, b.st, env)
  }

  ghost predicate SameAfter(vars: Symbols, env: Env, s: Stmt, after: set<string>, a: Config, b: Config) {
    var (a1, b1) := (Run(vars, env, s, a), Run(vars, env, s, b));
    Agree(vars, after, a1.st, b1.st, env) && a1.mem == b1.mem && a1.tests == b1.tests
  }

  // ----- a world that books all calls -----

  function Sum(values: seq<int>): int {
    if values == [] then 0 else values[0] + Sum(values[1..])
  }

  function Ledger(k: int): Env {
    Env(
      (op, a) => a,
      (op, a, b) => a + b,
      name => 0,
      (code: Code, args, mem) => (Given(code, args), mem[k := Load(mem, k) + Given(code, args)]))
  }

  function Given(code: Code, args: seq<int>): int {
    code.address + code.owner + Sum(args)
  }

  /** Every address up to n holds itself, and the books at k = n + 1 are open. */
  predicate Ready(mem: Memory, n: nat) {
    n + 1 in mem && forall z: int :: 0 - n <= z <= n ==> z in mem && mem[z] == z
  }

  function Identity(n: nat): (mem: Memory)
    ensures forall z: int :: 0 - n <= z <= n ==> z in mem && mem[z] == z
  {
    if n == 0 then map[0 := 0] else Identity(n - 1)[n := n][0 - n := 0 - n]
  }

  function Booked(mem: Memory, k: int, amount: int): Memory
    requires k in mem
  {
    mem[k := mem[k] + amount]
  }

  /** The value of e in this world. */
  function Value(vars: Symbols, e: Expr, st: Locals): int
    decreases e, 1
  {
    match e
    case Number(n) => n
    case Var(y) => if y in vars && y in st then st[y] else 0
    case Unary(_, a) => Value(vars, a, st)
    case Binary(_, l, r) => Value(vars, l, st) + Value(vars, r, st)
    case Element(u, i) => Value(vars, u, st) + 8 * Value(vars, i, st)
    case Member(o, offset) => Value(vars, o, st) + offset
    case Choice(c, t, f) => if Value(vars, c, st) != 0 then Value(vars, t, st) else Value(vars, f, st)
    case FunctionCall(callee, args) => CodeValue(vars, callee, st) + Values(vars, args, st)
  }

  function CodeValue(vars: Symbols, callee: Expr, st: Locals): int
    decreases callee, 2
  {
    if callee.Member? then 2 * Value(vars, callee.owner, st) + callee.offset else Value(vars, callee, st)
  }

  function Values(vars: Symbols, es: seq<Expr>, st: Locals): int
    decreases es, 0
  {
    if es == [] then 0 else Value(vars, es[0], st) + Values(vars, es[1..], st)
  }

  /** What the calls in e book. */
  function Tally(vars: Symbols, e: Expr, st: Locals): int
    decreases e, 1
  {
    match e
    case Number(_) => 0
    case Var(_) => 0
    case Unary(_, a) => Tally(vars, a, st)
    case Binary(_, l, r) => Tally(vars, l, st) + Tally(vars, r, st)
    case Element(u, i) => Tally(vars, u, st) + Tally(vars, i, st)
    case Member(o, _) => Tally(vars, o, st)
    case Choice(c, t, f) => Tally(vars, c, st) + if Value(vars, c, st) != 0 then Tally(vars, t, st) else Tally(vars, f, st)
    case FunctionCall(callee, args) =>
      Tallies(vars, args, st) + Tally(vars, callee, st) + CodeValue(vars, callee, st) + Values(vars, args, st)
  }

  function Tallies(vars: Symbols, es: seq<Expr>, st: Locals): int
    decreases es, 0
  {
    if es == [] then 0 else Tally(vars, es[0], st) + Tallies(vars, es[1..], st)
  }

  function Abs(z: int): nat {
    if z < 0 then -z else z
  }

  /** No address that evaluating e looks at is farther from 0. */
  function Extent(vars: Symbols, e: Expr, st: Locals): nat
    decreases e, 1
  {
    match e
    case Number(_) => 0
    case Var(_) => 0
    case Unary(_, a) => Extent(vars, a, st)
    case Binary(_, l, r) => Extent(vars, l, st) + Extent(vars, r, st)
    case Element(u, i) => Extent(vars, u, st) + Extent(vars, i, st) + Abs(Value(vars, e, st))
    case Member(o, offset) => Extent(vars, o, st) + Abs(Value(vars, o, st)) + Abs(Value(vars, o, st) + offset)
    case Choice(c, t, f) => Extent(vars, c, st) + Extent(vars, t, st) + Extent(vars, f, st)
    case FunctionCall(callee, args) => Extent(vars, callee, st) + Extents(vars, args, st)
  }

  function Extents(vars: Symbols, es: seq<Expr>, st: Locals): nat
    decreases es, 0
  {
    if es == [] then 0 else Extent(vars, es[0], st) + Extents(vars, es[1..], st)
  }

  lemma BookTwice(mem: Memory, n: nat, a: int, b: int)
    requires Ready(mem, n)
    ensures n + 1 in mem && Ready(Booked(mem, n + 1, a), n) && Booked(mem, n + 1, 0) == mem
    ensures n + 1 in Booked(mem, n + 1, a) && Booked(Booked(mem, n + 1, a), n + 1, b) == Booked(mem, n + 1, a + b)
  {
  }

  lemma LoadIs(mem: Memory, n: nat, amount: int, z: int)
    requires Ready(mem, n) && Abs(z) <= n
    ensures n + 1 in mem && Load(mem, z) == z && Load(Booked(mem, n + 1, amount), z) == z
  {
  }

  /** In this world an expression has the value and books the amount that the functions say. */
  lemma {:induction false} EvalIs(vars: Symbols, e: Expr, st: Locals, mem: Memory, n: nat)
    requires Ready(mem, n) && Extent(vars, e, st) <= n
    ensures Eval(vars, Ledger(n + 1), e, st, mem) == (Value(vars, e, st), Booked(mem, n + 1, Tally(vars, e, st)))
    decreases e, 1
  {
    hide Booked, Ready, Load, Abs;
    var k := n + 1;
    BookTwice(mem, n, 0, 0);
    match e
    case Number(_) =>
    case Var(_) =>
    case Unary(_, a) => EvalIs(vars, a, st, mem, n);
    case Binary(_, l, r) => PairIs(vars, e, l, r, st, mem, n);
    case Element(u, i) =>
      PairIs(vars, e, u, i, st, mem, n);
      LoadIs(mem, n, Tally(vars, e, st), Value(vars, e, st));
    case Member(o, offset) =>
      EvalIs(vars, o, st, mem, n);
      LoadIs(mem, n, Tally(vars, e, st), Value(vars, e, st));
    case Choice(c, t, f) =>
      EvalIs(vars, c, st, mem, n);
      var mem1 := Booked(mem, k, Tally(vars, c, st));
      var chosen := if Value(vars, c, st) != 0 then t else f;
      BookTwice(mem, n, Tally(vars, c, st), Tally(vars, chosen, st));
      EvalIs(vars, chosen, st, mem1, n);
    case FunctionCall(callee, args) => CallIs(vars, callee, args, st, mem, n);
  }

  lemma {:induction false} PairIs(vars: Symbols, e: Expr, l: Expr, r: Expr, st: Locals, mem: Memory, n: nat)
    requires l < e && r < e && Ready(mem, n) && Extent(vars, l, st) + Extent(vars, r, st) <= n
    ensures
      var (a, mem1) := Eval(vars, Ledger(n + 1), l, st, mem);
      var (b, mem2) := Eval(vars, Ledger(n + 1), r, st, mem1);
      && a == Value(vars, l, st) && b == Value(vars, r, st)
      && n + 1 in mem && mem2 == Booked(mem, n + 1, Tally(vars, l, st) + Tally(vars, r, st))
    decreases e, 0
  {
    hide Booked, Ready, Load;
    BookTwice(mem, n, Tally(vars, l, st), Tally(vars, r, st));
    EvalIs(vars, l, st, mem, n);
    EvalIs(vars, r, st, Booked(mem, n + 1, Tally(vars, l, st)), n);
  }

  /** A call books what it calls and its arguments, after what evaluating those has booked. */
  lemma {:induction false} CallIs(vars: Symbols, callee: Expr, args: seq<Expr>, st: Locals, mem: Memory, n: nat)
    requires Ready(mem, n) && Extent(vars, callee, st) + Extents(vars, args, st) <= n
    ensures
      var env := Ledger(n + 1);
      var (values, mem1) := EvalAll(vars, env, args, st, mem);
      var (code, mem2) := Callee(vars, env, callee, st, mem1);
      env.call(code, values, mem2) ==
        (CodeValue(vars, callee, st) + Values(vars, args, st), Booked(mem, n + 1, Tally(vars, FunctionCall(callee, args), st)))
    decreases FunctionCall(callee, args), 0
  {
    hide Booked, Ready, Load, Eval, EvalAll, Callee, Ledger;
    var (env, k) := (Ledger(n + 1), n + 1);
    BookTwice(mem, n, Tallies(vars, args, st), Tally(vars, callee, st));
    EvalAllIs(vars, args, st, mem, n);
    var mem1 := Booked(mem, k, Tallies(vars, args, st));
    CalleeIs(vars, callee, st, mem1, n);
    var booked := Tallies(vars, args, st) + Tally(vars, callee, st);
    BookTwice(mem, n, booked, CodeValue(vars, callee, st) + Values(vars, args, st));
    var values := EvalAll(vars, env, args, st, mem).0;
    CallBooks(Callee(vars, env, callee, st, mem1).0, values, Booked(mem, k, booked), k);
  }

  lemma CallBooks(code: Code, values: seq<int>, mem: Memory, k: int)
    requires k in mem
    ensures Ledger(k).call(code, values, mem) == (Given(code, values), Booked(mem, k, Given(code, values)))
  {
  }

  lemma {:induction false} CalleeIs(vars: Symbols, callee: Expr, st: Locals, mem: Memory, n: nat)
    requires Ready(mem, n) && Extent(vars, callee, st) <= n
    ensures
      var (code, mem1) := Callee(vars, Ledger(n + 1), callee, st, mem);
      code.address + code.owner == CodeValue(vars, callee, st) && mem1 == Booked(mem, n + 1, Tally(vars, callee, st))
    decreases callee, 2
  {
    EvalIs(vars, if callee.Member? then callee.owner else callee, st, mem, n);
  }

  lemma {:induction false} EvalAllIs(vars: Symbols, es: seq<Expr>, st: Locals, mem: Memory, n: nat)
    requires Ready(mem, n) && Extents(vars, es, st) <= n
    ensures
      var (values, mem1) := EvalAll(vars, Ledger(n + 1), es, st, mem);
      Sum(values) == Values(vars, es, st) && mem1 == Booked(mem, n + 1, Tallies(vars, es, st))
    decreases es, 0
  {
    var k := n + 1;
    if es == [] {
      BookTwice(mem, n, 0, 0);
    } else {
      EvalIs(vars, es[0], st, mem, n);
      EvalAllIs(vars, es[1..], st, Booked(mem, k, Tally(vars, es[0], st)), n);
      BookTwice(mem, n, Tally(vars, es[0], st), Tallies(vars, es[1..], st));
    }
  }

  // ----- what is read in this world -----

  /** The variables that evaluating e reads: of a conditional expression, the condition and the branch taken. */
  function Reached(vars: Symbols, e: Expr, st: Locals): set<string>
    decreases e, 1
  {
    match e
    case Number(_) => {}
    case Var(x) => if x in vars then {x} else {}
    case Unary(_, a) => Reached(vars, a, st)
    case Binary(_, l, r) => Reached(vars, l, st) + Reached(vars, r, st)
    case Element(v, i) => Reached(vars, v, st) + Reached(vars, i, st)
    case Member(o, _) => Reached(vars, o, st)
    case Choice(c, t, f) => Reached(vars, c, st) + if Value(vars, c, st) != 0 then Reached(vars, t, st) else Reached(vars, f, st)
    case FunctionCall(callee, args) => Reached(vars, callee, st) + ReachedAll(vars, args, st)
  }

  function ReachedAll(vars: Symbols, es: seq<Expr>, st: Locals): set<string>
    decreases es, 0
  {
    if es == [] then {} else Reached(vars, es[0], st) + ReachedAll(vars, es[1..], st)
  }

  function ReachedTargets(vars: Symbols, ts: seq<Target>, st: Locals): set<string> {
    if ts == [] then {}
    else (if ts[0].ToElement? then Reached(vars, ts[0].vector, st) + Reached(vars, ts[0].index, st) else {}) + ReachedTargets(vars, ts[1..], st)
  }

  function ReachedIn(vars: Symbols, s: Stmt, st: Locals): set<string> {
    match s
    case Assign(targets, values) => ReachedTargets(vars, targets, st) + ReachedAll(vars, values, st)
    case RoutineCall(callee, args) => Reached(vars, callee, st) + ReachedAll(vars, args, st)
    case Condition(c) => Reached(vars, c, st)
    case ForHeader(v, _, end, _) => (if v in vars then {v} else {}) + Reached(vars, end, st)
    case Plain => {}
  }

  /** Whatever x is, the same branches are taken. */
  predicate Settled(vars: Symbols, e: Expr, x: string, st: Locals)
    decreases e, 1
  {
    match e
    case Number(_) => true
    case Var(_) => true
    case Unary(_, a) => Settled(vars, a, x, st)
    case Binary(_, l, r) => Settled(vars, l, x, st) && Settled(vars, r, x, st)
    case Element(v, i) => Settled(vars, v, x, st) && Settled(vars, i, x, st)
    case Member(o, _) => Settled(vars, o, x, st)
    case Choice(c, t, f) =>
      || x !in Reads(vars, e)
      || (x !in Reads(vars, c) && if Value(vars, c, st) != 0 then Settled(vars, t, x, st) else Settled(vars, f, x, st))
    case FunctionCall(callee, args) => Settled(vars, callee, x, st) && SettledAll(vars, args, x, st)
  }

  predicate SettledAll(vars: Symbols, es: seq<Expr>, x: string, st: Locals)
    decreases es, 0
  {
    es == [] || (Settled(vars, es[0], x, st) && SettledAll(vars, es[1..], x, st))
  }

  predicate SettledTargets(vars: Symbols, ts: seq<Target>, x: string, st: Locals) {
    ts == [] ||
    ((ts[0].ToElement? ==> Settled(vars, ts[0].vector, x, st) && Settled(vars, ts[0].index, x, st)) && SettledTargets(vars, ts[1..], x, st))
  }

  predicate SettledIn(vars: Symbols, s: Stmt, x: string, st: Locals) {
    match s
    case Assign(targets, values) => SettledTargets(vars, targets, x, st) && SettledAll(vars, values, x, st)
    case RoutineCall(callee, args) => Settled(vars, callee, x, st) && SettledAll(vars, args, x, st)
    case Condition(c) => Settled(vars, c, x, st)
    case ForHeader(_, _, end, _) => Settled(vars, end, x, st)
    case Plain => true
  }

  /** In some state x is read, on a way through the conditional expressions that does not depend on x. */
  ghost predicate ExposedVar(vars: Symbols, s: Stmt, x: string) {
    exists st :: SettledIn(vars, s, x, st) && x in ReachedIn(vars, s, st)
  }

  /** And so are all variables that are read without being counted as used. */
  ghost predicate Exposed(vars: Symbols, s: Stmt) {
    forall x :: x in ReadsOf(vars, s) - Gen(vars, s) ==> ExposedVar(vars, s, x)
  }

  lemma {:induction false} ReachedRead(vars: Symbols, e: Expr, st: Locals)
    ensures Reached(vars, e, st) <= Reads(vars, e)
    decreases e, 1
  {
    match e
    case Number(_) =>
    case Var(_) =>
    case Unary(_, a) => ReachedRead(vars, a, st);
    case Binary(_, l, r) =>
      ReachedRead(vars, l, st);
      ReachedRead(vars, r, st);
    case Element(u, i) =>
      ReachedRead(vars, u, st);
      ReachedRead(vars, i, st);
    case Member(o, _) => ReachedRead(vars, o, st);
    case Choice(c, t, f) =>
      ReachedRead(vars, c, st);
      ReachedRead(vars, t, st);
      ReachedRead(vars, f, st);
    case FunctionCall(callee, args) =>
      ReachedRead(vars, callee, st);
      AllReachedRead(vars, args, st);
  }

  lemma {:induction false} AllReachedRead(vars: Symbols, es: seq<Expr>, st: Locals)
    ensures ReachedAll(vars, es, st) <= ReadsAll(vars, es)
    decreases es, 0
  {
    if es != [] {
      ReachedRead(vars, es[0], st);
      AllReachedRead(vars, es[1..], st);
    }
  }

  // ----- more of x, more of everything -----

  /** What x is read in grows with it, and a call that reads x books more; what does not read x stays. */
  lemma {:induction false} Grows(vars: Symbols, e: Expr, x: string, st: Locals, v: int, w: int)
    requires x in vars && Settled(vars, e, x, st)
    ensures x !in Reached(vars, e, st) ==> Value(vars, e, st[x := v]) == Value(vars, e, st[x := w]) && Tally(vars, e, st[x := v]) == Tally(vars, e, st[x := w])
    ensures v < w && x in Reached(vars, e, st) ==> Value(vars, e, st[x := v]) < Value(vars, e, st[x := w]) && Tally(vars, e, st[x := v]) <= Tally(vars, e, st[x := w])
    ensures v < w && x in Reached(vars, e, st) - Uses(vars, e) ==> Tally(vars, e, st[x := v]) < Tally(vars, e, st[x := w])
    decreases e, 1
  {
    match e
    case Number(_) =>
    case Var(_) =>
    case Unary(_, a) => Grows(vars, a, x, st, v, w);
    case Binary(_, l, r) =>
      Grows(vars, l, x, st, v, w);
      Grows(vars, r, x, st, v, w);
    case Element(u, i) =>
      Grows(vars, u, x, st, v, w);
      Grows(vars, i, x, st, v, w);
    case Member(o, _) => Grows(vars, o, x, st, v, w);
    case Choice(c, t, f) => ChoiceGrows(vars, e, x, st, v, w);
    case FunctionCall(callee, args) =>
      Grows(vars, callee, x, st, v, w);
      if callee.Member? { Grows(vars, callee.owner, x, st, v, w); }
      GrowAll(vars, args, x, st, v, w);
  }

  lemma {:induction false} ChoiceGrows(vars: Symbols, e: Expr, x: string, st: Locals, v: int, w: int)
    requires x in vars && e.Choice? && Settled(vars, e, x, st)
    ensures x !in Reached(vars, e, st) ==> Value(vars, e, st[x := v]) == Value(vars, e, st[x := w]) && Tally(vars, e, st[x := v]) == Tally(vars, e, st[x := w])
    ensures v < w && x in Reached(vars, e, st) ==> Value(vars, e, st[x := v]) < Value(vars, e, st[x := w]) && Tally(vars, e, st[x := v]) <= Tally(vars, e, st[x := w])
    ensures v < w && x in Reached(vars, e, st) - Uses(vars, e) ==> Tally(vars, e, st[x := v]) < Tally(vars, e, st[x := w])
    decreases e, 0
  {
    if x !in Reads(vars, e) {
      ReachedRead(vars, e, st);
      Unread(vars, e, x, st, v);
      Unread(vars, e, x, st, w);
    } else {
      ReachedRead(vars, e.c, st);
      Unread(vars, e.c, x, st, v);
      Unread(vars, e.c, x, st, w);
      Grows(vars, if Value(vars, e.c, st) != 0 then e.t else e.f, x, st, v, w);
    }
  }

  lemma {:induction false} GrowAll(vars: Symbols, es: seq<Expr>, x: string, st: Locals, v: int, w: int)
    requires x in vars && SettledAll(vars, es, x, st)
    ensures x !in ReachedAll(vars, es, st) ==> Values(vars, es, st[x := v]) == Values(vars, es, st[x := w]) && Tallies(vars, es, st[x := v]) == Tallies(vars, es, st[x := w])
    ensures v < w && x in ReachedAll(vars, es, st) ==> Values(vars, es, st[x := v]) < Values(vars, es, st[x := w]) && Tallies(vars, es, st[x := v]) <= Tallies(vars, es, st[x := w])
    ensures v < w && x in ReachedAll(vars, es, st) - UsesAll(vars, es) ==> Tallies(vars, es, st[x := v]) < Tallies(vars, es, st[x := w])
    decreases es, 0
  {
    if es != [] {
      Grows(vars, es[0], x, st, v, w);
      GrowAll(vars, es[1..], x, st, v, w);
    }
  }

  lemma {:induction false} Unread(vars: Symbols, e: Expr, x: string, st: Locals, v: int)
    requires x !in Reads(vars, e)
    ensures Value(vars, e, st[x := v]) == Value(vars, e, st) && Tally(vars, e, st[x := v]) == Tally(vars, e, st)
    decreases e, 1
  {
    match e
    case Number(_) =>
    case Var(_) =>
    case Unary(_, a) => Unread(vars, a, x, st, v);
    case Binary(_, l, r) =>
      Unread(vars, l, x, st, v);
      Unread(vars, r, x, st, v);
    case Element(u, i) =>
      Unread(vars, u, x, st, v);
      Unread(vars, i, x, st, v);
    case Member(o, _) => Unread(vars, o, x, st, v);
    case Choice(c, t, f) =>
      Unread(vars, c, x, st, v);
      Unread(vars, t, x, st, v);
      Unread(vars, f, x, st, v);
    case FunctionCall(callee, args) =>
      Unread(vars, callee, x, st, v);
      if callee.Member? { Unread(vars, callee.owner, x, st, v); }
      UnreadAll(vars, args, x, st, v);
  }

  lemma {:induction false} UnreadAll(vars: Symbols, es: seq<Expr>, x: string, st: Locals, v: int)
    requires x !in ReadsAll(vars, es)
    ensures Values(vars, es, st[x := v]) == Values(vars, es, st) && Tallies(vars, es, st[x := v]) == Tallies(vars, es, st)
    decreases es, 0
  {
    if es != [] {
      Unread(vars, es[0], x, st, v);
      UnreadAll(vars, es[1..], x, st, v);
    }
  }

  // ----- targets -----

  function TargetTallies(vars: Symbols, ts: seq<Target>, st: Locals): int {
    if ts == [] then 0
    else
      (if ts[0].ToElement? then Tally(vars, ts[0].vector, st) + Tally(vars, ts[0].index, st) else 0)
      + TargetTallies(vars, ts[1..], st)
  }

  function TargetExtents(vars: Symbols, ts: seq<Target>, st: Locals): nat {
    if ts == [] then 0
    else (if ts[0].ToElement? then Extent(vars, Element(ts[0].vector, ts[0].index), st) else 0) + TargetExtents(vars, ts[1..], st)
  }

  lemma {:induction false} AddressesAre(vars: Symbols, ts: seq<Target>, st: Locals, mem: Memory, n: nat)
    requires Ready(mem, n) && TargetExtents(vars, ts, st) <= n
    ensures
      var (addresses, mem1) := Addresses(vars, Ledger(n + 1), ts, st, mem);
      mem1 == Booked(mem, n + 1, TargetTallies(vars, ts, st)) && forall i :: 0 <= i < |addresses| ==> addresses[i] <= n
    decreases |ts|
  {
    hide Booked, Ready, Load, Eval;
    BookTwice(mem, n, 0, 0);
    if ts == [] {
    } else if ts[0].ToElement? {
      var (u, i) := (ts[0].vector, ts[0].index);
      PairIs(vars, Element(u, i), u, i, st, mem, n);
      var both := Tally(vars, u, st) + Tally(vars, i, st);
      BookTwice(mem, n, both, TargetTallies(vars, ts[1..], st));
      AddressesAre(vars, ts[1..], st, Booked(mem, n + 1, both), n);
    } else {
      AddressesAre(vars, ts[1..], st, mem, n);
    }
  }

  lemma {:induction false} TargetsGrow(vars: Symbols, ts: seq<Target>, x: string, st: Locals)
    requires x in vars && SettledTargets(vars, ts, x, st)
    ensures TargetTallies(vars, ts, st[x := 0]) <= TargetTallies(vars, ts, st[x := 1])
    ensures x in ReachedTargets(vars, ts, st) - AllTargetUses(vars, ts) ==> TargetTallies(vars, ts, st[x := 0]) < TargetTallies(vars, ts, st[x := 1])
    decreases |ts|
  {
    if ts != [] {
      if ts[0].ToElement? {
        Grows(vars, ts[0].vector, x, st, 0, 1);
        Grows(vars, ts[0].index, x, st, 0, 1);
      }
      TargetsGrow(vars, ts[1..], x, st);
    }
  }

  /** Storing below k leaves the books at k alone. */
  lemma {:induction false} StoreBelow(ts: seq<Target>, addresses: seq<int>, values: seq<int>, st: Locals, mem: Memory, k: int)
    requires forall i :: 0 <= i < |addresses| ==> addresses[i] != k
    ensures Load(Store(ts, addresses, values, st, mem).1, k) == Load(mem, k)
    decreases |ts|
  {
    if ts != [] && addresses != [] && values != [] {
      match ts[0]
      case ToVar(y) => StoreBelow(ts[1..], addresses[1..], values[1..], st[y := values[0]], mem, k);
      case ToElement(_, _) => StoreBelow(ts[1..], addresses[1..], values[1..], st, mem[addresses[0] := values[0]], k);
    }
  }

  // ----- statements -----

  function StmtTally(vars: Symbols, s: Stmt, st: Locals): int {
    match s
    case Assign(targets, values) => TargetTallies(vars, targets, st) + Tallies(vars, values, st)
    case RoutineCall(callee, args) => Tally(vars, FunctionCall(callee, args), st)
    case Condition(c) => Tally(vars, c, st)
    case ForHeader(_, _, end, _) => Tally(vars, end, st)
    case Plain => 0
  }

  function StmtExtent(vars: Symbols, s: Stmt, st: Locals): nat {
    match s
    case Assign(targets, values) => TargetExtents(vars, targets, st) + Extents(vars, values, st)
    case RoutineCall(callee, args) => Extent(vars, FunctionCall(callee, args), st)
    case Condition(c) => Extent(vars, c, st)
    case ForHeader(_, _, end, _) => Extent(vars, end, st)
    case Plain => 0
  }

  /** What a statement leaves in the books. */
  lemma RunBooks(vars: Symbols, s: Stmt, st: Locals, mem: Memory, n: nat)
    requires Ready(mem, n) && StmtExtent(vars, s, st) <= n
    ensures Load(Run(vars, Ledger(n + 1), s, Config(st, mem, [])).mem, n + 1) == mem[n + 1] + StmtTally(vars, s, st)
  {
    var (env, k) := (Ledger(n + 1), n + 1);
    match s
    case Assign(targets, values) =>
      AddressesAre(vars, targets, st, mem, n);
      var (addresses, mem1) := Addresses(vars, env, targets, st, mem);
      EvalAllIs(vars, values, st, mem1, n);
      var (vs, mem2) := EvalAll(vars, env, values, st, mem1);
      BookTwice(mem, n, TargetTallies(vars, targets, st), Tallies(vars, values, st));
      StoreBelow(targets, addresses, vs, st, mem2, k);
    case RoutineCall(callee, args) => CallIs(vars, callee, args, st, mem, n);
    case Condition(c) => EvalIs(vars, c, st, mem, n);
    case ForHeader(_, _, end, _) => EvalIs(vars, end, st, mem, n);
    case Plain =>
  }

  lemma StmtGrows(vars: Symbols, s: Stmt, x: string, st: Locals)
    requires x in vars && SettledIn(vars, s, x, st) && x in ReachedIn(vars, s, st) - Gen(vars, s)
    requires s.ForHeader? ==> x in Reached(vars, s.end, st)
    ensures StmtTally(vars, s, st[x := 0]) < StmtTally(vars, s, st[x := 1])
  {
    match s
    case Assign(targets, values) =>
      TargetsGrow(vars, targets, x, st);
      GrowAll(vars, values, x, st, 0, 1);
    case RoutineCall(callee, args) => Grows(vars, FunctionCall(callee, args), x, st, 0, 1);
    case Condition(c) => Grows(vars, c, x, st, 0, 1);
    case ForHeader(_, _, end, _) => Grows(vars, end, x, st, 0, 1);
    case Plain =>
  }

  /** Two states that differ in one variable only, which is not counted as used. */
  lemma ApartIn(vars: Symbols, env: Env, s: Stmt, x: string, st: Locals, a: int, b: int, mem: Memory)
    requires x !in Gen(vars, s)
    ensures SameBefore(vars, env, s, {}, Config(st[x := a], mem, []), Config(st[x := b], mem, []))
  {
  }

  lemma {:induction false} ReadsAreVars(vars: Symbols, e: Expr)
    ensures Reads(vars, e) <= vars
    decreases e, 1
  {
    match e
    case Number(_) =>
    case Var(_) =>
    case Unary(_, a) => ReadsAreVars(vars, a);
    case Binary(_, l, r) =>
      ReadsAreVars(vars, l);
      ReadsAreVars(vars, r);
    case Element(u, i) =>
      ReadsAreVars(vars, u);
      ReadsAreVars(vars, i);
    case Member(o, _) => ReadsAreVars(vars, o);
    case Choice(c, t, f) =>
      ReadsAreVars(vars, c);
      ReadsAreVars(vars, t);
      ReadsAreVars(vars, f);
    case FunctionCall(callee, args) =>
      ReadsAreVars(vars, callee);
      AllReadsAreVars(vars, args);
  }

  lemma {:induction false} AllReadsAreVars(vars: Symbols, es: seq<Expr>)
    ensures ReadsAll(vars, es) <= vars
    decreases es, 0
  {
    if es != [] {
      ReadsAreVars(vars, es[0]);
      AllReadsAreVars(vars, es[1..]);
    }
  }

  lemma {:induction false} TargetReadsAreVars(vars: Symbols, ts: seq<Target>)
    ensures AllTargetReads(vars, ts) <= vars
    decreases |ts|
  {
    if ts != [] {
      if ts[0].ToElement? {
        ReadsAreVars(vars, ts[0].vector);
        ReadsAreVars(vars, ts[0].index);
      }
      TargetReadsAreVars(vars, ts[1..]);
    }
  }

  lemma StmtReadsAreVars(vars: Symbols, s: Stmt)
    ensures ReadsOf(vars, s) <= vars
  {
    match s
    case Assign(targets, values) =>
      TargetReadsAreVars(vars, targets);
      AllReadsAreVars(vars, values);
    case RoutineCall(callee, args) =>
      ReadsAreVars(vars, callee);
      AllReadsAreVars(vars, args);
    case Condition(c) => ReadsAreVars(vars, c);
    case ForHeader(_, _, end, _) => ReadsAreVars(vars, end);
    case Plain =>
  }

  /** Two states, and a world in which the statement tells them apart although they agree on all that is live before it. */
  lemma UncoveredTold(vars: Symbols, s: Stmt, x: string, st: Locals) returns (env: Env, a: Config, b: Config)
    requires SettledIn(vars, s, x, st) && x in ReachedIn(vars, s, st) && x in ReadsOf(vars, s) - Gen(vars, s)
    ensures SameBefore(vars, env, s, {}, a, b) && !SameAfter(vars, env, s, {}, a, b)
  {
    StmtReadsAreVars(vars, s);
    if s.ForHeader? && x !in Reached(vars, s.end, st) {
      env, a, b := TestsDiffer(vars, s, st);
    } else {
      var n := StmtExtent(vars, s, st[x := 0]) + StmtExtent(vars, s, st[x := 1]);
      var mem := Identity(n)[n + 1 := 0];
      env := Ledger(n + 1);
      a, b := Config(st[x := 0], mem, []), Config(st[x := 1], mem, []);
      ApartIn(vars, env, s, x, st, 0, 1, mem);
      RunBooks(vars, s, st[x := 0], mem, n);
      RunBooks(vars, s, st[x := 1], mem, n);
      StmtGrows(vars, s, x, st);
    }
  }

  /** A FOR header whose limit does not read its variable: one state on each side of the limit. */
  lemma TestsDiffer(vars: Symbols, s: Stmt, st: Locals) returns (env: Env, a: Config, b: Config)
    requires s.ForHeader? && s.v in vars && s.v !in Gen(vars, s) && SettledIn(vars, s, s.v, st) && s.v !in Reached(vars, s.end, st)
    ensures SameBefore(vars, env, s, {}, a, b) && !SameAfter(vars, env, s, {}, a, b)
  {
    var limit := Value(vars, s.end, st[s.v := 0]);
    var (at, above) := (st[s.v := limit], st[s.v := limit + 1]);
    var n := Extent(vars, s.end, at) + Extent(vars, s.end, above);
    var mem := Identity(n)[n + 1 := 0];
    env := Ledger(n + 1);
    a, b := Config(at, mem, []), Config(above, mem, []);
    Grows(vars, s.end, s.v, st, 0, limit);
    Grows(vars, s.end, s.v, st, 0, limit + 1);
    EvalIs(vars, s.end, at, mem, n);
    EvalIs(vars, s.end, above, mem, n);
    assert Run(vars, env, s, a).tests == [1] && Run(vars, env, s, b).tests == [0];
    ApartIn(vars, env, s, s.v, st, limit, limit + 1, mem);
  }

  /**
    In every world a statement is transferred rightly, if and only if all it reads counts as used; for all
    statements in which no uncounted variable hides behind conditions.
   */
  lemma AdequateExactly(vars: Symbols, s: Stmt)
    requires Balanced(s) && Exposed(vars, s)
    ensures (forall env :: Adequate(vars, env, s)) <==> Covered(vars, s)
  {
    hide Run, Agree, LiveBefore, Gen, ReadsOf, SettledIn, ReachedIn;
    if Covered(vars, s) {
      forall env { CoveredAdequate(vars, env, s); }
    } else {
      var x :| x in ReadsOf(vars, s) && x !in Gen(vars, s);
      assert ExposedVar(vars, s, x);
      var st :| SettledIn(vars, s, x, st) && x in ReachedIn(vars, s, st);
      var env, a, b := UncoveredTold(vars, s, x, st);
      assert !Adequate(vars, env, s);
    }
  }

  /** Covered statements are transferred rightly whatever conditional expressions they hold. */
  lemma CoveredAdequate(vars: Symbols, env: Env, s: Stmt)
    requires Balanced(s) && Covered(vars, s)
    ensures Adequate(vars, env, s)
  {
    forall after, a, b | SameBefore(vars, env, s, after, a, b) ensures SameAfter(vars, env, s, after, a, b) {
      RunAgrees(vars, env, s, after, a, b);
    }
  }

  /** v!0() as a statement: nothing is live before it, and it calls what v points to. */
  lemma CalleeMissed()
    ensures
      var (vars, s) := ({"v"}, RoutineCall(Element(Var("v"), Number(0)), []));
      && Gen(vars, s) == {} && LiveBefore(vars, s, {}) == {} && !Covered(vars, s)
      && !forall env :: Adequate(vars, env, s)
  {
    var (vars, s) := ({"v"}, RoutineCall(Element(Var("v"), Number(0)), []));
    assert "v" in ReadsOf(vars, s);
    forall x | x in ReadsOf(vars, s) - Gen(vars, s) ensures ExposedVar(vars, s, x) {
      assert SettledIn(vars, s, x, map[]) && x in ReachedIn(vars, s, map[]);
    }
    AdequateExactly(vars, s);
  }

  /** (0 -> v!0(), 1) as a condition: v is read by a callee that is never reached, so nothing is missed. */
  lemma UnreachedCallee()
    ensures
      var (vars, s) := ({"v"}, Condition(Choice(Number(0), FunctionCall(Element(Var("v"), Number(0)), []), Number(1))));
      !Covered(vars, s) && !Exposed(vars, s) && forall env :: Adequate(vars, env, s)
  {
    var (vars, s) := ({"v"}, Condition(Choice(Number(0), FunctionCall(Element(Var("v"), Number(0)), []), Number(1))));
    assert "v" in ReadsOf(vars, s) && "v" !in Gen(vars, s) && forall st :: "v" !in ReachedIn(vars, s, st);
  }

  /** (z -> (z -> 1, v!0()), 2): neither condition is fixed, but the second is by the first, and nothing is missed either. */
  lemma UnreachedByRepetition()
    ensures
      var inner := Choice(Var("z"), Number(1), FunctionCall(Element(Var("v"), Number(0)), []));
      var (vars, s) := ({"v", "z"}, Condition(Choice(Var("z"), inner, Number(2))));
      !Covered(vars, s) && !Exposed(vars, s) && forall env :: Adequate(vars, env, s)
  {
    var inner := Choice(Var("z"), Number(1), FunctionCall(Element(Var("v"), Number(0)), []));
    var (vars, s) := ({"v", "z"}, Condition(Choice(Var("z"), inner, Number(2))));
    assert "v" in ReadsOf(vars, s) && "v" !in Gen(vars, s) && forall st :: "v" !in ReachedIn(vars, s, st);
    assert "v" in ReadsOf(vars, s) - Gen(vars, s) && !ExposedVar(vars, s, "v");
    assert !Exposed(vars, s);
    assert !Covered(vars, s);
    forall env ensures Adequate(vars, env, s) {
      forall after, a, b | SameBefore(vars, env, s, after, a, b) ensures SameAfter(vars, env, s, after, a, b) {
        assert "z" in LiveBefore(vars, s, after) && Kill(s) == {};
        assert Get(vars, env, "z", a.st) == Get(vars, env, "z", b.st);
        RepeatedTest(vars, env, a.st, a.mem);
        RepeatedTest(vars, env, b.st, b.mem);
        assert forall x :: x in after ==> x in LiveBefore(vars, s, after);
      }
    }
  }

  lemma RepeatedTest(vars: Symbols, env: Env, st: Locals, mem: Memory)
    ensures
      var inner := Choice(Var("z"), Number(1), FunctionCall(Element(Var("v"), Number(0)), []));
      Eval(vars, env, Choice(Var("z"), inner, Number(2)), st, mem) == (if Get(vars, env, "z", st) != 0 then 1 else 2, mem)
  {
  }

  /** FOR i = 1 TO 10: nothing is live before the header, yet its test depends on the state. */
  lemma ForHeaderMissed(env: Env)
    ensures
      var (vars, s) := ({"i"}, ForHeader("i", Number(1), Number(10), None));
      && LiveIn(vars, [s], {}) == {}
      && Run(vars, env, s, Config(map["i" := 1], map[], [])).tests == [1]
      && Run(vars, env, s, Config(map["i" := 11], map[], [])).tests == [0]
  {
    var (vars, s) := ({"i"}, ForHeader("i", Number(1), Number(10), None));
    assert LiveIn(vars, [s], {}) == LiveBefore(vars, s, LiveIn(vars, [s][1..], {}));
    assert [s][1..] == [];
  }
}
