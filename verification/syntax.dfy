/**
  The statements the control-flow builder lowers, and what running them means.

  Expressions are free of VALOF, so they only read the store. Anything the builder does not look
  into (the value of an expression, the effect of a routine call) is a parameter: an `Env`.
 */
module Syntax {
  import opened Wrappers

  type Store = map<string, int>

  datatype Expr =
    | Num(n: int)
    | Var(x: string)
    | Plus(l: Expr, r: Expr)
    | Opaque(id: nat)

  /** One variable of a LET declaration with its initializer, if any. */
  datatype Let = Let(name: string, init: Option<Expr>)

  datatype Case = Case(value: int, command: Stmt)

  datatype Stmt =
    | Assign(x: string, e: Expr)
    | Call(routine: nat, args: seq<Expr>)
    | If(c: Expr, thn: Stmt)
    | Test(c: Expr, thn: Stmt, els: Stmt)
    | While(c: Expr, body: Stmt)
    | For(v: string, start: Expr, limit: Expr, step: Option<Expr>, body: Stmt)
    | Switchon(e: Expr, cases: seq<Case>, dflt: Option<Stmt>)
    | Compound(ss: seq<Stmt>)
    | Block(lets: seq<Let>, ss: seq<Stmt>)
    | Break
    | Loop
    | Endcase
    | Return
    | Defer(deferred: Stmt)

  /** The meaning of opaque expressions and of routine calls. */
  datatype Env = Env(value: (nat, Store) -> int, call: (nat, seq<int>, Store) -> Store)

  /** How a statement ends: by falling through, or by one of the jumps. */
  datatype Outcome = Normal | Broke | Looped | Endcased | Returned

  type Ended = Option<(Outcome, Store)>

  function Eval(env: Env, e: Expr, st: Store): int {
    match e
    case Num(n) => n
    case Var(x) => if x in st then st[x] else 0
    case Plus(l, r) => Eval(env, l, st) + Eval(env, r, st)
    case Opaque(id) => env.value(id, st)
  }

  function EvalAll(env: Env, es: seq<Expr>, st: Store): (values: seq<int>)
    ensures |values| == |es| && forall i :: 0 <= i < |es| ==> values[i] == Eval(env, es[i], st)
  {
    seq(|es|, i requires 0 <= i < |es| => Eval(env, es[i], st))
  }

  function StepExpr(v: string, step: Option<Expr>): Expr {
    Plus(Var(v), if step.Some? then step.value else Num(1))
  }

  /** The index of the first of `values` equal to `x`, or the number of values when there is none. */
  function Select(x: int, values: seq<int>): (i: nat)
    ensures i <= |values|
    ensures i < |values| ==> values[i] == x
    ensures forall j :: 0 <= j < i ==> values[j] != x
  {
    if values == [] then 0 else if values[0] == x then 0 else 1 + Select(x, values[1..])
  }

  function Values(cases: seq<Case>): (vs: seq<int>)
    ensures |vs| == |cases| && forall i :: 0 <= i < |cases| ==> vs[i] == cases[i].value
  {
    seq(|cases|, i requires 0 <= i < |cases| => cases[i].value)
  }

  /**
    Structured execution. None means that `fuel` loop rounds were not enough; a LET assigns its
    variable; a DEFER does nothing where it stands.
   */
  function Exec(env: Env, s: Stmt, st: Store, fuel: nat): Ended
    decreases fuel, s, 1
  {
    match s
    case Assign(x, e) => Some((Normal, st[x := Eval(env, e, st)]))
    case Call(f, args) => Some((Normal, env.call(f, EvalAll(env, args, st), st)))
    case If(c, thn) => if Eval(env, c, st) != 0 then Exec(env, thn, st, fuel) else Some((Normal, st))
    case Test(c, thn, els) => if Eval(env, c, st) != 0 then Exec(env, thn, st, fuel) else Exec(env, els, st, fuel)
    case While(c, body) => ExecLoop(env, WhileTest(c), None, body, st, fuel)
    case For(v, start, limit, step, body) =>
      ExecLoop(env, ForTest(v, limit), Some(Assign(v, StepExpr(v, step))), body, st[v := Eval(env, start, st)], fuel)
    case Switchon(e, cases, dflt) =>
      var i := Select(Eval(env, e, st), Values(cases));
      var r :=
        if i < |cases| then Exec(env, cases[i].command, st, fuel)
        else if dflt.Some? then Exec(env, dflt.value, st, fuel)
        else Some((Normal, st));
      if r.Some? && r.value.0 == Endcased then Some((Normal, r.value.1)) else r
    case Compound(ss) => ExecSeq(env, ss, st, fuel)
    case Block(lets, ss) => ExecSeq(env, ss, ExecLets(env, lets, st), fuel)
    case Break => Some((Broke, st))
    case Loop => Some((Looped, st))
    case Endcase => Some((Endcased, st))
    case Return => Some((Returned, st))
    case Defer(_) => Some((Normal, st))
  }

  datatype LoopTest = WhileTest(c: Expr) | ForTest(v: string, limit: Expr)

  predicate Holds(env: Env, t: LoopTest, st: Store) {
    match t
    case WhileTest(c) => Eval(env, c, st) != 0
    case ForTest(v, limit) => Eval(env, Var(v), st) <= Eval(env, limit, st)
  }

  /** The rounds of a loop from the test on; `step` is the assignment a FOR makes after each round. */
  function ExecLoop(env: Env, t: LoopTest, step: Option<Stmt>, body: Stmt, st: Store, fuel: nat): Ended
    requires step.Some? ==> step.value.Assign?
    decreases fuel, body, 2
  {
    if fuel == 0 then None
    else if !Holds(env, t, st) then Some((Normal, st))
    else
      match Exec(env, body, st, fuel)
      case None => None
      case Some((Broke, st1)) => Some((Normal, st1))
      case Some((Normal, st1)) => ExecLoop(env, t, step, body, AfterStep(env, step, st1), fuel - 1)
      case Some((Looped, st1)) => ExecLoop(env, t, step, body, AfterStep(env, step, st1), fuel - 1)
      case Some((o, st1)) => Some((o, st1))
  }

  function AfterStep(env: Env, step: Option<Stmt>, st: Store): Store
    requires step.Some? ==> step.value.Assign?
  {
    if step.Some? then st[step.value.x := Eval(env, step.value.e, st)] else st
  }

  function ExecSeq(env: Env, ss: seq<Stmt>, st: Store, fuel: nat): Ended
    decreases fuel, ss, 0
  {
    if ss == [] then Some((Normal, st))
    else
      match Exec(env, ss[0], st, fuel)
      case Some((Normal, st1)) => ExecSeq(env, ss[1..], st1, fuel)
      case r => r
  }

  function ExecLets(env: Env, lets: seq<Let>, st: Store): Store {
    if lets == [] then st
    else
      var st1 := if lets[0].init.Some? then st[lets[0].name := Eval(env, lets[0].init.value, st)] else st;
      ExecLets(env, lets[1..], st1)
  }

  /** More fuel never changes a finished execution. */
  lemma {:induction false} ExecMono(env: Env, s: Stmt, st: Store, fuel: nat, more: nat)
    requires Exec(env, s, st, fuel).Some? && fuel <= more
    ensures Exec(env, s, st, more) == Exec(env, s, st, fuel)
    decreases fuel, s, 1
  {
    match s
    case If(c, thn) => if Eval(env, c, st) != 0 { ExecMono(env, thn, st, fuel, more); }
    case Test(c, thn, els) =>
      if Eval(env, c, st) != 0 { ExecMono(env, thn, st, fuel, more); } else { ExecMono(env, els, st, fuel, more); }
    case While(c, body) => LoopMono(env, WhileTest(c), None, body, st, fuel, more);
    case For(v, start, limit, step, body) =>
      LoopMono(env, ForTest(v, limit), Some(Assign(v, StepExpr(v, step))), body, st[v := Eval(env, start, st)], fuel, more);
    case Switchon(e, cases, dflt) =>
      var i := Select(Eval(env, e, st), Values(cases));
      if i < |cases| {
        ExecMono(env, cases[i].command, st, fuel, more);
      } else if dflt.Some? {
        ExecMono(env, dflt.value, st, fuel, more);
      }
    case Compound(ss) => SeqMono(env, ss, st, fuel, more);
    case Block(lets, ss) => SeqMono(env, ss, ExecLets(env, lets, st), fuel, more);
    case _ =>
  }

  lemma {:induction false} LoopMono(env: Env, t: LoopTest, step: Option<Stmt>, body: Stmt, st: Store, fuel: nat, more: nat)
    requires step.Some? ==> step.value.Assign?
    requires ExecLoop(env, t, step, body, st, fuel).Some? && fuel <= more
    ensures ExecLoop(env, t, step, body, st, more) == ExecLoop(env, t, step, body, st, fuel)
    decreases fuel, body, 2
  {
    if Holds(env, t, st) {
      ExecMono(env, body, st, fuel, more);
      var (o, st1) := Exec(env, body, st, fuel).value;
      if o == Normal || o == Looped {
        LoopMono(env, t, step, body, AfterStep(env, step, st1), fuel - 1, more - 1);
      }
    }
  }

  lemma {:induction false} SeqMono(env: Env, ss: seq<Stmt>, st: Store, fuel: nat, more: nat)
    requires ExecSeq(env, ss, st, fuel).Some? && fuel <= more
    ensures ExecSeq(env, ss, st, more) == ExecSeq(env, ss, st, fuel)
    decreases fuel, ss, 0
  {
    if ss != [] {
      ExecMono(env, ss[0], st, fuel, more);
      var (o, st1) := Exec(env, ss[0], st, fuel).value;
      if o == Normal { SeqMono(env, ss[1..], st1, fuel, more); }
    }
  }
}
