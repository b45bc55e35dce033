/**
  Conditional expressions whose conditions are variables, none tested again in its own branches: a state can lead
  evaluation into any branch, so what the liveness visitor does not count there is missed.
 */
module LivenessChoices {
  import opened Liveness
  import opened LivenessExact

  /** The variables that the conditional expressions around a read of x test. */
  function Steers(vars: Symbols, e: Expr, x: string): set<string>
    decreases e, 1
  {
    match e
    case Number(_) => {}
    case Var(_) => {}
    case Unary(_, a) => Steers(vars, a, x)
    case Binary(_, l, r) => Steers(vars, l, x) + Steers(vars, r, x)
    case Element(v, i) => Steers(vars, v, x) + Steers(vars, i, x)
    case Member(o, _) => Steers(vars, o, x)
    case Choice(c, t, f) =>
      if x in Reads(vars, e) && c.Var? then {c.x} + Steers(vars, t, x) + Steers(vars, f, x) else {}
    case FunctionCall(callee, args) => Steers(vars, callee, x) + SteersAll(vars, args, x)
  }

  function SteersAll(vars: Symbols, es: seq<Expr>, x: string): set<string>
    decreases es, 0
  {
    if es == [] then {} else Steers(vars, es[0], x) + SteersAll(vars, es[1..], x)
  }

  /** Every conditional expression that reads x tests another variable, once on the way to x. */
  predicate Steerable(vars: Symbols, e: Expr, x: string)
    decreases e, 1
  {
    match e
    case Number(_) => true
    case Var(_) => true
    case Unary(_, a) => Steerable(vars, a, x)
    case Binary(_, l, r) => Steerable(vars, l, x) && Steerable(vars, r, x)
    case Element(v, i) => Steerable(vars, v, x) && Steerable(vars, i, x)
    case Member(o, _) => Steerable(vars, o, x)
    case Choice(c, t, f) =>
      x in Reads(vars, e) ==>
        && c.Var? && c.x in vars && c.x != x && c.x !in Steers(vars, t, x) + Steers(vars, f, x)
        && Steerable(vars, t, x) && Steerable(vars, f, x)
    case FunctionCall(callee, args) => Steerable(vars, callee, x) && SteerableAll(vars, args, x)
  }

  predicate SteerableAll(vars: Symbols, es: seq<Expr>, x: string)
    decreases es, 0
  {
    es == [] || (Steerable(vars, es[0], x) && SteerableAll(vars, es[1..], x))
  }

  predicate SteerableTargets(vars: Symbols, ts: seq<Target>, x: string) {
    ts == [] ||
    ((ts[0].ToElement? ==> Steerable(vars, ts[0].vector, x) && Steerable(vars, ts[0].index, x)) && SteerableTargets(vars, ts[1..], x))
  }

  predicate SteerableIn(vars: Symbols, s: Stmt, x: string) {
    match s
    case Assign(targets, values) => SteerableTargets(vars, targets, x) && SteerableAll(vars, values, x)
    case RoutineCall(callee, args) => Steerable(vars, callee, x) && SteerableAll(vars, args, x)
    case Condition(c) => Steerable(vars, c, x)
    case ForHeader(_, _, end, _) => Steerable(vars, end, x)
    case Plain => true
  }

  // ----- the branches taken do not depend on x -----

  lemma {:induction false} SteerableSettled(vars: Symbols, e: Expr, x: string, st: Locals)
    requires Steerable(vars, e, x)
    ensures Settled(vars, e, x, st)
    decreases e, 1
  {
    match e
    case Number(_) =>
    case Var(_) =>
    case Unary(_, a) => SteerableSettled(vars, a, x, st);
    case Binary(_, l, r) =>
      SteerableSettled(vars, l, x, st);
      SteerableSettled(vars, r, x, st);
    case Element(v, i) =>
      SteerableSettled(vars, v, x, st);
      SteerableSettled(vars, i, x, st);
    case Member(o, _) => SteerableSettled(vars, o, x, st);
    case Choice(c, t, f) =>
      if x in Reads(vars, e) {
        SteerableSettled(vars, t, x, st);
        SteerableSettled(vars, f, x, st);
      }
    case FunctionCall(callee, args) =>
      SteerableSettled(vars, callee, x, st);
      AllSteerableSettled(vars, args, x, st);
  }

  lemma {:induction false} AllSteerableSettled(vars: Symbols, es: seq<Expr>, x: string, st: Locals)
    requires SteerableAll(vars, es, x)
    ensures SettledAll(vars, es, x, st)
    decreases es, 0
  {
    if es != [] {
      SteerableSettled(vars, es[0], x, st);
      AllSteerableSettled(vars, es[1..], x, st);
    }
  }

  lemma {:induction false} TargetsSettled(vars: Symbols, ts: seq<Target>, x: string, st: Locals)
    requires SteerableTargets(vars, ts, x)
    ensures SettledTargets(vars, ts, x, st)
    decreases |ts|
  {
    if ts != [] {
      if ts[0].ToElement? {
        SteerableSettled(vars, ts[0].vector, x, st);
        SteerableSettled(vars, ts[0].index, x, st);
      }
      TargetsSettled(vars, ts[1..], x, st);
    }
  }

  // ----- steering -----

  /** A variable that is not tested on the way to x may be given any value. */
  lemma {:induction false} StillReached(vars: Symbols, e: Expr, x: string, st: Locals, z: string, v: int)
    requires Steerable(vars, e, x) && z !in Steers(vars, e, x) && x in Reached(vars, e, st)
    ensures x in Reached(vars, e, st[z := v])
    decreases e, 1
  {
    ReachedRead(vars, e, st);
    match e
    case Number(_) =>
    case Var(_) =>
    case Unary(_, a) => StillReached(vars, a, x, st, z, v);
    case Binary(_, l, r) => StillReached(vars, if x in Reached(vars, l, st) then l else r, x, st, z, v);
    case Element(u, i) => StillReached(vars, if x in Reached(vars, u, st) then u else i, x, st, z, v);
    case Member(o, _) => StillReached(vars, o, x, st, z, v);
    case Choice(c, t, f) => StillReached(vars, if Value(vars, c, st) != 0 then t else f, x, st, z, v);
    case FunctionCall(callee, args) =>
      if x in Reached(vars, callee, st) { StillReached(vars, callee, x, st, z, v); } else { StillReachedAll(vars, args, x, st, z, v); }
  }

  lemma {:induction false} StillReachedAll(vars: Symbols, es: seq<Expr>, x: string, st: Locals, z: string, v: int)
    requires SteerableAll(vars, es, x) && z !in SteersAll(vars, es, x) && x in ReachedAll(vars, es, st)
    ensures x in ReachedAll(vars, es, st[z := v])
    decreases es, 0
  {
    if x in Reached(vars, es[0], st) { StillReached(vars, es[0], x, st, z, v); } else { StillReachedAll(vars, es[1..], x, st, z, v); }
  }

  /** A state in which evaluating e comes to a read of x. */
  lemma {:induction false} Steer(vars: Symbols, e: Expr, x: string) returns (st: Locals)
    requires Steerable(vars, e, x) && x in Reads(vars, e)
    ensures x in Reached(vars, e, st)
    decreases e, 1
  {
    st := map[];
    match e
    case Number(_) =>
    case Var(_) =>
    case Unary(_, a) => st := Steer(vars, a, x);
    case Binary(_, l, r) => st := Steer(vars, if x in Reads(vars, l) then l else r, x);
    case Element(u, i) => st := Steer(vars, if x in Reads(vars, u) then u else i, x);
    case Member(o, _) => st := Steer(vars, o, x);
    case Choice(c, t, f) =>
      var (branch, v) := if x in Reads(vars, t) then (t, 1) else (f, 0);
      st := Steer(vars, branch, x);
      StillReached(vars, branch, x, st, c.x, v);
      st := st[c.x := v];
    case FunctionCall(callee, args) =>
      if x in Reads(vars, callee) { st := Steer(vars, callee, x); } else { st := SteerAll(vars, args, x); }
  }

  lemma {:induction false} SteerAll(vars: Symbols, es: seq<Expr>, x: string) returns (st: Locals)
    requires SteerableAll(vars, es, x) && x in ReadsAll(vars, es)
    ensures x in ReachedAll(vars, es, st)
    decreases es, 0
  {
    if x in Reads(vars, es[0]) { st := Steer(vars, es[0], x); } else { st := SteerAll(vars, es[1..], x); }
  }

  lemma {:induction false} SteerTargets(vars: Symbols, ts: seq<Target>, x: string) returns (st: Locals)
    requires SteerableTargets(vars, ts, x) && x in AllTargetReads(vars, ts)
    ensures x in ReachedTargets(vars, ts, st)
    decreases |ts|
  {
    if x in TargetReads(vars, ts[0]) {
      st := Steer(vars, if x in Reads(vars, ts[0].vector) then ts[0].vector else ts[0].index, x);
    } else {
      st := SteerTargets(vars, ts[1..], x);
    }
  }

  lemma SteerableExposed(vars: Symbols, s: Stmt, x: string)
    requires SteerableIn(vars, s, x) && x in ReadsOf(vars, s)
    ensures ExposedVar(vars, s, x)
  {
    var st: Locals := map[];
    match s {
      case Assign(targets, values) =>
        if x in AllTargetReads(vars, targets) { st := SteerTargets(vars, targets, x); } else { st := SteerAll(vars, values, x); }
        TargetsSettled(vars, targets, x, st);
        AllSteerableSettled(vars, values, x, st);
      case RoutineCall(callee, args) =>
        if x in Reads(vars, callee) { st := Steer(vars, callee, x); } else { st := SteerAll(vars, args, x); }
        SteerableSettled(vars, callee, x, st);
        AllSteerableSettled(vars, args, x, st);
      case Condition(c) =>
        st := Steer(vars, c, x);
        SteerableSettled(vars, c, x, st);
      case ForHeader(v, _, end, _) =>
        if x in Reads(vars, end) { st := Steer(vars, end, x); }
        SteerableSettled(vars, end, x, st);
      case Plain =>
    }
    assert SettledIn(vars, s, x, st) && x in ReachedIn(vars, s, st);
  }

  /** For statements with such conditional expressions only: transferred rightly if and only if all that is read counts. */
  lemma AdequateSteerable(vars: Symbols, s: Stmt)
    requires Balanced(s) && forall x :: x in ReadsOf(vars, s) - Gen(vars, s) ==> SteerableIn(vars, s, x)
    ensures (forall env :: Adequate(vars, env, s)) <==> Covered(vars, s)
  {
    hide Gen, ReadsOf, SteerableIn, Adequate;
    forall x | x in ReadsOf(vars, s) - Gen(vars, s) ensures ExposedVar(vars, s, x) {
      SteerableExposed(vars, s, x);
    }
    AdequateExactly(vars, s);
  }

  /** (z -> v!0(), 1) as a condition: where z is not 0 it calls what v points to, and v is not live before it. */
  lemma ChoiceMissed()
    ensures
      var (vars, s) := ({"v", "z"}, Condition(Choice(Var("z"), FunctionCall(Element(Var("v"), Number(0)), []), Number(1))));
      LiveBefore(vars, s, {}) == {"z"} && !forall env :: Adequate(vars, env, s)
  {
    var (vars, s) := ({"v", "z"}, Condition(Choice(Var("z"), FunctionCall(Element(Var("v"), Number(0)), []), Number(1))));
    assert "v" in ReadsOf(vars, s) - Gen(vars, s);
    AdequateSteerable(vars, s);
  }
}
