/** Common subexpressions of a list of statements: what the rewriting does, and where it keeps every value. */
module CommonSubexpressions {
  import opened Decimals
  import opened CanonicalKeys

  /** A parallel assignment, a routine call, or a statement the pass leaves alone but whose expressions it counts. */
  datatype Stmt =
    | Assign(targets: seq<string>, values: seq<Expr>)
    | Call(routine: nat, args: seq<Expr>)
    | Other(id: nat, exprs: seq<Expr>)

  /** What running a statement shows: the routine and the values it is called with. */
  datatype Event = Called(routine: nat, args: seq<int>)

  /**
    What calls and other statements do: they set some of the variables they may write, to values that
    depend on the program's variables only.
   */
  datatype World = World(
    machine: Machine,
    call: (nat, seq<int>, State) -> State,
    other: (nat, State) -> State,
    callWrites: nat -> set<string>,
    otherWrites: nat -> set<string>)

  // ----- temporaries -----

  const TEMP := "_cse_temp_"

  function TempName(n: nat): string {
    TEMP + Decimal(n)
  }

  predicate IsTemp(x: string) {
    TEMP <= x
  }

  lemma TempNames(m: nat, n: nat)
    ensures IsTemp(TempName(m)) && (TempName(m) == TempName(n) ==> m == n)
  {
    if TempName(m) == TempName(n) {
      Cancel(TEMP, Decimal(m), Decimal(n));
      DecimalInjective(m, n);
    }
  }

  // ----- running statements -----

  /** The program's own variables. */
  function View(st: State): State {
    map x | x in st && !IsTemp(x) :: st[x]
  }

  function EvalAll(w: World, es: seq<Expr>, st: State): (vs: seq<int>)
    ensures |vs| == |es| && forall i :: 0 <= i < |es| ==> vs[i] == Eval(w.machine, es[i], st)
  {
    seq(|es|, i requires 0 <= i < |es| => Eval(w.machine, es[i], st))
  }

  function Update(st: State, targets: seq<string>, values: seq<int>): State
    decreases |targets|
  {
    if targets == [] || values == [] then st else Update(st[targets[0] := values[0]], targets[1..], values[1..])
  }

  function Run(w: World, s: Stmt, st: State): (State, seq<Event>) {
    match s
    case Assign(targets, values) => (Update(st, targets, EvalAll(w, values, st)), [])
    case Call(routine, args) =>
      var vs := EvalAll(w, args, st);
      (st + w.call(routine, vs, View(st)), [Called(routine, vs)])
    case Other(id, _) => (st + w.other(id, View(st)), [])
  }

  function RunAll(w: World, ss: seq<Stmt>, st: State): (State, seq<Event>) {
    if ss == [] then (st, [])
    else
      var (st1, events) := Run(w, ss[0], st);
      var (st2, more) := RunAll(w, ss[1..], st1);
      (st2, events + more)
  }

  ghost predicate Honest(w: World) {
    && Commutes(w.machine)
    && (forall routine, vs, st :: w.call(routine, vs, st).Keys <= w.callWrites(routine))
    && (forall id, st :: w.other(id, st).Keys <= w.otherWrites(id))
    && (forall routine, x :: x in w.callWrites(routine) ==> !IsTemp(x))
    && (forall id, x :: x in w.otherWrites(id) ==> !IsTemp(x))
  }

  // ----- counting -----

  type Counts = map<string, nat>

  function CountOne(counts: Counts, key: string): Counts {
    counts[key := (if key in counts then counts[key] else 0) + 1]
  }

  /** Binary operations are counted, and so are those inside them. */
  function CountExpr(counts: Counts, e: Expr): Counts
    decreases e
  {
    if e.Bin? then CountExpr(CountExpr(CountOne(counts, Key(e)), e.l), e.r) else counts
  }

  function CountExprs(counts: Counts, es: seq<Expr>): Counts
    decreases |es|
  {
    if es == [] then counts else CountExprs(CountExpr(counts, es[0]), es[1..])
  }

  function Exprs(s: Stmt): seq<Expr> {
    match s
    case Assign(_, values) => values
    case Call(_, args) => args
    case Other(_, exprs) => exprs
  }

  function CountAll(counts: Counts, ss: seq<Stmt>): Counts
    decreases |ss|
  {
    if ss == [] then counts else CountAll(CountExprs(counts, Exprs(ss[0])), ss[1..])
  }

  // ----- rewriting -----

  /**
    Which temporary holds the value of a key, the number of the next temporary, and whether the function's
    metrics are there for it to be registered in.
   */
  datatype Cse = Cse(available: map<string, string>, next: nat, metrics: bool)

  function Reserve(c: Cse, key: string): Cse {
    c.(available := c.available[key := TempName(c.next)], next := c.next + 1)
  }

  predicate Common(counts: Counts, e: Expr) {
    e.Bin? && Key(e) in counts && counts[Key(e)] > 1
  }

  /** The expression in place of e, and the assignments to be inserted before the statement. */
  function RewriteExpr(counts: Counts, c: Cse, e: Expr): (Cse, Expr, seq<Stmt>) {
    if !Common(counts, e) then (c, e, [])
    else if Key(e) in c.available then (c, Var(c.available[Key(e)]), [])
    else if !c.metrics then (Reserve(c, Key(e)), e, [])
    else
      var temp := TempName(c.next);
      (Reserve(c, Key(e)), Var(temp), [Assign([temp], [e])])
  }

  function RewriteExprs(counts: Counts, c: Cse, es: seq<Expr>): (r: (Cse, seq<Expr>, seq<Stmt>))
    ensures |r.1| == |es|
    decreases |es|
  {
    if es == [] then (c, [], [])
    else
      var n := |es| - 1;
      var (c1, es1, inserted) := RewriteExprs(counts, c, es[..n]);
      var (c2, e, more) := RewriteExpr(counts, c1, es[n]);
      (c2, es1 + [e], inserted + more)
  }

  function RewriteStmt(counts: Counts, c: Cse, s: Stmt): (Cse, seq<Stmt>) {
    match s
    case Assign(targets, values) =>
      var (c1, values1, inserted) := RewriteExprs(counts, c, values);
      (c1, inserted + [Assign(targets, values1)])
    case Call(routine, args) =>
      var (c1, args1, inserted) := RewriteExprs(counts, c, args);
      (c1, inserted + [Call(routine, args1)])
    case Other(_, _) => (c, [s])
  }

  function RewriteAll(counts: Counts, c: Cse, ss: seq<Stmt>): seq<Stmt>
    decreases |ss|
  {
    if ss == [] then []
    else
      var (c1, part) := RewriteStmt(counts, c, ss[0]);
      part + RewriteAll(counts, c1, ss[1..])
  }

  function Start(metrics: bool): Cse {
    Cse(map[], 0, metrics)
  }

  function Optimize(ss: seq<Stmt>, metrics: bool): seq<Stmt> {
    RewriteAll(CountAll(map[], ss), Start(metrics), ss)
  }

  // ----- where it is sound -----

  function Vars(e: Expr): set<string> {
    match e
    case Var(x) => {x}
    case Bin(_, l, r) => Vars(l) + Vars(r)
    case _ => {}
  }

  function Writes(w: World, s: Stmt): set<string> {
    match s
    case Assign(targets, _) => set x | x in targets
    case Call(routine, _) => w.callWrites(routine)
    case Other(id, _) => w.otherWrites(id)
  }

  /** For every available key, the expression whose value its temporary was given. */
  type Held = map<string, Expr>

  function Hold(counts: Counts, held: Held, e: Expr): Held {
    if Common(counts, e) && Key(e) !in held then held[Key(e) := e] else held
  }

  function HoldAll(counts: Counts, held: Held, es: seq<Expr>): Held
    decreases |es|
  {
    if es == [] then held else Hold(counts, HoldAll(counts, held, es[..|es| - 1]), es[|es| - 1])
  }

  /** The keys whose temporaries a write makes worthless; nothing in the pass takes notice of them. */
  function Stale(held: Held, stale: set<string>, written: set<string>): set<string> {
    stale + set key | key in held && Vars(held[key]) * written != {}
  }

  /** No key is used again after a variable of its expression has been written. */
  predicate UsesFresh(counts: Counts, held: Held, stale: set<string>, es: seq<Expr>) {
    forall i :: 0 <= i < |es| && Common(counts, es[i]) && Key(es[i]) in held ==> Key(es[i]) !in stale
  }

  function Rewritable(s: Stmt): seq<Expr> {
    if s.Other? then [] else Exprs(s)
  }

  predicate Undisturbed(w: World, counts: Counts, held: Held, stale: set<string>, ss: seq<Stmt>)
    decreases |ss|
  {
    ss == [] ||
    (var held1 := HoldAll(counts, held, Rewritable(ss[0]));
     && UsesFresh(counts, held, stale, Rewritable(ss[0]))
     && Undisturbed(w, counts, held1, Stale(held1, stale, Writes(w, ss[0])), ss[1..]))
  }

  predicate NamedAll(es: seq<Expr>) {
    forall i :: 0 <= i < |es| ==> Named(es[i]) && forall x :: x in Vars(es[i]) ==> !IsTemp(x)
  }

  /** Program variables are identifiers, and none of them looks like a temporary. */
  predicate Ordinary(s: Stmt) {
    NamedAll(Exprs(s)) && (s.Assign? ==> forall x :: x in s.targets ==> !IsTemp(x))
  }

  // ----- the proof -----

  /** The rewritten program has come as far as the original one, with the same program variables. */
  ghost predicate InStep(w: World, c: Cse, held: Held, stale: set<string>, st: State, run: State) {
    && c.metrics && View(st) == View(run) && c.available.Keys == held.Keys && stale <= held.Keys
    && (forall key :: key in held ==> Holding(w, c, key, held[key]) && (key !in stale ==> Get(run, c.available[key]) == Eval(w.machine, held[key], run)))
    && (forall key, other :: key in held && other in held && key != other ==> c.available[key] != c.available[other])
  }

  /** A key's temporary, and the expression it was made for. */
  ghost predicate Holding(w: World, c: Cse, key: string, e: Expr)
    requires key in c.available
  {
    && e.Bin? && Key(e) == key && Named(e) && (forall x :: x in Vars(e) ==> !IsTemp(x))
    && exists n: nat :: n < c.next && c.available[key] == TempName(n)
  }

  lemma ViewGet(st: State, run: State, x: string)
    requires View(st) == View(run) && !IsTemp(x)
    ensures Get(st, x) == Get(run, x)
  {
    if x in st { assert x in View(st); }
    if x in run { assert x in View(run); }
    assert x in View(st) <==> x in View(run);
    if x in st { assert View(st)[x] == View(run)[x]; }
  }

  /** Expressions over program variables do not see temporaries. */
  lemma {:induction false} SameView(m: Machine, e: Expr, st: State, run: State)
    requires View(st) == View(run) && forall x :: x in Vars(e) ==> !IsTemp(x)
    ensures Eval(m, e, st) == Eval(m, e, run)
    decreases e
  {
    hide View, IsTemp;
    match e
    case Var(x) => ViewGet(st, run, x);
    case Bin(_, l, r) =>
      SameView(m, l, st, run);
      SameView(m, r, st, run);
    case _ =>
  }

  lemma {:induction false} SameVars(m: Machine, e: Expr, st: State, run: State)
    requires forall x :: x in Vars(e) ==> Get(st, x) == Get(run, x)
    ensures Eval(m, e, st) == Eval(m, e, run)
    decreases e
  {
    if e.Bin? {
      SameVars(m, e.l, st, run);
      SameVars(m, e.r, st, run);
    }
  }

  lemma {:induction false} RunConcat(w: World, a: seq<Stmt>, b: seq<Stmt>, st: State)
    ensures
      var (st1, events) := RunAll(w, a, st);
      var (st2, more) := RunAll(w, b, st1);
      RunAll(w, a + b, st) == (st2, events + more)
    decreases |a|
  {
    hide Run;
    if a == [] {
      assert a + b == b;
      assert RunAll(w, a, st) == (st, []);
      var r := RunAll(w, b, st);
      assert [] + r.1 == r.1;
    } else {
      var (st1, first) := Run(w, a[0], st);
      RunConcat(w, a[1..], b, st1);
      assert (a + b)[0] == a[0] && (a + b)[1..] == a[1..] + b;
      var (st2, events) := RunAll(w, a[1..], st1);
      var (st3, more) := RunAll(w, b, st2);
      assert first + (events + more) == first + events + more;
    }
  }

  /** Each rewritten expression is the original one or one of the temporaries known by then. */
  ghost predicate Rewritten(c: Cse, held: Held, e: Expr, r: Expr) {
    r == e || (Key(e) in held && Key(e) in c.available && r == Var(c.available[Key(e)]))
  }

  /** Rewriting the expressions of one statement, and running what is inserted before it. */
  lemma {:induction false} ExprsInStep(w: World, counts: Counts, c: Cse, held: Held, stale: set<string>, es: seq<Expr>, st: State, run: State)
    requires Honest(w) && InStep(w, c, held, stale, st, run) && NamedAll(es) && UsesFresh(counts, held, stale, es)
    ensures
      var (c1, es1, inserted) := RewriteExprs(counts, c, es);
      var (run1, events) := RunAll(w, inserted, run);
      var held1 := HoldAll(counts, held, es);
      && InStep(w, c1, held1, stale, st, run1) && events == [] && |es1| == |es|
      && (forall key :: key in held1 && key !in held ==> key !in stale)
      && (forall key :: key in held ==> key in held1 && held1[key] == held[key])
      && (forall i :: 0 <= i < |es| ==> Rewritten(c1, held1, es[i], es1[i]) && Eval(w.machine, es1[i], run1) == Eval(w.machine, es[i], st))
    decreases |es|
  {
    hide InStep, RewriteExpr, Hold, Rewritten, Honest, Eval, Named, Common, Key, RunAll;
    RunOne(w, Other(0, []), run);
    if es != [] {
      var n := |es| - 1;
      ExprsInStep(w, counts, c, held, stale, es[..n], st, run);
      var (c1, es1, inserted) := RewriteExprs(counts, c, es[..n]);
      var run1 := RunAll(w, inserted, run).0;
      var held1 := HoldAll(counts, held, es[..n]);
      StaleKnown(w, c, held, stale, st, run);
      ExprInStep(w, counts, c1, held1, stale, es[n], st, run1);
      var (c2, e, more) := RewriteExpr(counts, c1, es[n]);
      RunConcat(w, inserted, more, run);
      var run2 := RunAll(w, more, run1).0;
      var held2 := Hold(counts, held1, es[n]);
      forall i | 0 <= i < n ensures Rewritten(c2, held2, es[i], es1[i]) && Eval(w.machine, es1[i], run2) == Eval(w.machine, es[i], st) {
        assert Rewritten(c1, held1, es[..n][i], es1[i]);
        EarlierKept(w, counts, c1, held1, stale, es[n], es[i], es1[i], st, run1);
      }
    }
  }

  lemma StaleKnown(w: World, c: Cse, held: Held, stale: set<string>, st: State, run: State)
    requires InStep(w, c, held, stale, st, run)
    ensures stale <= held.Keys
  {
  }

  lemma RunOne(w: World, s: Stmt, st: State)
    ensures RunAll(w, [s], st) == Run(w, s, st)
    ensures RunAll(w, [], st) == (st, [])
  {
    var (st1, events) := Run(w, s, st);
    assert [s][1..] == [] && events + [] == events;
    assert RunAll(w, [], st1) == (st1, []);
  }

  lemma RunTemp(w: World, temp: string, e: Expr, st: State)
    ensures RunAll(w, [Assign([temp], [e])], st) == (st[temp := Eval(w.machine, e, st)], [])
  {
    RunOne(w, Assign([temp], [e]), st);
    var v := Eval(w.machine, e, st);
    assert EvalAll(w, [e], st) == [v];
    assert [temp][1..] == [] && Update(st[temp := v], [], [v][1..]) == st[temp := v];
  }

  lemma TempView(st: State, temp: string, v: int)
    requires IsTemp(temp)
    ensures View(st[temp := v]) == View(st)
  {
  }

  /** Rewriting one expression. */
  lemma ExprInStep(w: World, counts: Counts, c: Cse, held: Held, stale: set<string>, e: Expr, st: State, run: State)
    requires Honest(w) && InStep(w, c, held, stale, st, run) && Named(e) && forall x :: x in Vars(e) ==> !IsTemp(x)
    requires Common(counts, e) && Key(e) in held ==> Key(e) !in stale
    ensures
      var (c1, e1, inserted) := RewriteExpr(counts, c, e);
      var (run1, events) := RunAll(w, inserted, run);
      var held1 := Hold(counts, held, e);
      && InStep(w, c1, held1, stale, st, run1) && events == []
      && Rewritten(c1, held1, e, e1) && Eval(w.machine, e1, run1) == Eval(w.machine, e, st)
      && (forall key :: key in held1 && key !in held ==> key !in stale)
      && (forall key :: key in held ==> key in held1 && held1[key] == held[key])
  {
    hide Key, IsTemp, View;
    RunOne(w, Other(0, []), run);
    SameView(w.machine, e, st, run);
    if Common(counts, e) {
      if Key(e) in c.available {
        EqualKeys(held[Key(e)], e);
        assert Eval(w.machine, held[Key(e)], run) == Eval(w.machine, e, run);
      } else {
        TempNames(c.next, c.next);
        RunTemp(w, TempName(c.next), e, run);
        HoistInStep(w, c, held, stale, e, st, run);
      }
    }
  }

  /** A new temporary disturbs nothing that was there. */
  lemma HoistInStep(w: World, c: Cse, held: Held, stale: set<string>, e: Expr, st: State, run: State)
    requires InStep(w, c, held, stale, st, run) && Named(e) && e.Bin? && (forall x :: x in Vars(e) ==> !IsTemp(x)) && Key(e) !in held
    ensures
      var temp := TempName(c.next);
      InStep(w, Reserve(c, Key(e)), held[Key(e) := e], stale, st, run[temp := Eval(w.machine, e, run)])
  {
    hide Key, View, IsTemp, TempName, Named, Holding, Vars, Eval;
    var temp := TempName(c.next);
    TempNames(c.next, c.next);
    var v := Eval(w.machine, e, run);
    var run1 := run[temp := v];
    TempView(run, temp, v);
    var c1 := Reserve(c, Key(e));
    forall key | key in held
      ensures c.available[key] != temp && Holding(w, c1, key, held[key])
      ensures key !in stale ==> Get(run1, c1.available[key]) == Eval(w.machine, held[key], run1)
    {
      HeldLater(w, c, c1, held, stale, st, run, v, key);
    }
    SameView(w.machine, e, run, run1);
    NewHolding(w, c, c1, e);
  }

  lemma NewHolding(w: World, c: Cse, c1: Cse, e: Expr)
    requires c1 == Reserve(c, Key(e))
    requires Named(e) && e.Bin? && forall x :: x in Vars(e) ==> !IsTemp(x)
    ensures Holding(w, c1, Key(e), e)
  {
    hide Key, Named, Vars, IsTemp, TempName;
  }

  lemma HeldLater(w: World, c: Cse, c1: Cse, held: Held, stale: set<string>, st: State, run: State, v: int, key: string)
    requires InStep(w, c, held, stale, st, run) && key in held && c1.next == c.next + 1
    requires key in c1.available && c1.available[key] == c.available[key]
    ensures c.available[key] != TempName(c.next) && Holding(w, c1, key, held[key])
    ensures key !in stale ==> var run1 := run[TempName(c.next) := v]; Get(run1, c.available[key]) == Eval(w.machine, held[key], run1)
  {
    hide Key, View, IsTemp, TempName, Named;
    HoldingLater(w, c, c1, key, held[key]);
    TempNames(c.next, c.next);
    TempView(run, TempName(c.next), v);
    SameView(w.machine, held[key], run, run[TempName(c.next) := v]);
  }

  lemma HoldingLater(w: World, c: Cse, c1: Cse, key: string, e: Expr)
    requires key in c.available && Holding(w, c, key, e) && c1.next == c.next + 1 && key in c1.available && c1.available[key] == c.available[key]
    ensures Holding(w, c1, key, e) && c.available[key] != TempName(c.next)
  {
    hide TempName, Key, Named, Vars;
    var n: nat :| n < c.next && c.available[key] == TempName(n);
    TempNames(n, c.next);
  }

  /** What was rewritten earlier in the statement keeps its value while more is hoisted. */
  lemma EarlierKept(w: World, counts: Counts, c: Cse, held: Held, stale: set<string>, e: Expr, earlier: Expr, r: Expr, st: State, run: State)
    requires InStep(w, c, held, stale, st, run) && Rewritten(c, held, earlier, r) && Named(e)
    requires (forall x :: x in Vars(earlier) ==> !IsTemp(x)) && Eval(w.machine, r, run) == Eval(w.machine, earlier, st)
    ensures
      var (c1, _, inserted) := RewriteExpr(counts, c, e);
      var run1 := RunAll(w, inserted, run).0;
      Rewritten(c1, Hold(counts, held, e), earlier, r) && Eval(w.machine, r, run1) == Eval(w.machine, earlier, st)
  {
    hide Key, IsTemp, View, Named;
    RunOne(w, Other(0, []), run);
    if Common(counts, e) && Key(e) !in c.available {
      var temp := TempName(c.next);
      RunTemp(w, temp, e, run);
      TempNames(c.next, c.next);
      TempView(run, temp, Eval(w.machine, e, run));
      if r == earlier {
        SameView(w.machine, earlier, run, run[temp := Eval(w.machine, e, run)]);
      } else {
        var c1 := Reserve(c, Key(e));
        HoldingLater(w, c, c1, Key(earlier), held[Key(earlier)]);
      }
    }
  }

  // ----- statements -----

  lemma {:induction false} UpdateView(st: State, run: State, targets: seq<string>, values: seq<int>)
    requires View(st) == View(run) && forall x :: x in targets ==> !IsTemp(x)
    ensures View(Update(st, targets, values)) == View(Update(run, targets, values))
    decreases |targets|
  {
    hide IsTemp;
    if targets != [] && values != [] {
      assert forall x :: x in targets[1..] ==> x in targets;
      SetView(st, run, targets[0], values[0]);
      UpdateView(st[targets[0] := values[0]], run[targets[0] := values[0]], targets[1..], values[1..]);
    }
  }

  lemma SetView(st: State, run: State, x: string, v: int)
    requires View(st) == View(run)
    ensures View(st[x := v]) == View(run[x := v])
  {
    var a, b := View(st[x := v]), View(run[x := v]);
    forall y ensures y in a <==> y in b {
      assert y in View(st) <==> y in View(run);
    }
    forall y | y in a ensures a[y] == b[y] {
      if y != x { assert y in View(st) && View(st)[y] == View(run)[y]; }
    }
  }

  lemma {:induction false} UpdateFrame(st: State, targets: seq<string>, values: seq<int>, x: string)
    requires x !in targets
    ensures Get(Update(st, targets, values), x) == Get(st, x)
    decreases |targets|
  {
    if targets != [] && values != [] {
      assert x != targets[0] && x !in targets[1..];
      UpdateFrame(st[targets[0] := values[0]], targets[1..], values[1..], x);
    }
  }

  lemma MergeView(st: State, run: State, update: State)
    requires View(st) == View(run)
    ensures View(st + update) == View(run + update)
  {
    var a, b := View(st + update), View(run + update);
    forall y ensures y in a <==> y in b {
      assert y in View(st) <==> y in View(run);
    }
    forall y | y in a ensures a[y] == b[y] {
      if y !in update { assert y in View(st) && View(st)[y] == View(run)[y]; }
    }
  }

  /** After program variables have been written, the temporaries of untouched expressions are still good. */
  lemma WrittenInStep(w: World, c: Cse, held: Held, stale: set<string>, st: State, run: State, st1: State, run1: State, written: set<string>)
    requires InStep(w, c, held, stale, st, run) && View(st1) == View(run1)
    requires (forall x :: x in written ==> !IsTemp(x)) && forall x :: x !in written ==> Get(run1, x) == Get(run, x)
    ensures InStep(w, c, held, Stale(held, stale, written), st1, run1)
  {
    hide View, IsTemp, Holding, Vars, Eval;
    var stale1 := Stale(held, stale, written);
    forall key | key in held ensures key !in stale1 ==> Get(run1, c.available[key]) == Eval(w.machine, held[key], run1) {
      if key !in stale1 {
        assert forall x :: x in Vars(held[key]) ==> x !in written by {
          forall x | x in Vars(held[key]) ensures x !in written {
            if x in written { assert x in Vars(held[key]) * written; }
          }
        }
        SameVars(w.machine, held[key], run, run1);
        HoldingTemp(w, c, key, held[key]);
      }
    }
  }

  lemma HoldingTemp(w: World, c: Cse, key: string, e: Expr)
    requires key in c.available && Holding(w, c, key, e)
    ensures IsTemp(c.available[key])
  {
    var n: nat :| n < c.next && c.available[key] == TempName(n);
    TempNames(n, n);
  }

  /** The statement itself, run on both sides once its expressions have equal values. */
  lemma SameRun(w: World, s: Stmt, s1: Stmt, st: State, run: State)
    requires Honest(w) && Ordinary(s) && View(st) == View(run)
    requires match s
      case Assign(targets, values) => s1.Assign? && s1.targets == targets && EvalAll(w, s1.values, run) == EvalAll(w, values, st)
      case Call(routine, args) => s1.Call? && s1.routine == routine && EvalAll(w, s1.args, run) == EvalAll(w, args, st)
      case Other(_, _) => s1 == s
    ensures View(Run(w, s, st).0) == View(Run(w, s1, run).0) && Run(w, s1, run).1 == Run(w, s, st).1
    ensures forall x :: x !in Writes(w, s) ==> Get(Run(w, s1, run).0, x) == Get(run, x)
    ensures forall x :: x in Writes(w, s) ==> !IsTemp(x)
  {
    hide IsTemp, View;
    match s
    case Assign(targets, values) =>
      UpdateView(st, run, targets, EvalAll(w, values, st));
      forall x | x !in Writes(w, s) ensures Get(Run(w, s1, run).0, x) == Get(run, x) {
        UpdateFrame(run, targets, EvalAll(w, values, st), x);
      }
    case Call(routine, args) =>
      var update := w.call(routine, EvalAll(w, args, st), View(st));
      MergeView(st, run, update);
      assert update.Keys <= w.callWrites(routine);
    case Other(id, _) =>
      var update := w.other(id, View(st));
      MergeView(st, run, update);
      assert update.Keys <= w.otherWrites(id);
  }

  lemma StmtInStep(w: World, counts: Counts, c: Cse, held: Held, stale: set<string>, s: Stmt, st: State, run: State)
    requires Honest(w) && Ordinary(s) && InStep(w, c, held, stale, st, run) && UsesFresh(counts, held, stale, Rewritable(s))
    ensures
      var (c1, part) := RewriteStmt(counts, c, s);
      var held1 := HoldAll(counts, held, Rewritable(s));
      var (st1, events) := Run(w, s, st);
      var (run1, events1) := RunAll(w, part, run);
      InStep(w, c1, held1, Stale(held1, stale, Writes(w, s)), st1, run1) && events1 == events
  {
    hide InStep, Honest, UsesFresh, Writes, HoldAll, Stale, Run;
    InStepView(w, c, held, stale, st, run);
    if s.Other? {
      HoldNone(counts, held);
      RunOne(w, s, run);
      SameRun(w, s, s, st, run);
      WrittenInStep(w, c, held, stale, st, run, Run(w, s, st).0, Run(w, s, run).0, Writes(w, s));
    } else {
      var es := Exprs(s);
      ExprsInStep(w, counts, c, held, stale, es, st, run);
      var (c1, es1, inserted) := RewriteExprs(counts, c, es);
      var run1 := RunAll(w, inserted, run).0;
      var held1 := HoldAll(counts, held, es);
      var s1 := if s.Assign? then Assign(s.targets, es1) else Call(s.routine, es1);
      assert EvalAll(w, es1, run1) == EvalAll(w, es, st);
      InStepView(w, c1, held1, stale, st, run1);
      SameRun(w, s, s1, st, run1);
      RunConcat(w, inserted, [s1], run);
      RunOne(w, s1, run1);
      assert [] + Run(w, s1, run1).1 == Run(w, s1, run1).1;
      WrittenInStep(w, c1, held1, stale, st, run1, Run(w, s, st).0, Run(w, s1, run1).0, Writes(w, s));
    }
  }

  lemma InStepView(w: World, c: Cse, held: Held, stale: set<string>, st: State, run: State)
    requires InStep(w, c, held, stale, st, run)
    ensures View(st) == View(run)
  {
  }

  lemma HoldNone(counts: Counts, held: Held)
    ensures HoldAll(counts, held, []) == held
  {
  }

  lemma {:induction false} ListInStep(w: World, counts: Counts, c: Cse, held: Held, stale: set<string>, ss: seq<Stmt>, st: State, run: State)
    requires Honest(w) && (forall i :: 0 <= i < |ss| ==> Ordinary(ss[i])) && InStep(w, c, held, stale, st, run)
    requires Undisturbed(w, counts, held, stale, ss)
    ensures
      var (st1, events) := RunAll(w, ss, st);
      var (run1, events1) := RunAll(w, RewriteAll(counts, c, ss), run);
      View(run1) == View(st1) && events1 == events
    decreases |ss|
  {
    hide InStep, Honest, UsesFresh, Writes, HoldAll, Stale, Ordinary, Run, RewriteStmt;
    if ss == [] {
      InStepView(w, c, held, stale, st, run);
    } else {
      StmtInStep(w, counts, c, held, stale, ss[0], st, run);
      var (c1, part) := RewriteStmt(counts, c, ss[0]);
      var held1 := HoldAll(counts, held, Rewritable(ss[0]));
      var stale1 := Stale(held1, stale, Writes(w, ss[0]));
      var st1 := Run(w, ss[0], st).0;
      var run1 := RunAll(w, part, run).0;
      ListInStep(w, counts, c1, held1, stale1, ss[1..], st1, run1);
      RunConcat(w, part, RewriteAll(counts, c1, ss[1..]), run);
    }
  }

  /**
    Sharing common subexpressions keeps every program variable and everything every call is given, as long as
    no shared expression is used again after one of its variables has been written.
   */
  lemma OptimizePreserves(w: World, ss: seq<Stmt>, st: State)
    requires Honest(w) && forall i :: 0 <= i < |ss| ==> Ordinary(ss[i])
    requires Undisturbed(w, CountAll(map[], ss), map[], {}, ss)
    ensures
      var (st1, events) := RunAll(w, ss, st);
      var (run1, events1) := RunAll(w, Optimize(ss, true), st);
      View(run1) == View(st1) && events1 == events
  {
    hide Honest, Ordinary, Undisturbed, RewriteAll, RunAll, CountAll;
    ListInStep(w, CountAll(map[], ss), Start(true), map[], {}, ss, st, st);
  }

  // ----- where it is not -----

  const SUM := Bin(Add, Var("x"), Int(1))

  lemma SumCounts(ss: seq<Stmt>, targets: seq<string>, others: seq<string>)
    requires ss == [Assign(targets, [SUM]), Assign(others, [SUM])]
    ensures Common(CountAll(map[], ss), SUM)
  {
    var key := Key(SUM);
    hide Key;
    var counts: Counts := map[key := 1];
    assert CountExpr(map[], SUM) == counts;
    assert CountExprs(map[], [SUM]) == CountExprs(counts, [SUM][1..]) == counts by { assert [SUM][1..] == []; }
    var counts2: Counts := counts[key := 2];
    assert CountExpr(counts, SUM) == counts2;
    assert CountExprs(counts, [SUM]) == CountExprs(counts2, [SUM][1..]) == counts2 by { assert [SUM][1..] == []; }
    assert ss[1..] == [Assign(others, [SUM])] && ss[1..][1..] == [];
    assert CountAll(map[], ss) == CountAll(counts, ss[1..]) == CountAll(counts2, []);
  }

  lemma RewriteTwice(counts: Counts, x: string, y: string)
    requires Common(counts, SUM)
    ensures
      var first := Var(TempName(0));
      RewriteAll(counts, Start(true), [Assign([x], [SUM]), Assign([y], [SUM])])
      == [Assign([TempName(0)], [SUM]), Assign([x], [first]), Assign([y], [first])]
  {
    hide Key, TempName;
    var ss := [Assign([x], [SUM]), Assign([y], [SUM])];
    var c1 := Reserve(Start(true), Key(SUM));
    var first := Var(TempName(0));
    OneExpr(counts, Start(true), SUM);
    OneExpr(counts, c1, SUM);
    assert ss[1..] == [Assign([y], [SUM])] && ss[1..][1..] == [];
    assert RewriteAll(counts, c1, []) == [];
    assert RewriteAll(counts, c1, [Assign([y], [SUM])]) == [Assign([y], [first])];
  }

  lemma OneExpr(counts: Counts, c: Cse, e: Expr)
    ensures
      var (c1, e1, inserted) := RewriteExpr(counts, c, e);
      RewriteExprs(counts, c, [e]) == (c1, [e1], inserted)
  {
    hide RewriteExpr;
    assert [e][..0] == [];
    assert RewriteExprs(counts, c, []) == (c, [], []);
    var (c1, e1, inserted) := RewriteExpr(counts, c, e);
    assert [] + inserted == inserted && [] + [e1] == [e1] && [e][0] == e;
  }

  lemma RunSets(w: World, x: string, e: Expr, rest: seq<Stmt>, st: State)
    ensures RunAll(w, [Assign([x], [e])] + rest, st) == RunAll(w, rest, st[x := Eval(w.machine, e, st)])
  {
    RunConcat(w, [Assign([x], [e])], rest, st);
    RunTemp(w, x, e, st);
    var r := RunAll(w, rest, st[x := Eval(w.machine, e, st)]);
    assert [] + r.1 == r.1;
  }

  /** x := x + 1; y := x + 1: both are given the first sum, since the write of x makes nobody forget it. */
  lemma ReusedAfterWrite(w: World, st: State)
    requires w.machine.bin(Add, 0, 1) == 1 && w.machine.bin(Add, 1, 1) == 2 && Get(st, "x") == 0
    ensures
      var ss := [Assign(["x"], [SUM]), Assign(["y"], [SUM])];
      Get(RunAll(w, ss, st).0, "y") == 2 && Get(RunAll(w, Optimize(ss, true), st).0, "y") == 1
  {
    var ss := [Assign(["x"], [SUM]), Assign(["y"], [SUM])];
    SumCounts(ss, ["x"], ["y"]);
    RewriteTwice(CountAll(map[], ss), "x", "y");
    var t := TempName(0);
    hide TempName, CountAll, RewriteAll, Key;
    var first := Var(t);
    TempNames(0, 0);
    NotTemp();
    var st1 := st["x" := 1];
    RunSets(w, "x", SUM, [Assign(["y"], [SUM])], st);
    RunSets(w, "y", SUM, [], st1);
    assert Eval(w.machine, SUM, st) == 1 && Eval(w.machine, SUM, st1) == 2;
    assert ss == [Assign(["x"], [SUM])] + [Assign(["y"], [SUM])] && [Assign(["y"], [SUM])] + [] == [Assign(["y"], [SUM])];
    ThreeSets(w, t, "x", "y", st, 1);
  }

  /** t := x + 1; x := t; y := t leaves y with the first sum. */
  lemma ThreeSets(w: World, t: string, x: string, y: string, st: State, v: int)
    requires t != x && t != y && Eval(w.machine, SUM, st) == v
    ensures Get(RunAll(w, [Assign([t], [SUM]), Assign([x], [Var(t)]), Assign([y], [Var(t)])], st).0, y) == v
  {
    hide Key;
    var a, b, c := Assign([t], [SUM]), Assign([x], [Var(t)]), Assign([y], [Var(t)]);
    assert [a, b, c] == [a] + ([b] + ([c] + []));
    RunSets(w, t, SUM, [b] + ([c] + []), st);
    RunSets(w, x, Var(t), [c] + [], st[t := v]);
    RunSets(w, y, Var(t), [], st[t := v][x := v]);
    RunOne(w, c, st[t := v][x := v][y := v]);
  }

  lemma NotTemp()
    ensures !IsTemp("x") && !IsTemp("y")
  {
  }
}
