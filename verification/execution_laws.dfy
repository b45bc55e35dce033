/** What loops, SWITCHONs and calls mean, said without the helpers that execution and lowering share. */
module ExecutionLaws {
  import opened Wrappers
  import opened Syntax
  import opened Graph
  import opened Lowering

  /** The next value of a FOR's variable: one more, or as much more as the BY expression says. */
  function Next(env: Env, v: string, step: Option<Expr>, st: Store): int {
    var x := if v in st then st[v] else 0;
    match step
    case None => x + 1
    case Some(e) => x + Eval(env, e, st)
  }

  lemma StepIsNext(env: Env, v: string, step: Option<Expr>, st: Store)
    ensures Eval(env, StepExpr(v, step), st) == Next(env, v, step, st)
  {
    var more := if step.Some? then step.value else Num(1);
    assert Eval(env, Plus(Var(v), more), st) == Eval(env, Var(v), st) + Eval(env, more, st);
  }

  /**
    A FOR is its first round and then the same FOR from the next value on, with one round less to go; it is over
    when the value has passed the limit, and at a BREAK, and at a jump that leads out of it.
   */
  lemma ForUnrolled(env: Env, v: string, start: Expr, limit: Expr, step: Option<Expr>, body: Stmt, st: Store, fuel: nat)
    requires fuel > 0
    ensures
      var s := For(v, start, limit, step, body);
      var st0 := st[v := Eval(env, start, st)];
      if st0[v] > Eval(env, limit, st0) then Exec(env, s, st, fuel) == Some((Normal, st0))
      else
        match Exec(env, body, st0, fuel)
        case None => Exec(env, s, st, fuel) == None
        case Some((Broke, st1)) => Exec(env, s, st, fuel) == Some((Normal, st1))
        case Some((o, st1)) =>
          if o == Normal || o == Looped then
            Exec(env, s, st, fuel) == Exec(env, For(v, Num(Next(env, v, step, st1)), limit, step, body), st1, fuel - 1)
          else Exec(env, s, st, fuel) == Some((o, st1))
  {
    var s := For(v, start, limit, step, body);
    var st0 := st[v := Eval(env, start, st)];
    if st0[v] <= Eval(env, limit, st0) && Exec(env, body, st0, fuel).Some? {
      StepIsNext(env, v, step, Exec(env, body, st0, fuel).value.1);
    }
  }

  /** WHILE c DO body is IF c, the body, and the WHILE again. */
  lemma WhileUnrolled(env: Env, c: Expr, body: Stmt, st: Store, fuel: nat)
    requires fuel > 0
    ensures
      var s := While(c, body);
      if Eval(env, c, st) == 0 then Exec(env, s, st, fuel) == Some((Normal, st))
      else
        match Exec(env, body, st, fuel)
        case None => Exec(env, s, st, fuel) == None
        case Some((Broke, st1)) => Exec(env, s, st, fuel) == Some((Normal, st1))
        case Some((o, st1)) => Exec(env, s, st, fuel) == if o == Normal || o == Looped then Exec(env, s, st1, fuel - 1) else Some((o, st1))
  {
  }

  /** Of the cases of a SWITCHON the first is run whose constant is the value; ENDCASE ends it. */
  lemma SwitchRuns(env: Env, e: Expr, cases: seq<Case>, dflt: Option<Stmt>, st: Store, fuel: nat, i: nat)
    requires i <= |cases| && (i < |cases| ==> cases[i].value == Eval(env, e, st))
    requires forall j :: 0 <= j < i ==> cases[j].value != Eval(env, e, st)
    ensures
      var r :=
        if i < |cases| then Exec(env, cases[i].command, st, fuel)
        else match dflt case Some(s) => Exec(env, s, st, fuel) case None => Some((Normal, st));
      Exec(env, Switchon(e, cases, dflt), st, fuel) ==
        if r.Some? && r.value.0 == Endcased then Some((Normal, r.value.1)) else r
  {
  }

  /** The increment block of a lowered FOR holds one statement, which steps the variable. */
  lemma IncrementSteps(env: Env, b: Builder, n: nat, v: string, step: Option<Expr>, st: Store)
    requires Sound(b) && Pending(b, n + 2) && Pending(b, n + 3) && n < |b.blocks| && b.breaks != [] && b.loops != []
    ensures
      var stmts := CloseFor(b, n, v, step).blocks[n + 2].stmts;
      |stmts| == 1 && Effect(env, stmts[0], st) == st[v := Next(env, v, step, st)]
  {
    hide CloseFor;
    StepIsNext(env, v, step, st);
  }

  /** The header of a lowered SWITCHON tests the constants of the cases, in order, and leads to them, the default, if any, and the join. */
  lemma HeaderTests(b: Builder, e: Expr, cases: seq<Case>, dflt: Option<Stmt>)
    requires Sound(b)
    ensures
      var header := OpenSwitch(b, e, cases, dflt).blocks[|b.blocks|];
      var (stmts, succs) := (header.stmts, header.succs);
      && |stmts| == 1 && stmts[0].ISwitch? && stmts[0].e == e && stmts[0].hasDefault == dflt.Some?
      && |stmts[0].values| == |cases| && (forall i :: 0 <= i < |cases| ==> stmts[0].values[i] == cases[i].value)
      && |succs| == |cases| + if dflt.Some? then 2 else 1
  {
    hide OpenSwitch;
  }
}
