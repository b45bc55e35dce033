/** Lowering preserves meaning, from structured execution to the graph. */
module Forward {
  import opened Wrappers
  import opened Syntax
  import opened Graph
  import opened Lowering
  import opened Simulation

  /** As Sealed, where the block still current at b has been closed with an edge to `target`. */
  ghost predicate Closed(a: Builder, b: Builder, g: Blocks, target: nat) {
    |b.blocks| <= |g| &&
    forall i :: 0 <= i < |b.blocks| && (i >= |a.blocks| || a.cur == Some(i)) ==> ClosedAt(b, g, target, i)
  }

  ghost predicate ClosedAt(b: Builder, g: Blocks, target: nat, i: nat)
    requires i < |b.blocks| <= |g|
  {
    SameFlow(g[i], if b.cur == Some(i) then b.blocks[i].(succs := [target]) else b.blocks[i])
  }

  lemma ClosedSealed(a: Builder, b: Builder, g: Blocks, target: nat)
    requires Closed(a, b, g, target)
    ensures Sealed(a, b, g)
  {
    forall i | 0 <= i < |b.blocks| && (i >= |a.blocks| || a.cur == Some(i)) ensures SealedAt(b, g, i) {
      assert ClosedAt(b, g, target, i);
    }
  }

  /** Having arrived at the end of a closed region, the run falls through to the target. */
  lemma FallThrough(env: Env, a: Builder, b: Builder, g: Blocks, target: nat, o: Outcome, st: Store, c: Config, n: nat, d: Config)
    returns (n': nat, d': Config)
    requires Closed(a, b, g, target) && (b.cur.Some? ==> Open(b) && (b.cur == a.cur || b.cur.value >= |a.blocks|))
    requires Run(env, g, n, c) == Some(d) && Arrives(g, b, o, st, d)
    ensures Run(env, g, n', c) == Some(d')
    ensures if o == Normal then d' == At(target, 0, st) else d' == d
  {
    if o == Normal {
      assert ClosedAt(b, g, target, b.cur.value);
      Follow(env, g, b.cur.value, target, st);
      RunAdd(env, g, n, 1, c);
      n', d' := n + 1, At(target, 0, st);
    } else {
      n', d' := n, d;
    }
  }

  // ----- the parts of each construct in the finished graph -----

  lemma IfParts(p: Policy, a: Builder, s: Stmt, g: Blocks)
    requires Sound(a) && a.cur.Some? && s.If? && Sealed(a, LowerIf(p, a, s), g)
    ensures
      var n := |a.blocks|;
      var b1 := OpenIf(a, s.c);
      && Closed(b1, Lower(p, b1, s.thn), g, n + 1)
      && a.cur.value < |g|
      && SameFlow(g[a.cur.value], ToEither(a.blocks[a.cur.value].stmts + [IIf(s.c)], n, n + 1))
  {
    hide OpenIf, Lower;
    var n := |a.blocks|;
    var b1 := OpenIf(a, s.c);
    var b2 := Lower(p, b1, s.thn);
    PendingGrows(b1, b2, n + 1);
    var r := LowerIf(p, a, s);
    assert SealedAt(r, g, a.cur.value);
    forall i | 0 <= i < |b2.blocks| && (i >= |b1.blocks| || b1.cur == Some(i)) ensures ClosedAt(b2, g, n + 1, i) {
      assert SealedAt(r, g, i);
    }
  }

  lemma TestParts(p: Policy, a: Builder, s: Stmt, g: Blocks)
    requires Sound(a) && a.cur.Some? && s.Test? && Sealed(a, LowerTest(p, a, s), g)
    ensures
      var n := |a.blocks|;
      var b1 := OpenTest(a, s.c);
      var b2 := Lower(p, b1, s.thn);
      && Pending(b2, n + 1)
      && var b3 := Close(b2, n + 2, Some(n + 1));
      && Closed(b1, b2, g, n + 2) && Closed(b3, Lower(p, b3, s.els), g, n + 2)
      && a.cur.value < |g|
      && SameFlow(g[a.cur.value], ToEither(a.blocks[a.cur.value].stmts + [ITest(s.c)], n, n + 1))
  {
    hide OpenTest, Lower, Close, InBounds, EndsWithControlFlow;
    var n := |a.blocks|;
    var b1 := OpenTest(a, s.c);
    var b2 := Lower(p, b1, s.thn);
    PendingGrows(b1, b2, n + 1);
    PendingGrows(b1, b2, n + 2);
    var b3 := Close(b2, n + 2, Some(n + 1));
    PendingClose(b2, n + 2, Some(n + 1), n + 2);
    var b4 := Lower(p, b3, s.els);
    PendingGrows(b3, b4, n + 2);
    var r := LowerTest(p, a, s);
    assert SealedAt(r, g, a.cur.value);
    forall i | 0 <= i < |b2.blocks| && (i >= |b1.blocks| || b1.cur == Some(i)) ensures ClosedAt(b2, g, n + 2, i) {
      assert SealedAt(r, g, i);
      assert SameFlow(b3.blocks[i], b4.blocks[i]);
    }
    forall i | 0 <= i < |b4.blocks| && (i >= |b3.blocks| || b3.cur == Some(i)) ensures ClosedAt(b4, g, n + 2, i) {
      assert SealedAt(r, g, i);
    }
  }

  function TestItem(t: LoopTest): Item {
    match t
    case WhileTest(c) => IWhile(c)
    case ForTest(v, limit) => IFor(v, limit)
  }

  /**
    A loop in the finished graph: header h, body from h + 1 on, exit x, and the block w that ends a round,
    which is the header itself unless there is a step to make.
   */
  ghost predicate LoopShape(p: Policy, g: Blocks, t: LoopTest, step: Option<Stmt>, body: Stmt, b: Builder, h: nat, w: nat, x: nat) {
    && Sound(b) && b.cur == Some(h + 1) && SameFlow(b.blocks[h + 1], EMPTY_BLOCK)
    && Closed(b, Lower(p, b, body), g, w)
    && h < |g| && SameFlow(g[h], ToEither([TestItem(t)], h + 1, x))
    && b.breaks != [] && Last(b.breaks) == x && b.loops != [] && Last(b.loops) == w
    && (step.None? ==> w == h)
    && (step.Some? ==> step.value.Assign? && w < |g| && SameFlow(g[w], To([IAssign(step.value.x, step.value.e)], h)))
  }

  lemma WhileParts(p: Policy, a: Builder, s: Stmt, g: Blocks)
    requires Sound(a) && a.cur.Some? && s.While? && Sealed(a, LowerWhile(p, a, s), g)
    ensures
      var n := |a.blocks|;
      && LoopShape(p, g, WhileTest(s.c), None, s.body, OpenWhile(a, s.c), n, n, n + 2)
      && a.cur.value < |g| && SameFlow(g[a.cur.value], To(a.blocks[a.cur.value].stmts, n))
  {
    hide OpenWhile, Lower;
    var n := |a.blocks|;
    var b1 := OpenWhile(a, s.c);
    var b2 := Lower(p, b1, s.body);
    PendingGrows(b1, b2, n + 2);
    var r := LowerWhile(p, a, s);
    assert SealedAt(r, g, a.cur.value) && SealedAt(r, g, n);
    forall i | 0 <= i < |b2.blocks| && (i >= |b1.blocks| || b1.cur == Some(i)) ensures ClosedAt(b2, g, n, i) {
      assert SealedAt(r, g, i);
    }
  }

  lemma ForParts(p: Policy, a: Builder, s: Stmt, g: Blocks)
    requires Sound(a) && a.cur.Some? && s.For? && Sealed(a, LowerFor(p, a, s), g)
    ensures
      var n := |a.blocks|;
      && LoopShape(p, g, ForTest(s.v, s.limit), Some(Assign(s.v, StepExpr(s.v, s.step))), s.body, OpenFor(a, s.v, s.limit), n, n + 2, n + 3)
      && a.cur.value < |g| && SameFlow(g[a.cur.value], To(a.blocks[a.cur.value].stmts, n))
  {
    hide OpenFor, Lower, CloseFor;
    var n := |a.blocks|;
    var b1 := OpenFor(a, s.v, s.limit);
    var b2 := Lower(p, b1, s.body);
    PendingGrows(b1, b2, n + 2);
    PendingGrows(b1, b2, n + 3);
    var r := LowerFor(p, a, s);
    assert SealedAt(r, g, a.cur.value) && SealedAt(r, g, n) && SealedAt(r, g, n + 2);
    forall i | 0 <= i < |b2.blocks| && (i >= |b1.blocks| || b1.cur == Some(i)) ensures ClosedAt(b2, g, n + 2, i) {
      assert SealedAt(r, g, i);
    }
  }

  /** In the finished graph, the blocks that lowering the cases from b to r filled or created. */
  ghost predicate CasesDone(b: Builder, r: Builder, g: Blocks, first: nat, after: nat) {
    |r.blocks| <= |g| &&
    forall i :: 0 <= i < |r.blocks| && (first <= i < after || i >= |b.blocks|) ==> SameFlow(r.blocks[i], g[i])
  }

  lemma CaseParts(p: Policy, b: Builder, s: Stmt, at: nat, join: nat, g: Blocks)
    requires Sound(b) && b.cur.None? && join < |b.blocks| && Pending(b, at) && join != at
    requires CasesDone(b, LowerCase(p, b, s, at, join), g, at, at + 1)
    ensures var b1 := b.(cur := Some(at)); Sound(b1) && Closed(b1, Lower(p, b1, s), g, join)
  {
    hide Lower;
    var b1 := b.(cur := Some(at));
    var b2 := Lower(p, b1, s);
    var r := LowerCase(p, b, s, at, join);
    forall i | 0 <= i < |b2.blocks| && (i >= |b1.blocks| || b1.cur == Some(i)) ensures ClosedAt(b2, g, join, i) {
      assert SameFlow(r.blocks[i], g[i]);
    }
  }

  lemma CasesParts(p: Policy, b: Builder, cases: seq<Case>, first: nat, join: nat, g: Blocks)
    requires Sound(b) && b.cur.None? && join < first && first + |cases| <= |b.blocks| && cases != []
    requires forall i :: first <= i < first + |cases| ==> Pending(b, i)
    requires CasesDone(b, LowerCases(p, b, cases, first, join), g, first, first + |cases|)
    ensures Pending(b, first)
    ensures var b1 := LowerCase(p, b, cases[0].command, first, join);
      && CasesDone(b, b1, g, first, first + 1)
      && (forall i :: first + 1 <= i < first + |cases| ==> Pending(b1, i))
      && CasesDone(b1, LowerCases(p, b1, cases[1..], first + 1, join), g, first + 1, first + |cases|)
  {
    hide LowerCase;
    assert Pending(b, first);
    var b1 := LowerCase(p, b, cases[0].command, first, join);
    PendingCases(b, b1, first, first + |cases|);
    var r := LowerCases(p, b, cases, first, join);
    assert r == LowerCases(p, b1, cases[1..], first + 1, join);
    forall i | 0 <= i < |b1.blocks| && (first <= i < first + 1 || i >= |b.blocks|) ensures SameFlow(b1.blocks[i], g[i]) {
      assert SameFlow(b1.blocks[i], r.blocks[i]) && SameFlow(r.blocks[i], g[i]);
    }
  }

  /** What lowering of a SWITCHON leaves in the finished graph. */
  ghost predicate SwitchShape(p: Policy, a: Builder, s: Stmt, g: Blocks)
    requires Sound(a) && s.Switchon?
  {
    var n := |a.blocks|;
    var at := n + 2 + |s.cases|;
    var b := SwitchCased(p, a, s);
    && CasesDone(OpenSwitch(a, s.e, s.cases, s.dflt), b, g, n + 2, at)
    && (s.dflt.Some? ==> CasesDone(b, LowerCase(p, b, s.dflt.value, at, n + 1), g, at, at + 1))
    && n < |g| && SameFlow(g[n], OpenSwitch(a, s.e, s.cases, s.dflt).blocks[n])
    && (a.cur.Some? ==> SameFlow(g[a.cur.value], OpenSwitch(a, s.e, s.cases, s.dflt).blocks[a.cur.value]))
  }

  lemma SwitchParts(p: Policy, a: Builder, s: Stmt, g: Blocks)
    requires Sound(a) && s.Switchon? && Sealed(a, LowerSwitch(p, a, s), g)
    ensures SwitchShape(p, a, s, g)
  {
    hide OpenSwitch, LowerCase, SwitchCased, CloseSwitch;
    var n := |a.blocks|;
    var at := n + 2 + |s.cases|;
    var b1 := OpenSwitch(a, s.e, s.cases, s.dflt);
    var b2 := SwitchCased(p, a, s);
    var b3 := LowerDefault(p, b2, s.dflt, at, n + 1);
    KeepsCases(a, b2, b3, n, at, if s.dflt.Some? then at + 1 else at);
    var r := LowerSwitch(p, a, s);
    assert r.blocks == b3.blocks && r.cur == Some(n + 1);
    forall i | 0 <= i < |b3.blocks| && (i >= n || Some(i) == a.cur) && i != n + 1 ensures SameFlow(b3.blocks[i], g[i]) {
      assert SealedAt(r, g, i);
    }
  }

  // ----- declarations -----

  function LetItems(lets: seq<Let>): (items: seq<Item>)
    ensures forall i :: 0 <= i < |items| ==> items[i].IAssign?
  {
    if lets == [] then []
    else (if lets[0].init.Some? then [IAssign(lets[0].name, lets[0].init.value)] else []) + LetItems(lets[1..])
  }

  /** With a current block at hand, the LETs only append their assignments to it. */
  lemma {:induction false} LetsAppend(b: Builder, lets: seq<Let>)
    requires Sound(b) && b.cur.Some?
    ensures
      var r := LowerLets(b, lets);
      && r.cur == b.cur && |r.blocks| == |b.blocks|
      && r.blocks[r.cur.value].stmts == b.blocks[b.cur.value].stmts + LetItems(lets)
    decreases |lets|
  {
    hide LowerLet, InBounds, Keeps;
    if lets != [] {
      LetAppends(b, lets[0]);
      LetsAppend(LowerLet(b, lets[0]), lets[1..]);
    }
  }

  lemma LetAppends(b: Builder, l: Let)
    requires Sound(b) && b.cur.Some?
    ensures
      var r := LowerLet(b, l);
      && r.cur == b.cur && |r.blocks| == |b.blocks|
      && r.blocks[r.cur.value].stmts == b.blocks[b.cur.value].stmts + LetItems([l])
  {
  }

  lemma {:induction false} LetsEffects(env: Env, lets: seq<Let>, st: Store)
    ensures Effects(env, LetItems(lets), st) == ExecLets(env, lets, st)
    decreases |lets|
  {
    if lets != [] {
      if lets[0].init.Some? {
        var item := IAssign(lets[0].name, lets[0].init.value);
        assert LetItems(lets) == [item] + LetItems(lets[1..]);
        assert LetItems(lets)[1..] == LetItems(lets[1..]);
        LetsEffects(env, lets[1..], Effect(env, item, st));
      } else {
        assert LetItems(lets) == LetItems(lets[1..]);
        LetsEffects(env, lets[1..], st);
      }
    }
  }

  lemma {:induction false} EffectsConcat(env: Env, xs: seq<Item>, ys: seq<Item>, st: Store)
    ensures Effects(env, xs + ys, st) == Effects(env, ys, Effects(env, xs, st))
    decreases |xs|
  {
    if xs == [] {
      assert xs + ys == ys;
    } else {
      assert (xs + ys)[1..] == xs[1..] + ys;
      EffectsConcat(env, xs[1..], ys, Effect(env, xs[0], st));
    }
  }

  function EnterItems(p: Policy, lets: seq<Let>): seq<Item> {
    (if p.scopeCalls then [IEnterScope] else []) + LetItems(lets)
  }

  lemma EnterAppends(p: Policy, a: Builder, lets: seq<Let>)
    requires Sound(a) && a.cur.Some?
    ensures var b := EnterBlock(p, a, lets);
      Open(b) && b.cur == a.cur && b.blocks[b.cur.value].stmts == a.blocks[b.cur.value].stmts + EnterItems(p, lets)
  {
    hide LowerLets;
    var b1 := if p.scopeCalls then Emit(a, IEnterScope) else a;
    LetsAppend(b1.(scopes := b1.scopes + [[]]), lets);
  }

  lemma EnterEffects(env: Env, p: Policy, lets: seq<Let>, st: Store)
    ensures Effects(env, EnterItems(p, lets), st) == ExecLets(env, lets, st)
  {
    LetsEffects(env, lets, st);
    if p.scopeCalls {
      EffectsConcat(env, [IEnterScope], LetItems(lets), st);
      NoEffects(env, [IEnterScope], st);
    } else {
      assert EnterItems(p, lets) == LetItems(lets);
    }
  }

  lemma SimEnter(env: Env, p: Policy, a: Builder, lets: seq<Let>, g: Blocks, st: Store) returns (n: nat)
    requires Sound(a) && a.cur.Some?
    requires var b := EnterBlock(p, a, lets); |b.blocks| <= |g| && (Open(b) ==> b.blocks[b.cur.value].stmts <= g[b.cur.value].stmts)
    ensures var b := EnterBlock(p, a, lets);
      Open(b) && Run(env, g, n, End(a, st)) == Some(End(b, ExecLets(env, lets, st)))
  {
    hide EnterBlock, EnterItems, Run, Step, Effects, ExecLets;
    var items := EnterItems(p, lets);
    EnterAppends(p, a, lets);
    EnterEffects(env, p, lets, st);
    RunItems(env, g, a.cur.value, |a.blocks[a.cur.value].stmts|, items, st);
    n := |items|;
  }

  lemma SimLeave(env: Env, p: Policy, b: Builder, g: Blocks, st: Store) returns (n: nat)
    requires Sound(b) && b.cur.Some? && b.scopes != []
    requires var r := LeaveBlock(p, b); |r.blocks| <= |g| && r.blocks[b.cur.value].stmts <= g[b.cur.value].stmts
    ensures Run(env, g, n, End(b, st)) == Some(End(LeaveBlock(p, b), st))
  {
    var items := LeaveItems(p, Last(b.scopes));
    RunItems(env, g, b.cur.value, |b.blocks[b.cur.value].stmts|, items, st);
    NoEffects(env, items, st);
    n := |items|;
  }

  // ----- the simulation -----

  lemma {:induction false} Sim(env: Env, p: Policy, a: Builder, s: Stmt, g: Blocks, st: Store, fuel: nat)
    returns (n: nat, d: Config)
    requires Sound(a) && a.cur.Some? && Sealed(a, Lower(p, a, s), g) && Exec(env, s, st, fuel).Some?
    ensures Run(env, g, n, End(a, st)) == Some(d)
    ensures var (o, st1) := Exec(env, s, st, fuel).value; Arrives(g, Lower(p, a, s), o, st1, d)
    decreases fuel, s, 3
  {
    hide Emit, Jump, ReturnJump, LowerIf, LowerTest, LowerWhile, LowerFor, LowerSwitch, LowerBlock, LowerSeq;
    match s
    case Compound(ss) => n, d := SimSeq(env, p, a, ss, true, g, st, fuel);
    case Block(lets, ss) => n, d := SimBlock(env, p, a, s, g, st, fuel);
    case Switchon(e, cases, dflt) => n, d := SimSwitch(env, p, a, s, g, st, fuel);
    case Defer(_) => n, d := 0, End(a, st);
    case Assign(x, e) => n, d := SimEmit(env, a, IAssign(x, e), g, st);
    case Call(f, args) => n, d := SimEmit(env, a, ICall(f, args), g, st);
    case If(c, thn) => n, d := SimIf(env, p, a, s, g, st, fuel);
    case Test(c, thn, els) => n, d := SimTest(env, p, a, s, g, st, fuel);
    case While(c, body) => n, d := SimWhile(env, p, a, s, g, st, fuel);
    case For(v, start, limit, step, body) => n, d := SimFor(env, p, a, s, g, st, fuel);
    case Break => n, d := SimJump(env, p, a, IBreak, a.breaks, g, st);
    case Loop => n, d := SimJump(env, p, a, ILoop, a.loops, g, st);
    case Endcase => n, d := SimJump(env, p, a, IEndcase, a.endcases, g, st);
    case Return => n, d := SimReturn(env, p, a, g, st);
  }

  lemma SimEmit(env: Env, a: Builder, item: Item, g: Blocks, st: Store) returns (n: nat, d: Config)
    requires Sound(a) && a.cur.Some? && !IsJump(item) && Sealed(a, Emit(a, item), g)
    ensures Run(env, g, n, End(a, st)) == Some(d) && d == End(Emit(a, item), Effect(env, item, st))
  {
    assert SealedAt(Emit(a, item), g, a.cur.value);
    RunItems(env, g, a.cur.value, |a.blocks[a.cur.value].stmts|, [item], st);
    n, d := 1, End(Emit(a, item), Effect(env, item, st));
  }

  /** From the end of the statements so far over a branching statement to the block it selects. */
  lemma TakeBranch(env: Env, g: Blocks, i: nat, p: nat, item: Item, t: nat, st: Store)
    requires i < |g| && p < |g[i].stmts| && g[i].stmts[p..] == [item] && Effect(env, item, st) == st
    requires Branch(env, g[i], st) == Some(t)
    ensures Run(env, g, 2, At(i, p, st)) == Some(At(t, 0, st))
  {
    assert g[i].stmts[p] == item;
    assert Run(env, g, 1, At(i, p + 1, st)) == Run(env, g, 0, At(t, 0, st));
  }

  /** A statement lowered into an empty block, whose region of the graph is closed with an edge to `target`. */
  lemma SimClosed(env: Env, p: Policy, b: Builder, s: Stmt, g: Blocks, target: nat, st: Store, fuel: nat)
    returns (n: nat, d: Config)
    requires Sound(b) && b.cur.Some? && b.blocks[b.cur.value].stmts == [] && Exec(env, s, st, fuel).Some?
    requires Closed(b, Lower(p, b, s), g, target)
    ensures Run(env, g, n, At(b.cur.value, 0, st)) == Some(d)
    ensures
      var (o, st1) := Exec(env, s, st, fuel).value;
      if o == Normal then d == At(target, 0, st1) else Arrives(g, Lower(p, b, s), o, st1, d)
    decreases fuel, s, 4
  {
    hide Lower, Run, Step, Exec;
    var b2 := Lower(p, b, s);
    ClosedSealed(b, b2, g, target);
    n, d := Sim(env, p, b, s, g, st, fuel);
    var (o, st1) := Exec(env, s, st, fuel).value;
    n, d := FallThrough(env, b, b2, g, target, o, st1, At(b.cur.value, 0, st), n, d);
  }

  lemma SimIf(env: Env, p: Policy, a: Builder, s: Stmt, g: Blocks, st: Store, fuel: nat) returns (n: nat, d: Config)
    requires Sound(a) && a.cur.Some? && s.If? && Sealed(a, LowerIf(p, a, s), g) && Exec(env, s, st, fuel).Some?
    ensures Run(env, g, n, End(a, st)) == Some(d)
    ensures var (o, st1) := Exec(env, s, st, fuel).value; Arrives(g, LowerIf(p, a, s), o, st1, d)
    decreases fuel, s, 2
  {
    hide OpenIf, Lower, Close, Run, Step, Sealed, Closed, Keeps, InBounds;
    var k := |a.blocks|;
    var b1 := OpenIf(a, s.c);
    var b2 := Lower(p, b1, s.thn);
    PendingGrows(b1, b2, k + 1);
    IfParts(p, a, s, g);
    var holds := Eval(env, s.c, st) != 0;
    TakeBranch(env, g, a.cur.value, |a.blocks[a.cur.value].stmts|, IIf(s.c), if holds then k else k + 1, st);
    if holds {
      n, d := SimClosed(env, p, b1, s.thn, g, k + 1, st, fuel);
      RunAdd(env, g, 2, n, End(a, st));
      n := 2 + n;
    } else {
      n, d := 2, At(k + 1, 0, st);
    }
  }

  lemma SimTest(env: Env, p: Policy, a: Builder, s: Stmt, g: Blocks, st: Store, fuel: nat) returns (n: nat, d: Config)
    requires Sound(a) && a.cur.Some? && s.Test? && Sealed(a, LowerTest(p, a, s), g) && Exec(env, s, st, fuel).Some?
    ensures Run(env, g, n, End(a, st)) == Some(d)
    ensures var (o, st1) := Exec(env, s, st, fuel).value; Arrives(g, LowerTest(p, a, s), o, st1, d)
    decreases fuel, s, 2
  {
    hide OpenTest, Lower, Close, Run, Step, LowerTest, Sealed, Closed, Keeps;
    var k := |a.blocks|;
    var b1 := OpenTest(a, s.c);
    var b2 := Lower(p, b1, s.thn);
    PendingGrows(b1, b2, k + 1);
    PendingGrows(b1, b2, k + 2);
    var b3 := Close(b2, k + 2, Some(k + 1));
    PendingClose(b2, k + 2, Some(k + 1), k + 2);
    var b4 := Lower(p, b3, s.els);
    PendingGrows(b3, b4, k + 2);
    TestParts(p, a, s, g);
    var holds := Eval(env, s.c, st) != 0;
    TakeBranch(env, g, a.cur.value, |a.blocks[a.cur.value].stmts|, ITest(s.c), if holds then k else k + 1, st);
    if holds {
      n, d := SimClosed(env, p, b1, s.thn, g, k + 2, st, fuel);
    } else {
      n, d := SimClosed(env, p, b3, s.els, g, k + 2, st, fuel);
    }
    RunAdd(env, g, 2, n, End(a, st));
    n := 2 + n;
    TestEnd(p, a, s);
  }

  lemma TestEnd(p: Policy, a: Builder, s: Stmt)
    requires Sound(a) && a.cur.Some? && s.Test?
    ensures
      var k := |a.blocks|;
      var b2 := Lower(p, OpenTest(a, s.c), s.thn);
      && Pending(b2, k + 1)
      && var b4 := Lower(p, Close(b2, k + 2, Some(k + 1)), s.els);
      && var r := LowerTest(p, a, s);
      && Open(r) && r.cur == Some(k + 2) && r.blocks[k + 2].stmts == []
      && (b2.exit.Some? ==> r.exit == b2.exit) && r.exit == b4.exit
      && SameStacks(b2, r) && SameStacks(b4, r)
  {
    hide OpenTest, Lower, Close, Keeps, InBounds;
    var k := |a.blocks|;
    var b1 := OpenTest(a, s.c);
    var b2 := Lower(p, b1, s.thn);
    PendingGrows(b1, b2, k + 1);
    PendingGrows(b1, b2, k + 2);
    var b3 := Close(b2, k + 2, Some(k + 1));
    PendingClose(b2, k + 2, Some(k + 1), k + 2);
    var b4 := Lower(p, b3, s.els);
    PendingGrows(b3, b4, k + 2);
    ExitKept(b2, b3, b4);
  }

  lemma ExitKept(a: Builder, b: Builder, c: Builder)
    requires a.exit == b.exit && Grows(b, c)
    ensures a.exit.Some? ==> c.exit == a.exit
  {
  }

  lemma SimWhile(env: Env, p: Policy, a: Builder, s: Stmt, g: Blocks, st: Store, fuel: nat) returns (n: nat, d: Config)
    requires Sound(a) && a.cur.Some? && s.While? && Sealed(a, LowerWhile(p, a, s), g) && Exec(env, s, st, fuel).Some?
    ensures Run(env, g, n, End(a, st)) == Some(d)
    ensures var (o, st1) := Exec(env, s, st, fuel).value; Arrives(g, LowerWhile(p, a, s), o, st1, d)
    decreases fuel, s, 2
  {
    hide OpenWhile, Lower, Run, Step, Sealed, InBounds;
    var k := |a.blocks|;
    WhileParts(p, a, s, g);
    Follow(env, g, a.cur.value, k, st);
    n, d := SimLoop(env, p, WhileTest(s.c), None, s.body, OpenWhile(a, s.c), k, k, k + 2, g, st, fuel);
    RunAdd(env, g, 1, n, End(a, st));
    n := 1 + n;
  }

  lemma SimFor(env: Env, p: Policy, a: Builder, s: Stmt, g: Blocks, st: Store, fuel: nat) returns (n: nat, d: Config)
    requires Sound(a) && a.cur.Some? && s.For? && Exec(env, s, st, fuel).Some?
    requires Sealed(a, LowerFor(p, Emit(a, IAssign(s.v, s.start)), s), g)
    ensures Run(env, g, n, End(a, st)) == Some(d)
    ensures var (o, st1) := Exec(env, s, st, fuel).value; Arrives(g, LowerFor(p, Emit(a, IAssign(s.v, s.start)), s), o, st1, d)
    decreases fuel, s, 2
  {
    hide Emit, LowerFor, Run, Step;
    var a1 := Emit(a, IAssign(s.v, s.start));
    SealedSplit(a, a1, LowerFor(p, a1, s), g);
    n, d := SimEmit(env, a, IAssign(s.v, s.start), g, st);
    var m;
    m, d := SimForLoop(env, p, a1, s, g, d.st, fuel);
    RunAdd(env, g, n, m, End(a, st));
    n := n + m;
  }

  function ForRounds(env: Env, s: Stmt, st: Store, fuel: nat): Ended
    requires s.For?
  {
    ExecLoop(env, ForTest(s.v, s.limit), Some(Assign(s.v, StepExpr(s.v, s.step))), s.body, st, fuel)
  }

  lemma SimForLoop(env: Env, p: Policy, a: Builder, s: Stmt, g: Blocks, st: Store, fuel: nat) returns (n: nat, d: Config)
    requires Sound(a) && a.cur.Some? && s.For? && ForRounds(env, s, st, fuel).Some? && Sealed(a, LowerFor(p, a, s), g)
    ensures Run(env, g, n, End(a, st)) == Some(d)
    ensures var (o, st1) := ForRounds(env, s, st, fuel).value; Arrives(g, LowerFor(p, a, s), o, st1, d)
    decreases fuel, s, 1
  {
    hide OpenFor, CloseFor, Lower, Run, Step, ExecLoop;
    var k := |a.blocks|;
    var b1 := OpenFor(a, s.v, s.limit);
    var b2 := Lower(p, b1, s.body);
    PendingGrows(b1, b2, k + 2);
    PendingGrows(b1, b2, k + 3);
    ForParts(p, a, s, g);
    Follow(env, g, a.cur.value, k, st);
    n, d := SimLoop(env, p, ForTest(s.v, s.limit), Some(Assign(s.v, StepExpr(s.v, s.step))), s.body,
                    b1, k, k + 2, k + 3, g, st, fuel);
    RunAdd(env, g, 1, n, End(a, st));
    n := 1 + n;
  }

  /** The rounds of a loop, from its header. Only ENDCASE and RETURN get past the loop's own exit. */
  lemma {:induction false} SimLoop(env: Env, p: Policy, t: LoopTest, step: Option<Stmt>, body: Stmt,
                                   b: Builder, h: nat, w: nat, x: nat, g: Blocks, st: Store, fuel: nat)
    returns (n: nat, d: Config)
    requires LoopShape(p, g, t, step, body, b, h, w, x) && ExecLoop(env, t, step, body, st, fuel).Some?
    ensures Run(env, g, n, At(h, 0, st)) == Some(d)
    ensures
      var (o, st1) := ExecLoop(env, t, step, body, st, fuel).value;
      if o == Normal then d == At(x, 0, st1)
      else (o == Endcased || o == Returned) && Arrives(g, Lower(p, b, body), o, st1, d)
    decreases fuel, body, 6
  {
    hide Lower, Run, Step, Exec;
    var holds := Holds(env, t, st);
    TakeBranch(env, g, h, 0, TestItem(t), if holds then h + 1 else x, st);
    if !holds {
      n, d := 2, At(x, 0, st);
    } else {
      n, d := SimRound(env, p, t, step, body, b, h, w, x, g, st, fuel);
      RunAdd(env, g, 2, n, At(h, 0, st));
      n := 2 + n;
      var (o, st1) := Exec(env, body, st, fuel).value;
      if o == Normal || o == Looped {
        var m;
        m, d := SimLoop(env, p, t, step, body, b, h, w, x, g, AfterStep(env, step, st1), fuel - 1);
        RunAdd(env, g, n, m, At(h, 0, st));
        n := n + m;
      }
    }
  }

  /** One round: the body from its first block, then, unless the loop is left, the step and back to the header. */
  lemma SimRound(env: Env, p: Policy, t: LoopTest, step: Option<Stmt>, body: Stmt,
                 b: Builder, h: nat, w: nat, x: nat, g: Blocks, st: Store, fuel: nat)
    returns (n: nat, d: Config)
    requires LoopShape(p, g, t, step, body, b, h, w, x) && Exec(env, body, st, fuel).Some?
    ensures Run(env, g, n, At(h + 1, 0, st)) == Some(d)
    ensures
      var (o, st1) := Exec(env, body, st, fuel).value;
      if o == Normal || o == Looped then d == At(h, 0, AfterStep(env, step, st1))
      else if o == Broke then d == At(x, 0, st1)
      else Arrives(g, Lower(p, b, body), o, st1, d)
    decreases fuel, body, 5
  {
    hide Lower, Run, Step, Exec;
    n, d := SimClosed(env, p, b, body, g, w, st, fuel);
    var (o, st1) := Exec(env, body, st, fuel).value;
    if (o == Normal || o == Looped) && step.Some? {
      var item := IAssign(step.value.x, step.value.e);
      assert Effects(env, [item], st1) == Effects(env, [], Effect(env, item, st1));
      RunItems(env, g, w, 0, [item], st1);
      RunAdd(env, g, n, 1, At(h + 1, 0, st));
      Follow(env, g, w, h, AfterStep(env, step, st1));
      RunAdd(env, g, n + 1, 1, At(h + 1, 0, st));
      n, d := n + 2, At(h, 0, AfterStep(env, step, st1));
    }
  }

  lemma SimCase(env: Env, p: Policy, b: Builder, s: Stmt, at: nat, join: nat, g: Blocks, st: Store, fuel: nat)
    returns (n: nat, d: Config)
    requires Sound(b) && b.cur.None? && join < |b.blocks| && Pending(b, at) && join != at
    requires CasesDone(b, LowerCase(p, b, s, at, join), g, at, at + 1) && Exec(env, s, st, fuel).Some?
    ensures Run(env, g, n, At(at, 0, st)) == Some(d)
    ensures
      var (o, st1) := Exec(env, s, st, fuel).value;
      if o == Normal then d == At(join, 0, st1) else Arrives(g, LowerCase(p, b, s, at, join), o, st1, d)
    decreases fuel, s, 5
  {
    CaseParts(p, b, s, at, join, g);
    n, d := SimClosed(env, p, b.(cur := Some(at)), s, g, join, st, fuel);
  }

  /** The i-th case, from its own block. */
  lemma {:induction false} SimCases(env: Env, p: Policy, b: Builder, cases: seq<Case>, first: nat, join: nat, i: nat, g: Blocks, st: Store, fuel: nat)
    returns (n: nat, d: Config)
    requires Sound(b) && b.cur.None? && join < first && first + |cases| <= |b.blocks| && i < |cases|
    requires forall i :: first <= i < first + |cases| ==> Pending(b, i)
    requires CasesDone(b, LowerCases(p, b, cases, first, join), g, first, first + |cases|)
    requires Exec(env, cases[i].command, st, fuel).Some?
    ensures Run(env, g, n, At(first + i, 0, st)) == Some(d)
    ensures
      var (o, st1) := Exec(env, cases[i].command, st, fuel).value;
      if o == Normal then d == At(join, 0, st1) else Arrives(g, LowerCases(p, b, cases, first, join), o, st1, d)
    decreases fuel, cases, 0
  {
    hide LowerCase;
    CasesParts(p, b, cases, first, join, g);
    var b1 := LowerCase(p, b, cases[0].command, first, join);
    if i == 0 {
      assert cases[0].command < cases[0];
      n, d := SimCase(env, p, b, cases[0].command, first, join, g, st, fuel);
    } else {
      n, d := SimCases(env, p, b1, cases[1..], first + 1, join, i - 1, g, st, fuel);
    }
  }

  /** The command a SWITCHON selects, if any, run before ENDCASE is taken for falling through. */
  function Selected(env: Env, s: Stmt, st: Store): Option<Stmt>
    requires s.Switchon?
  {
    var i := Select(Eval(env, s.e, st), Values(s.cases));
    if i < |s.cases| then Some(s.cases[i].command) else s.dflt
  }

  /** The block a SWITCHON branches to; n is the number of its header. */
  function SelectedBlock(env: Env, s: Stmt, st: Store, n: nat): nat
    requires s.Switchon?
  {
    var i := Select(Eval(env, s.e, st), Values(s.cases));
    if i < |s.cases| || s.dflt.Some? then n + 2 + i else n + 1
  }

  lemma SimSelected(env: Env, p: Policy, a: Builder, s: Stmt, cmd: Stmt, g: Blocks, st: Store, fuel: nat) returns (n: nat, d: Config)
    requires Sound(a) && s.Switchon? && SwitchShape(p, a, s, g)
    requires Selected(env, s, st) == Some(cmd) && Exec(env, cmd, st, fuel).Some?
    ensures Run(env, g, n, At(SelectedBlock(env, s, st, |a.blocks|), 0, st)) == Some(d)
    ensures
      var (o, st1) := Exec(env, cmd, st, fuel).value;
      if o == Normal || o == Endcased then d == At(|a.blocks| + 1, 0, st1) else Arrives(g, LowerSwitch(p, a, s), o, st1, d)
    decreases fuel, s, 1
  {
    hide OpenSwitch, LowerCase, LowerCases, Run, Step, Exec, LowerSwitch, LowerDefault;
    var k := |a.blocks|;
    var at := k + 2 + |s.cases|;
    var b1 := OpenSwitch(a, s.e, s.cases, s.dflt);
    var b2 := SwitchCased(p, a, s);
    var i := Select(Eval(env, s.e, st), Values(s.cases));
    if i < |s.cases| {
      n, d := SimCases(env, p, b1, s.cases, k + 2, k + 1, i, g, st, fuel);
      assert b2 == LowerCases(p, b1, s.cases, k + 2, k + 1);
    } else {
      n, d := SimCase(env, p, b2, s.dflt.value, at, k + 1, g, st, fuel);
    }
    var (o, st1) := Exec(env, cmd, st, fuel).value;
    if o != Normal && o != Endcased { ArrivesSwitch(p, a, s, g, o, st1, d); }
  }

  /** A jump out of a case, or out of the default, leads where it leads for the whole SWITCHON. */
  lemma ArrivesSwitch(p: Policy, a: Builder, s: Stmt, g: Blocks, o: Outcome, st: Store, d: Config)
    requires Sound(a) && s.Switchon? && o != Normal && o != Endcased
    requires
      var b := SwitchCased(p, a, s);
      || Arrives(g, b, o, st, d)
      || (s.dflt.Some? && Arrives(g, LowerCase(p, b, s.dflt.value, |a.blocks| + 2 + |s.cases|, |a.blocks| + 1), o, st, d))
    ensures Arrives(g, LowerSwitch(p, a, s), o, st, d)
  {
    hide SwitchCased, LowerCase, OpenSwitch, SameFlow, CasesDone;
    var k := |a.blocks|;
    var at := k + 2 + |s.cases|;
    var b := SwitchCased(p, a, s);
    ArrivesKept(g, b, LowerDefault(p, b, s.dflt, at, k + 1), at, if s.dflt.Some? then at + 1 else at);
    KeepsCases(a, b, LowerDefault(p, b, s.dflt, at, k + 1), k, at, if s.dflt.Some? then at + 1 else at);
  }

  /** Later cases change nothing about where a jump leads. */
  lemma ArrivesKept(g: Blocks, a: Builder, b: Builder, first: nat, after: nat)
    requires KeepsOutside(a, b, first, after)
    ensures forall o, st, d :: o != Normal && Arrives(g, a, o, st, d) ==> Arrives(g, b, o, st, d)
  {
  }

  lemma SimSwitch(env: Env, p: Policy, a: Builder, s: Stmt, g: Blocks, st: Store, fuel: nat) returns (n: nat, d: Config)
    requires Sound(a) && a.cur.Some? && s.Switchon? && Sealed(a, LowerSwitch(p, a, s), g) && Exec(env, s, st, fuel).Some?
    ensures Run(env, g, n, End(a, st)) == Some(d)
    ensures var (o, st1) := Exec(env, s, st, fuel).value; Arrives(g, LowerSwitch(p, a, s), o, st1, d)
    decreases fuel, s, 2
  {
    hide SwitchCased, LowerSwitch, SwitchShape, Sealed, OpenSwitch, Run, Step;
    var k := |a.blocks|;
    SwitchParts(p, a, s, g);
    SwitchBranch(env, p, a, s, g, st);
    var cmd := Selected(env, s, st);
    if cmd.Some? {
      n, d := SimSelected(env, p, a, s, cmd.value, g, st, fuel);
      RunAdd(env, g, 3, n, End(a, st));
      n := 3 + n;
    } else {
      n, d := 3, At(k + 1, 0, st);
    }
    JoinOpen(p, a, s);
  }

  lemma JoinOpen(p: Policy, a: Builder, s: Stmt)
    requires Sound(a) && s.Switchon?
    ensures var r := LowerSwitch(p, a, s); Open(r) && forall st :: End(r, st) == At(|a.blocks| + 1, 0, st)
  {
    hide SwitchCased, LowerDefault;
    var n := |a.blocks|;
    var at := n + 2 + |s.cases|;
    var b := SwitchCased(p, a, s);
    KeepsCases(a, b, LowerDefault(p, b, s.dflt, at, n + 1), n, at, if s.dflt.Some? then at + 1 else at);
  }

  /** Into the header and from there to the selected block. */
  lemma SwitchBranch(env: Env, p: Policy, a: Builder, s: Stmt, g: Blocks, st: Store)
    requires Sound(a) && a.cur.Some? && s.Switchon? && SwitchShape(p, a, s, g)
    ensures Run(env, g, 3, End(a, st)) == Some(At(SelectedBlock(env, s, st, |a.blocks|), 0, st))
  {
    hide OpenSwitch, SwitchCased, LowerCase, Run, Step;
    var k := |a.blocks|;
    Follow(env, g, a.cur.value, k, st);
    TakeBranch(env, g, k, 0, ISwitch(s.e, Values(s.cases), s.dflt.Some?), SelectedBlock(env, s, st, k), st);
    RunAdd(env, g, 1, 2, End(a, st));
  }

  lemma {:induction false} SimSeq(env: Env, p: Policy, a: Builder, ss: seq<Stmt>, anew: bool, g: Blocks, st: Store, fuel: nat)
    returns (n: nat, d: Config)
    requires Sound(a) && a.cur.Some? && Sealed(a, LowerSeq(p, a, ss, anew), g) && ExecSeq(env, ss, st, fuel).Some?
    ensures Run(env, g, n, End(a, st)) == Some(d)
    ensures var (o, st1) := ExecSeq(env, ss, st, fuel).value; Arrives(g, LowerSeq(p, a, ss, anew), o, st1, d)
    decreases fuel, ss, 0
  {
    hide Lower, Step, Exec;
    if ss == [] {
      n, d := 0, End(a, st);
    } else {
      var b := Lower(p, a, ss[0]);
      var r := LowerSeq(p, b, ss[1..], anew);
      assert LowerSeq(p, a, ss, anew) == r;
      SealedSplit(a, b, r, g);
      n, d := Sim(env, p, a, ss[0], g, st, fuel);
      var (o, st1) := Exec(env, ss[0], st, fuel).value;
      if o == Normal {
        var m;
        m, d := SimSeq(env, p, b, ss[1..], anew, g, st1, fuel);
        RunAdd(env, g, n, m, End(a, st));
        n := n + m;
      }
    }
  }

  lemma SimBlock(env: Env, p: Policy, a: Builder, s: Stmt, g: Blocks, st: Store, fuel: nat) returns (n: nat, d: Config)
    requires Sound(a) && a.cur.Some? && s.Block? && Sealed(a, LowerBlock(p, a, s), g) && Exec(env, s, st, fuel).Some?
    ensures Run(env, g, n, End(a, st)) == Some(d)
    ensures var (o, st1) := Exec(env, s, st, fuel).value; Arrives(g, LowerBlock(p, a, s), o, st1, d)
    decreases fuel, s, 2
  {
    hide EnterBlock, LeaveBlock, ExecLets;
    var b1 := EnterBlock(p, a, s.lets);
    var b2 := LowerSeq(p, b1, s.ss, false);
    var r := LeaveBlock(p, b2);
    BlockParts(p, a, s, g);
    n := SimEnter(env, p, a, s.lets, g, st);
    var m;
    m, d := SimSeq(env, p, b1, s.ss, false, g, ExecLets(env, s.lets, st), fuel);
    RunAdd(env, g, n, m, End(a, st));
    n := n + m;
    var (o, st1) := Exec(env, s, st, fuel).value;
    if o == Normal {
      m := SimLeave(env, p, b2, g, st1);
      RunAdd(env, g, n, m, End(a, st));
      n, d := n + m, End(r, st1);
    }
  }

  lemma BlockParts(p: Policy, a: Builder, s: Stmt, g: Blocks)
    requires Sound(a) && a.cur.Some? && s.Block? && Sealed(a, LowerBlock(p, a, s), g)
    ensures
      var b1 := EnterBlock(p, a, s.lets);
      var b2 := LowerSeq(p, b1, s.ss, false);
      var r := LeaveBlock(p, b2);
      && Sealed(b1, b2, g) && Open(b1) && b1.blocks[b1.cur.value].stmts <= g[b1.cur.value].stmts
      && (Open(b2) ==> r.blocks[b2.cur.value].stmts <= g[b2.cur.value].stmts)
  {
    hide EnterBlock, LeaveBlock, LowerSeq;
    var b1 := EnterBlock(p, a, s.lets);
    var b2 := LowerSeq(p, b1, s.ss, false);
    var r := LeaveBlock(p, b2);
    GrowsTrans(a, b1.(scopes := a.scopes), b2.(scopes := a.scopes));
    var a' := a.(scopes := []);
    var b1' := b1.(scopes := []);
    var b2' := b2.(scopes := []);
    var r' := r.(scopes := []);
    assert Sealed(a', r', g) by {
      forall i | 0 <= i < |r.blocks| && (i >= |a.blocks| || a.cur == Some(i)) ensures SealedAt(r', g, i) {
        assert SealedAt(r, g, i);
      }
    }
    GrowsTrans(a', b1', b2');
    SealedSplit(a', b2', r', g);
    SealedSplit(a', b1', b2', g);
    forall i | 0 <= i < |b2.blocks| && (i >= |b1.blocks| || b1.cur == Some(i)) ensures SealedAt(b2, g, i) {
      assert SealedAt(b2', g, i);
    }
    assert SealedAt(b1', g, b1.cur.value);
    if Open(b2) { assert SealedAt(r, g, b2.cur.value); }
  }
}
