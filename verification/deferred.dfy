/** Deferred statements: which ones a function has, and what they make of the block that cleans up. */
module DeferredStatements {
  import opened Wrappers
  import opened Syntax
  import opened Graph
  import opened Lowering
  import opened Simulation
  import opened Forward
  import opened Functions

  // ----- which statements are deferred -----

  /** Every DEFER in the text counts, in order of appearance, whether or not it is ever executed. */
  function DefersOf(s: Stmt): seq<Stmt>
    decreases s, 1
  {
    match s
    case If(_, thn) => DefersOf(thn)
    case Test(_, thn, els) => DefersOf(thn) + DefersOf(els)
    case While(_, body) => DefersOf(body)
    case For(_, _, _, _, body) => DefersOf(body)
    case Switchon(_, cases, dflt) => DefersOfCases(cases) + if dflt.Some? then DefersOf(dflt.value) else []
    case Compound(ss) => DefersOfAll(ss)
    case Block(_, ss) => DefersOfAll(ss)
    case Defer(d) => [d]
    case _ => []
  }

  function DefersOfAll(ss: seq<Stmt>): seq<Stmt>
    decreases ss, 0
  {
    if ss == [] then [] else DefersOf(ss[0]) + DefersOfAll(ss[1..])
  }

  function DefersOfCases(cases: seq<Case>): seq<Stmt>
    decreases cases, 0
  {
    if cases == [] then []
    else
      assert cases[0].command < cases[0];
      DefersOf(cases[0].command) + DefersOfCases(cases[1..])
  }

  lemma {:induction false} LowerCollects(p: Policy, b: Builder, s: Stmt)
    requires Sound(b)
    ensures Lower(p, b, s).defers == b.defers + DefersOf(s)
    decreases s, 3
  {
    hide LowerIf, LowerTest, LowerWhile, LowerFor, LowerSwitch, LowerSeq, LowerBlock, Jump, ReturnJump, InBounds, Keeps;
    var a := Ensure(b);
    match s
    case If(c, thn) => IfCollects(p, a, s);
    case Test(c, thn, els) => TestCollects(p, a, s);
    case While(c, body) => WhileCollects(p, a, s);
    case For(v, start, limit, step, body) => ForCollects(p, Emit(a, IAssign(v, start)), s);
    case Switchon(e, cases, dflt) => SwitchCollects(p, b, s);
    case Compound(ss) => SeqCollects(p, b, ss, true);
    case Block(lets, ss) => BlockCollects(p, b, s);
    case _ =>
  }

  lemma IfCollects(p: Policy, a: Builder, s: Stmt)
    requires Sound(a) && a.cur.Some? && s.If?
    ensures LowerIf(p, a, s).defers == a.defers + DefersOf(s)
    decreases s, 0
  {
    hide OpenIf, Close, Lower, InBounds, Keeps;
    var b1 := OpenIf(a, s.c);
    LowerCollects(p, b1, s.thn);
    PendingGrows(b1, Lower(p, b1, s.thn), |a.blocks| + 1);
  }

  lemma WhileCollects(p: Policy, a: Builder, s: Stmt)
    requires Sound(a) && a.cur.Some? && s.While?
    ensures LowerWhile(p, a, s).defers == a.defers + DefersOf(s)
    decreases s, 0
  {
    hide OpenWhile, Close, Lower, InBounds, Keeps;
    var b1 := OpenWhile(a, s.c);
    LowerCollects(p, b1, s.body);
    PendingGrows(b1, Lower(p, b1, s.body), |a.blocks| + 2);
  }

  lemma ForCollects(p: Policy, a: Builder, s: Stmt)
    requires Sound(a) && a.cur.Some? && s.For?
    ensures LowerFor(p, a, s).defers == a.defers + DefersOf(s)
    decreases s, 0
  {
    hide OpenFor, CloseFor, Lower, InBounds, Keeps;
    var b1 := OpenFor(a, s.v, s.limit);
    LowerCollects(p, b1, s.body);
    PendingGrows(b1, Lower(p, b1, s.body), |a.blocks| + 2);
    PendingGrows(b1, Lower(p, b1, s.body), |a.blocks| + 3);
  }

  lemma TestCollects(p: Policy, a: Builder, s: Stmt)
    requires Sound(a) && a.cur.Some? && s.Test?
    ensures LowerTest(p, a, s).defers == a.defers + DefersOf(s)
    decreases s, 0
  {
    hide OpenTest, Close, Lower, InBounds, Keeps;
    var n := |a.blocks|;
    var b1 := OpenTest(a, s.c);
    LowerCollects(p, b1, s.thn);
    var b2 := Lower(p, b1, s.thn);
    PendingGrows(b1, b2, n + 1);
    PendingGrows(b1, b2, n + 2);
    LowerCollects(p, Close(b2, n + 2, Some(n + 1)), s.els);
  }

  lemma SwitchCollects(p: Policy, b: Builder, s: Stmt)
    requires Sound(b) && s.Switchon?
    ensures LowerSwitch(p, b, s).defers == b.defers + DefersOf(s)
    decreases s, 1
  {
    hide OpenSwitch, LowerCases, Lower, CloseSwitch, LowerDefault, InBounds, Keeps;
    var n := |b.blocks|;
    CasesCollect(p, OpenSwitch(b, s.e, s.cases, s.dflt), s.cases, n + 2, n + 1);
    var b1 := SwitchCased(p, b, s);
    DefaultCollects(p, b1, s.dflt, n + 2 + |s.cases|, n + 1);
    var rest := if s.dflt.Some? then DefersOf(s.dflt.value) else [];
    assert b.defers + DefersOfCases(s.cases) + rest == b.defers + (DefersOfCases(s.cases) + rest);
  }

  lemma DefaultCollects(p: Policy, b: Builder, dflt: Option<Stmt>, at: nat, join: nat)
    requires Sound(b) && b.cur.None? && join < |b.blocks| && join != at && (dflt.Some? ==> Pending(b, at))
    ensures LowerDefault(p, b, dflt, at, join).defers == b.defers + if dflt.Some? then DefersOf(dflt.value) else []
    decreases dflt, 0
  {
    hide LowerCase, InBounds;
    if dflt.Some? { CaseCollects(p, b, dflt.value, at, join); }
  }

  lemma CaseCollects(p: Policy, b: Builder, s: Stmt, at: nat, join: nat)
    requires Sound(b) && b.cur.None? && join < |b.blocks| && Pending(b, at) && join != at
    ensures LowerCase(p, b, s, at, join).defers == b.defers + DefersOf(s)
    decreases s, 4
  {
    hide Lower, Close, InBounds;
    LowerCollects(p, b.(cur := Some(at)), s);
  }

  lemma {:induction false} CasesCollect(p: Policy, b: Builder, cases: seq<Case>, first: nat, join: nat)
    requires Sound(b) && b.cur.None? && join < first && first + |cases| <= |b.blocks|
    requires forall i :: first <= i < first + |cases| ==> Pending(b, i)
    ensures LowerCases(p, b, cases, first, join).defers == b.defers + DefersOfCases(cases)
    decreases cases, 0
  {
    hide LowerCase, InBounds, Keeps, SameFlow;
    if cases != [] {
      assert Pending(b, first) && cases[0].command < cases[0];
      CaseCollects(p, b, cases[0].command, first, join);
      var b1 := LowerCase(p, b, cases[0].command, first, join);
      PendingCases(b, b1, first, first + |cases|);
      CasesCollect(p, b1, cases[1..], first + 1, join);
    }
  }

  lemma {:induction false} SeqCollects(p: Policy, b: Builder, ss: seq<Stmt>, anew: bool)
    requires Sound(b)
    ensures LowerSeq(p, b, ss, anew).defers == b.defers + DefersOfAll(ss)
    decreases ss, 0
  {
    hide Lower, InBounds;
    if ss != [] {
      var a := if anew then Ensure(b) else b;
      LowerCollects(p, a, ss[0]);
      SeqCollects(p, Lower(p, a, ss[0]), ss[1..], anew);
    }
  }

  lemma BlockCollects(p: Policy, b: Builder, s: Stmt)
    requires Sound(b) && s.Block?
    ensures LowerBlock(p, b, s).defers == b.defers + DefersOf(s)
    decreases s, 0
  {
    hide EnterBlock, LeaveBlock, LowerSeq, InBounds;
    SeqCollects(p, EnterBlock(p, b, s.lets), s.ss, false);
  }

  lemma BodyCollects(p: Policy, s: Stmt)
    ensures BuildBody(p, s).defers == DefersOf(s)
  {
    LowerCollects(p, START, s);
  }

  // ----- what a deferred statement makes of the block it starts in -----

  /**
    A statement is lowered into the current block and stays there; or it stops there, with a jump that has
    nothing to jump to; or it gives the block successors of its own.
   */
  datatype Way = Stays | Stops | Forks

  /** Outside all loops and SWITCHONs; `vars` says whether a surrounding block declares a variable. */
  function WayOf(s: Stmt, vars: bool): Way
    decreases s, 1
  {
    match s
    case Assign(_, _) => Stays
    case Call(_, _) => Stays
    case Defer(_) => Stays
    case Compound(ss) => WayOfAll(ss, vars)
    case Block(lets, ss) => WayOfAll(ss, vars || lets != [])
    case Break => StrayWay(vars)
    case Loop => StrayWay(vars)
    case Endcase => StrayWay(vars)
    case _ => Forks
  }

  /** Cleanup blocks for variables come between a jump and its block. */
  function StrayWay(vars: bool): Way {
    if vars then Forks else Stops
  }

  /** The first statement that does not stay decides. */
  function WayOfAll(ss: seq<Stmt>, vars: bool): Way
    decreases ss, 0
  {
    if ss == [] then Stays
    else
      var w := WayOf(ss[0], vars);
      if w == Stays then WayOfAll(ss[1..], vars) else w
  }

  function Names(lets: seq<Let>): (names: seq<string>)
    ensures names == [] <==> lets == []
  {
    if lets == [] then [] else [lets[0].name] + Names(lets[1..])
  }

  /** What a statement that does not fork appends to the block it starts in. */
  function Items(p: Policy, s: Stmt, vars: bool): seq<Item>
    requires WayOf(s, vars) != Forks
    decreases s, 1
  {
    match s
    case Assign(x, e) => [IAssign(x, e)]
    case Call(f, args) => [ICall(f, args)]
    case Defer(_) => []
    case Compound(ss) => AllItems(p, ss, vars)
    case Block(lets, ss) =>
      EnterItems(p, lets) + AllItems(p, ss, vars || lets != []) +
      if WayOfAll(ss, vars || lets != []) == Stays then LeaveItems(p, Names(lets)) else []
    case Break => [IExitScope, IBreak]
    case Loop => [IExitScope, ILoop]
    case Endcase => [IExitScope, IEndcase]
  }

  function AllItems(p: Policy, ss: seq<Stmt>, vars: bool): seq<Item>
    requires WayOfAll(ss, vars) != Forks
    decreases ss, 0
  {
    if ss == [] then []
    else Items(p, ss[0], vars) + if WayOf(ss[0], vars) == Stays then AllItems(p, ss[1..], vars) else []
  }

  // ----- executing it -----

  /** Executing a statement that does not fork takes no loop round, and does what its items do. */
  lemma {:induction false} ItemsExec(env: Env, p: Policy, s: Stmt, vars: bool, st: Store)
    requires WayOf(s, vars) != Forks
    ensures Exec(env, s, st, 0).Some? && Exec(env, s, st, 0).value.1 == Effects(env, Items(p, s, vars), st)
    ensures Exec(env, s, st, 0).value.0 == Normal <==> WayOf(s, vars) == Stays
    decreases s, 1
  {
    match s
    case Assign(x, e) => EffectOne(env, IAssign(x, e), st);
    case Call(f, args) => EffectOne(env, ICall(f, args), st);
    case Defer(_) =>
    case Compound(ss) => AllItemsExec(env, p, ss, vars, st);
    case Block(lets, ss) =>
      var vars1 := vars || lets != [];
      var (enter, inner) := (EnterItems(p, lets), AllItems(p, ss, vars1));
      var exit := if WayOfAll(ss, vars1) == Stays then LeaveItems(p, Names(lets)) else [];
      EnterEffects(env, p, lets, st);
      AllItemsExec(env, p, ss, vars1, ExecLets(env, lets, st));
      EffectsConcat(env, enter, inner, st);
      EffectsConcat(env, enter + inner, exit, st);
      NoEffects(env, exit, Effects(env, enter + inner, st));
    case Break => JumpEffects(env, IBreak, st);
    case Loop => JumpEffects(env, ILoop, st);
    case Endcase => JumpEffects(env, IEndcase, st);
    case _ =>
  }

  lemma JumpEffects(env: Env, item: Item, st: Store)
    requires IsJump(item)
    ensures Effects(env, [IExitScope, item], st) == st
  {
    assert [IExitScope, item][1..] == [item];
    EffectOne(env, item, st);
    assert Effects(env, [IExitScope, item], st) == Effects(env, [item], Effect(env, IExitScope, st));
  }

  lemma EffectOne(env: Env, item: Item, st: Store)
    ensures Effects(env, [item], st) == Effect(env, item, st)
  {
    assert [item][1..] == [];
  }

  lemma {:induction false} AllItemsExec(env: Env, p: Policy, ss: seq<Stmt>, vars: bool, st: Store)
    requires WayOfAll(ss, vars) != Forks
    ensures ExecSeq(env, ss, st, 0).Some? && ExecSeq(env, ss, st, 0).value.1 == Effects(env, AllItems(p, ss, vars), st)
    ensures ExecSeq(env, ss, st, 0).value.0 == Normal <==> WayOfAll(ss, vars) == Stays
    decreases ss, 0
  {
    if ss != [] {
      ItemsExec(env, p, ss[0], vars, st);
      var rest := if WayOf(ss[0], vars) == Stays then AllItems(p, ss[1..], vars) else [];
      EffectsConcat(env, Items(p, ss[0], vars), rest, st);
      if WayOf(ss[0], vars) == Stays { AllItemsExec(env, p, ss[1..], vars, Effects(env, Items(p, ss[0], vars), st)); }
    }
  }

  // ----- lowering it -----

  /** The builder with some statements appended to its current block. */
  function Extended(b: Builder, items: seq<Item>): Builder
    requires Open(b)
  {
    b.(blocks := b.blocks[b.cur.value := b.blocks[b.cur.value].(stmts := b.blocks[b.cur.value].stmts + items)])
  }

  lemma ExtendNone(b: Builder)
    requires Open(b)
    ensures Extended(b, []) == b
  {
    var block := b.blocks[b.cur.value];
    assert block.stmts + [] == block.stmts;
    assert b.blocks[b.cur.value := block] == b.blocks;
  }

  lemma ExtendTwice(b: Builder, xs: seq<Item>, ys: seq<Item>)
    requires Open(b)
    ensures Extended(Extended(b, xs), ys) == Extended(b, xs + ys)
  {
    var stmts := b.blocks[b.cur.value].stmts;
    assert stmts + xs + ys == stmts + (xs + ys);
  }

  /** The same with some statements put down as deferred. */
  function Added(b: Builder, items: seq<Item>, defers: seq<Stmt>): (r: Builder)
    requires Open(b)
    ensures Open(r) && r.cur == b.cur
  {
    Extended(b, items).(defers := b.defers + defers)
  }

  lemma AddNone(b: Builder)
    requires Open(b)
    ensures Added(b, [], []) == b
  {
    ExtendNone(b);
    assert b.defers + [] == b.defers;
  }

  lemma AddKeeps(b: Builder, items: seq<Item>, defers: seq<Stmt>)
    requires Open(b)
    ensures
      var r := Added(b, items, defers);
      && |r.blocks| == |b.blocks| && SameStacks(b, r)
      && SameFlow(r.blocks[r.cur.value], b.blocks[b.cur.value].(stmts := b.blocks[b.cur.value].stmts + items))
  {
  }

  lemma AddTwice(b: Builder, xs: seq<Item>, ds: seq<Stmt>, ys: seq<Item>, es: seq<Stmt>)
    requires Open(b)
    ensures Added(Added(b, xs, ds), ys, es) == Added(b, xs + ys, ds + es)
  {
    ExtendTwice(b, xs, ys);
    assert b.defers + ds + es == b.defers + (ds + es);
  }

  lemma EmitExtends(b: Builder, item: Item)
    requires Sound(b) && b.cur.Some? && !IsJump(item)
    ensures Emit(b, item) == Extended(b, [item])
  {
  }

  lemma {:induction false} EmitAllExtends(b: Builder, items: seq<Item>)
    requires Sound(b) && b.cur.Some? && forall i :: 0 <= i < |items| ==> !IsJump(items[i])
    ensures EmitAll(b, items) == Extended(b, items)
    decreases |items|
  {
    if items == [] {
      ExtendNone(b);
    } else {
      EmitExtends(b, items[0]);
      EmitAllExtends(Emit(b, items[0]), items[1..]);
      ExtendTwice(b, [items[0]], items[1..]);
      assert items == [items[0]] + items[1..];
    }
  }

  /** The same with some more names in the innermost scope. */
  function Declared(b: Builder, items: seq<Item>, names: seq<string>): (r: Builder)
    requires Open(b) && b.scopes != []
    ensures Open(r) && r.scopes != []
  {
    var n := |b.scopes| - 1;
    Extended(b, items).(scopes := b.scopes[..n] + [b.scopes[n] + names])
  }

  lemma DeclaredNone(b: Builder)
    requires Open(b) && b.scopes != []
    ensures Declared(b, [], []) == b
  {
    var n := |b.scopes| - 1;
    ExtendNone(b);
    assert b.scopes[n] + [] == b.scopes[n] && b.scopes == b.scopes[..n] + [b.scopes[n]];
  }

  lemma DeclaredTwice(b: Builder, xs: seq<Item>, ms: seq<string>, ys: seq<Item>, ns: seq<string>)
    requires Open(b) && b.scopes != []
    ensures Declared(Declared(b, xs, ms), ys, ns) == Declared(b, xs + ys, ms + ns)
  {
    var n := |b.scopes| - 1;
    ExtendTwice(b, xs, ys);
    assert b.scopes[n] + ms + ns == b.scopes[n] + (ms + ns);
    assert (b.scopes[..n] + [b.scopes[n] + ms])[..n] == b.scopes[..n];
  }

  /** With a current block, LETs append their assignments and record their names. */
  lemma {:induction false} LetsExtend(b: Builder, lets: seq<Let>)
    requires Sound(b) && b.cur.Some? && b.scopes != []
    ensures LowerLets(b, lets) == Declared(b, LetItems(lets), Names(lets))
    decreases |lets|
  {
    hide InBounds, Keeps, LowerLet, Declared;
    if lets == [] {
      DeclaredNone(b);
    } else {
      var l := lets[0];
      var items := if l.init.Some? then [IAssign(l.name, l.init.value)] else [];
      LetExtends(b, l);
      LetsExtend(LowerLet(b, l), lets[1..]);
      DeclaredTwice(b, items, [l.name], LetItems(lets[1..]), Names(lets[1..]));
    }
  }

  lemma LetExtends(b: Builder, l: Let)
    requires Sound(b) && b.cur.Some? && b.scopes != []
    ensures LowerLet(b, l) == Declared(b, if l.init.Some? then [IAssign(l.name, l.init.value)] else [], [l.name])
  {
    ExtendNone(b);
  }

  lemma EnterExtends(p: Policy, b: Builder, lets: seq<Let>)
    requires Sound(b) && b.cur.Some?
    ensures EnterBlock(p, b, lets) == Extended(b, EnterItems(p, lets)).(scopes := b.scopes + [Names(lets)])
  {
    hide LowerLets, InBounds, Keeps;
    var b1 := if p.scopeCalls then Emit(b, IEnterScope) else b;
    var b2 := b1.(scopes := b1.scopes + [[]]);
    LetsExtend(b2, lets);
    assert b2.scopes[..|b.scopes|] == b.scopes && [] + Names(lets) == Names(lets);
    if p.scopeCalls {
      EmitExtends(b, IEnterScope);
      ExtendTwice(b, [IEnterScope], LetItems(lets));
    } else {
      assert [] + LetItems(lets) == LetItems(lets);
    }
  }

  lemma LeaveExtends(p: Policy, b: Builder, names: seq<string>)
    requires Sound(b) && b.cur.Some? && b.scopes != [] && Last(b.scopes) == names
    ensures LeaveBlock(p, b) == Extended(b, LeaveItems(p, names)).(scopes := b.scopes[..|b.scopes| - 1])
  {
    EmitAllExtends(b.(scopes := b.scopes[..|b.scopes| - 1]), LeaveItems(p, names));
  }

  /** A statement that stays only appends its items, and puts down what it defers. */
  lemma {:induction false} StaysLower(p: Policy, b: Builder, s: Stmt, vars: bool)
    requires Sound(b) && b.cur.Some? && WayOf(s, vars) == Stays
    ensures Lower(p, b, s) == Added(b, Items(p, s, vars), DefersOf(s))
    decreases s, 1
  {
    match s
    case Assign(_, _) => ExtendNone(b);
    case Call(_, _) => ExtendNone(b);
    case Defer(_) => ExtendNone(b);
    case Compound(ss) => StaysLowerAll(p, b, ss, true, vars);
    case Block(lets, ss) => StaysLowerBlock(p, b, s, vars);
    case _ =>
  }

  lemma {:induction false} StaysLowerBlock(p: Policy, b: Builder, s: Stmt, vars: bool)
    requires Sound(b) && b.cur.Some? && s.Block? && WayOf(s, vars) == Stays
    ensures LowerBlock(p, b, s) == Added(b, Items(p, s, vars), DefersOf(s))
    decreases s, 0
  {
    hide EnterBlock, LeaveBlock, LowerSeq, EnterItems, LeaveItems, InBounds, Keeps;
    var vars1 := vars || s.lets != [];
    var (enter, inner, exit) := (EnterItems(p, s.lets), AllItems(p, s.ss, vars1), LeaveItems(p, Names(s.lets)));
    var b1 := EnterBlock(p, b, s.lets);
    EnterExtends(p, b, s.lets);
    var b2 := LowerSeq(p, b1, s.ss, false);
    StaysLowerAll(p, b1, s.ss, false, vars1);
    LeaveExtends(p, b2, Names(s.lets));
    ExtendTwice(b, enter, inner);
    ExtendTwice(b, enter + inner, exit);
    assert b2.scopes[..|b2.scopes| - 1] == b.scopes;
  }

  lemma {:induction false} StaysLowerAll(p: Policy, b: Builder, ss: seq<Stmt>, anew: bool, vars: bool)
    requires Sound(b) && b.cur.Some? && WayOfAll(ss, vars) == Stays
    ensures LowerSeq(p, b, ss, anew) == Added(b, AllItems(p, ss, vars), DefersOfAll(ss))
    decreases ss, 0
  {
    hide Lower, Keeps, InBounds, Added;
    if ss == [] {
      AddNone(b);
    } else {
      StaysLower(p, b, ss[0], vars);
      FirstOfSeq(p, b, ss, anew);
      hide LowerSeq;
      var b1 := Lower(p, b, ss[0]);
      StaysLowerAll(p, b1, ss[1..], anew, vars);
      AddTwice(b, Items(p, ss[0], vars), DefersOf(ss[0]), AllItems(p, ss[1..], vars), DefersOfAll(ss[1..]));
    }
  }

  // ----- jumps that have nothing to jump to -----

  /** No scope holds a variable, and no construct is there to be left. */
  ghost predicate Bare(b: Builder) {
    b.breaks == [] && b.loops == [] && b.endcases == [] && forall i :: 0 <= i < |b.scopes| ==> b.scopes[i] == []
  }

  /** The current block of b has got these statements more, and nothing leads out of it. */
  ghost predicate Filled(b: Builder, r: Builder, items: seq<Item>)
    requires Open(b)
  {
    && b.cur.value < |r.blocks|
    && SameFlow(r.blocks[b.cur.value], BasicBlock(b.blocks[b.cur.value].stmts + items, [], []))
  }

  /** And it is left for good. */
  ghost predicate Stopped(b: Builder, r: Builder, items: seq<Item>)
    requires Open(b)
  {
    r.cur != b.cur && Filled(b, r, items)
  }

  lemma {:induction false} BareChain(p: Policy, g: Blocks, scopes: seq<seq<string>>, last: nat)
    requires last < |g| && g[last].succs == [] && !EndsWithControlFlow(g[last])
    requires forall i :: 0 <= i < |scopes| ==> scopes[i] == []
    ensures CleanupChain(p, g, scopes, last) == (g, last)
    decreases |scopes|
  {
    if scopes != [] { BareChain(p, g, scopes[..|scopes| - 1], last); }
  }

  lemma StrayStops(p: Policy, b: Builder, item: Item)
    requires Sound(b) && b.cur.Some? && Bare(b) && IsJump(item)
    ensures Stopped(b, Jump(p, b, item, []), [IExitScope, item])
  {
    var b1 := Emit(b, IExitScope);
    BareChain(p, b1.blocks, b.scopes, b.cur.value);
    var stmts := b.blocks[b.cur.value].stmts;
    assert stmts + [IExitScope] + [item] == stmts + [IExitScope, item];
  }

  /** Whatever is lowered afterwards leaves a stopped block alone. */
  lemma StoppedLater(b: Builder, r: Builder, r': Builder, items: seq<Item>)
    requires Open(b) && Stopped(b, r, items) && Grows(r, r')
    ensures Stopped(b, r', items)
  {
  }

  lemma StoppedFurther(b: Builder, b1: Builder, first: seq<Item>, r: Builder, items: seq<Item>)
    requires Open(b) && Open(b1) && b1.cur == b.cur && b1.blocks == Extended(b, first).blocks && Stopped(b1, r, items)
    ensures Stopped(b, r, first + items)
  {
    var stmts := b.blocks[b.cur.value].stmts;
    assert stmts + first + items == stmts + (first + items);
  }

  /** A statement that stops leaves its items in the block. */
  lemma {:induction false} StopsLower(p: Policy, b: Builder, s: Stmt)
    requires Sound(b) && b.cur.Some? && Bare(b) && WayOf(s, false) == Stops
    ensures Stopped(b, Lower(p, b, s), Items(p, s, false))
    decreases s, 1
  {
    match s
    case Compound(ss) => StopsLowerAll(p, b, ss, true);
    case Block(lets, ss) => StopsLowerBlock(p, b, s);
    case Break => StrayStops(p, b, IBreak);
    case Loop => StrayStops(p, b, ILoop);
    case Endcase => StrayStops(p, b, IEndcase);
    case _ =>
  }

  lemma {:induction false} StopsLowerBlock(p: Policy, b: Builder, s: Stmt)
    requires Sound(b) && b.cur.Some? && Bare(b) && s.Block? && WayOf(s, false) == Stops
    ensures Stopped(b, LowerBlock(p, b, s), Items(p, s, false))
    decreases s, 0
  {
    hide EnterBlock, LeaveBlock, LowerSeq, EnterItems, LeaveItems, Keeps;
    NeverStops(s.ss);
    assert s.lets == [];
    var b1 := EnterBlock(p, b, s.lets);
    EnterExtends(p, b, s.lets);
    var b2 := LowerSeq(p, b1, s.ss, false);
    StopsLowerAll(p, b1, s.ss, false);
    var inner := AllItems(p, s.ss, false);
    StoppedFurther(b, b1, EnterItems(p, s.lets), b2, inner);
    LeaveStopped(p, b, b2, EnterItems(p, s.lets) + inner);
    assert EnterItems(p, s.lets) + inner + [] == EnterItems(p, s.lets) + inner;
  }

  /** Among variables nothing stops. */
  lemma {:induction false} NeverStops(ss: seq<Stmt>)
    ensures WayOfAll(ss, true) != Stops
    decreases ss, 0
  {
    if ss != [] {
      NeverStopsOne(ss[0]);
      NeverStops(ss[1..]);
    }
  }

  lemma {:induction false} NeverStopsOne(s: Stmt)
    ensures WayOf(s, true) != Stops
    decreases s, 1
  {
    match s
    case Compound(ss) => NeverStops(ss);
    case Block(_, ss) => NeverStops(ss);
    case _ =>
  }

  lemma LeaveStopped(p: Policy, b: Builder, r: Builder, items: seq<Item>)
    requires Open(b) && Sound(r) && r.scopes != [] && Stopped(b, r, items)
    ensures Stopped(b, LeaveBlock(p, r), items)
  {
  }

  lemma {:induction false} StopsLowerAll(p: Policy, b: Builder, ss: seq<Stmt>, anew: bool)
    requires Sound(b) && b.cur.Some? && Bare(b) && WayOfAll(ss, false) == Stops
    ensures Stopped(b, LowerSeq(p, b, ss, anew), AllItems(p, ss, false))
    decreases ss, 0
  {
    hide Lower, LowerSeq, Keeps, InBounds, Stopped;
    var b1 := Lower(p, b, ss[0]);
    var r := LowerSeq(p, b, ss, anew);
    FirstOfSeq(p, b, ss, anew);
    if WayOf(ss[0], false) == Stays {
      StaysLower(p, b, ss[0], false);
      StopsLowerAll(p, b1, ss[1..], anew);
      StoppedFurther(b, b1, Items(p, ss[0], false), r, AllItems(p, ss[1..], false));
    } else {
      StopsLower(p, b, ss[0]);
      StoppedLater(b, b1, r, Items(p, ss[0], false));
      assert Items(p, ss[0], false) + [] == Items(p, ss[0], false);
    }
  }

  lemma FirstOfSeq(p: Policy, b: Builder, ss: seq<Stmt>, anew: bool)
    requires Sound(b) && b.cur.Some? && ss != []
    ensures LowerSeq(p, b, ss, anew) == LowerSeq(p, Lower(p, b, ss[0]), ss[1..], anew)
    ensures Grows(Lower(p, b, ss[0]), LowerSeq(p, b, ss, anew))
  {
  }

  // ----- all deferred statements, last one first -----

  /** The deferred statements, last one first, starting in the cleanup block. */
  function LowerDefers(p: Policy, b: Builder, defers: seq<Stmt>): (r: Builder)
    requires Sound(b)
    ensures Sound(r) && Grows(b, r)
    decreases |defers|
  {
    if defers == [] then b
    else
      var b1 := Lower(p, b, defers[|defers| - 1]);
      var r := LowerDefers(p, b1, defers[..|defers| - 1]);
      GrowsTrans(b, b1, r);
      r
  }

  function DefersWay(defers: seq<Stmt>): Way
    decreases |defers|
  {
    if defers == [] then Stays
    else
      var w := WayOf(defers[|defers| - 1], false);
      if w == Stays then DefersWay(defers[..|defers| - 1]) else w
  }

  /** Cleaning up gives the block it starts in no successors of its own. */
  predicate Deferrable(defers: seq<Stmt>) {
    DefersWay(defers) != Forks
  }

  /** What is left to do on the way out, in order: last deferred, first run. */
  function CleanupItems(p: Policy, defers: seq<Stmt>): seq<Item>
    requires Deferrable(defers)
    decreases |defers|
  {
    if defers == [] then []
    else
      var d := defers[|defers| - 1];
      Items(p, d, false) + if WayOf(d, false) == Stays then CleanupItems(p, defers[..|defers| - 1]) else []
  }

  /** The store after executing the deferred statements, last one first, up to a stray jump if there is one. */
  function Cleanup(env: Env, defers: seq<Stmt>, st: Store): Store
    decreases |defers|
  {
    if defers == [] then st
    else
      match Exec(env, defers[|defers| - 1], st, 0)
      case Some((Normal, st1)) => Cleanup(env, defers[..|defers| - 1], st1)
      case Some((_, st1)) => st1
      case None => st
  }

  lemma {:induction false} CleanupEffects(env: Env, p: Policy, defers: seq<Stmt>, st: Store)
    requires Deferrable(defers)
    ensures Effects(env, CleanupItems(p, defers), st) == Cleanup(env, defers, st)
    decreases |defers|
  {
    hide Exec, Effects;
    if defers == [] {
      assert Effects(env, [], st) == st by { NoEffects(env, [], st); }
    } else {
      var (d, others) := (defers[|defers| - 1], defers[..|defers| - 1]);
      ItemsExec(env, p, d, false, st);
      var rest := if WayOf(d, false) == Stays then CleanupItems(p, others) else [];
      EffectsConcat(env, Items(p, d, false), rest, st);
      var st1 := Effects(env, Items(p, d, false), st);
      if WayOf(d, false) == Stays { CleanupEffects(env, p, others, st1); } else { NoEffects(env, [], st1); }
    }
  }

  /** Nothing leads out of the cleanup block before its edge to the exit block is added. */
  lemma {:induction false} DefersLower(p: Policy, b: Builder, defers: seq<Stmt>)
    requires Sound(b) && b.cur.Some? && Bare(b) && Deferrable(defers)
    ensures Filled(b, LowerDefers(p, b, defers), CleanupItems(p, defers))
    ensures DefersWay(defers) == Stays ==> |LowerDefers(p, b, defers).blocks| == |b.blocks|
    decreases |defers|
  {
    hide Lower, InBounds, Keeps, Filled, Added, Items;
    if defers == [] {
      FilledNone(b);
    } else {
      var (d, others) := (defers[|defers| - 1], defers[..|defers| - 1]);
      var b1 := Lower(p, b, d);
      var r := LowerDefers(p, b1, others);
      if WayOf(d, false) == Stays {
        StaysLower(p, b, d, false);
        AddKeeps(b, Items(p, d, false), DefersOf(d));
        DefersLower(p, b1, others);
        FilledAfter(b, Items(p, d, false), DefersOf(d), r, CleanupItems(p, others));
      } else {
        StopsLower(p, b, d);
        StoppedLater(b, b1, r, Items(p, d, false));
        assert Items(p, d, false) + [] == Items(p, d, false);
      }
    }
  }

  lemma FilledNone(b: Builder)
    requires Sound(b) && b.cur.Some?
    ensures Filled(b, b, [])
  {
    var stmts := b.blocks[b.cur.value].stmts;
    assert stmts + [] == stmts;
  }

  lemma FilledAfter(b: Builder, first: seq<Item>, defers: seq<Stmt>, r: Builder, items: seq<Item>)
    requires Open(b) && Filled(Added(b, first, defers), r, items)
    ensures Filled(b, r, first + items)
  {
    var stmts := b.blocks[b.cur.value].stmts;
    assert stmts + first + items == stmts + (first + items);
  }
}
