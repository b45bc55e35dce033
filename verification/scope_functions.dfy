/**
  Scope balance of a whole function, deferred statements included, exactly: its scope calls are well nested on
  every path if and only if every jump that is reached stands where its one scope-exit call is right, all ways
  out of the body leave as many scopes open, and cleaning up, entered at that depth, leaves just these.
 */
module FunctionScopes {
  import opened Wrappers
  import opened Syntax
  import opened Graph
  import opened Lowering
  import opened Simulation
  import opened Forward
  import opened Functions
  import opened DeferredStatements
  import opened Deferral
  import opened DeferredBranches
  import opened FunctionGraphs
  import opened ScopeBalance
  import opened ScopesExactly

  // ----- the condition -----

  /** By how much a statement moves the depth of the block it starts in, before it leaves that block. */
  function Lead(p: Policy, s: Stmt, vars: bool): int
    decreases s, 1
  {
    match s
    case Compound(ss) => LeadAll(p, ss, vars)
    case Block(lets, ss) =>
      var vars1 := vars || lets != [];
      if p.scopeCalls && WayOfAll(ss, vars1) != Stays then 1 + LeadAll(p, ss, vars1) else LeadAll(p, ss, vars1)
    case Break => -1
    case Loop => -1
    case Endcase => -1
    case _ => 0
  }

  function LeadAll(p: Policy, ss: seq<Stmt>, vars: bool): int
    decreases ss, 0
  {
    if ss == [] then 0
    else if WayOf(ss[0], vars) == Stays then LeadAll(p, ss[1..], vars)
    else Lead(p, ss[0], vars)
  }

  /** The block it starts in is left by a RETURN that stands in this block itself. */
  predicate Direct(s: Stmt, vars: bool)
    decreases s, 1
  {
    match s
    case Compound(ss) => DirectAll(ss, vars)
    case Block(lets, ss) => DirectAll(ss, vars || lets != [])
    case Return => !vars
    case _ => false
  }

  predicate DirectAll(ss: seq<Stmt>, vars: bool)
    decreases ss, 0
  {
    ss != [] && if WayOf(ss[0], vars) == Stays then DirectAll(ss[1..], vars) else Direct(ss[0], vars)
  }

  function DefersLead(p: Policy, defers: seq<Stmt>): int
    decreases |defers|
  {
    if defers == [] then 0
    else
      var (d, others) := (defers[|defers| - 1], defers[..|defers| - 1]);
      if WayOf(d, false) == Stays then DefersLead(p, others) else Lead(p, d, false)
  }

  predicate DefersDirect(defers: seq<Stmt>)
    decreases |defers|
  {
    defers != [] &&
    var (d, others) := (defers[|defers| - 1], defers[..|defers| - 1]);
    if WayOf(d, false) == Stays then DefersDirect(others) else Direct(d, false)
  }

  predicate DefersFit(p: Policy, defers: seq<Stmt>, k: int, ret: int)
    decreases |defers|
  {
    defers == [] ||
    var (d, others) := (defers[|defers| - 1], defers[..|defers| - 1]);
    Fits(p, d, k, Nowhere(ret)) && (Falls(d) ==> DefersFit(p, others, k, ret))
  }

  predicate DefersFall(defers: seq<Stmt>)
    decreases |defers|
  {
    defers == [] || (Falls(defers[|defers| - 1]) && DefersFall(defers[..|defers| - 1]))
  }

  /**
    Entered at depth k, the cleanup block leaves by its edge to the exit block with no scope open; and every
    deferred jump that is reached fits, where a RETURN leads back to the cleanup block.
   */
  predicate CleanupFits(p: Policy, defers: seq<Stmt>, k: int) {
    k + DefersLead(p, defers) == 0 && (DefersDirect(defers) || DefersFit(p, defers, k, k))
  }

  /** The body is left at depth ret, or not at all if ret is below 0. */
  predicate FitsAt(p: Policy, s: Stmt, ret: int) {
    && Fits(p, s, 0, Nowhere(ret)) && (Falls(s) ==> ret == 0)
    && (ret >= 0 ==> CleanupFits(p, DefersOf(s), ret))
  }

  /** The depth of the first RETURN that is reached, or -1 if none is. */
  function FirstReturn(p: Policy, s: Stmt, k: int): int
    decreases s, 1
  {
    match s
    case If(_, thn) => FirstReturn(p, thn, k)
    case Test(_, thn, els) => Either(FirstReturn(p, thn, k), FirstReturn(p, els, k))
    case While(_, body) => FirstReturn(p, body, k)
    case For(_, _, _, _, body) => FirstReturn(p, body, k)
    case Switchon(_, cases, dflt) => Either(FirstReturnOfCases(p, cases, k), if dflt.Some? then FirstReturn(p, dflt.value, k) else -1)
    case Compound(ss) => FirstReturnOfAll(p, ss, k)
    case Block(_, ss) => FirstReturnOfAll(p, ss, if p.scopeCalls then k + 1 else k)
    case Return => k
    case _ => -1
  }

  function Either(a: int, b: int): int {
    if a >= 0 then a else b
  }

  function FirstReturnOfAll(p: Policy, ss: seq<Stmt>, k: int): int
    decreases ss, 0
  {
    if ss == [] then -1
    else Either(FirstReturn(p, ss[0], k), if Falls(ss[0]) then FirstReturnOfAll(p, ss[1..], k) else -1)
  }

  function FirstReturnOfCases(p: Policy, cases: seq<Case>, k: int): int
    decreases cases, 0
  {
    if cases == [] then -1
    else
      assert cases[0].command < cases[0];
      Either(FirstReturn(p, cases[0].command, k), FirstReturnOfCases(p, cases[1..], k))
  }

  /** The condition, read off the text. */
  predicate FunctionFits(p: Policy, s: Stmt) {
    FitsAt(p, s, if Falls(s) then 0 else FirstReturn(p, s, 0))
  }

  // ----- at which depth the body is left -----

  /** Where a RETURN is reached it settles the depth; where none is, the depth does not matter. */
  lemma {:induction false} ReturnSettles(p: Policy, s: Stmt, k: int, t: Depths, ret: int)
    requires k >= 0 && Fits(p, s, k, t)
    ensures var r := FirstReturn(p, s, k); if r >= 0 then r == t.ret else Fits(p, s, k, t.(ret := ret))
    decreases s, 1
  {
    match s
    case If(_, thn) => ReturnSettles(p, thn, k, t, ret);
    case Test(_, thn, els) =>
      ReturnSettles(p, thn, k, t, ret);
      ReturnSettles(p, els, k, t, ret);
    case While(_, body) => ReturnSettles(p, body, k, t.(brk := Some(k), loop := Some(k)), ret);
    case For(_, _, _, _, body) => ReturnSettles(p, body, k, t.(brk := Some(k), loop := Some(k)), ret);
    case Switchon(_, cases, dflt) =>
      ReturnSettlesCases(p, cases, k, t.(endcase := Some(k)), ret);
      if dflt.Some? { ReturnSettles(p, dflt.value, k, t.(endcase := Some(k)), ret); }
    case Compound(ss) => ReturnSettlesAll(p, ss, k, t, ret);
    case Block(_, ss) => ReturnSettlesAll(p, ss, if p.scopeCalls then k + 1 else k, t, ret);
    case _ =>
  }

  lemma {:induction false} ReturnSettlesAll(p: Policy, ss: seq<Stmt>, k: int, t: Depths, ret: int)
    requires k >= 0 && FitsAll(p, ss, k, t)
    ensures var r := FirstReturnOfAll(p, ss, k); if r >= 0 then r == t.ret else FitsAll(p, ss, k, t.(ret := ret))
    decreases ss, 0
  {
    if ss != [] {
      ReturnSettles(p, ss[0], k, t, ret);
      if Falls(ss[0]) { ReturnSettlesAll(p, ss[1..], k, t, ret); }
    }
  }

  lemma {:induction false} ReturnSettlesCases(p: Policy, cases: seq<Case>, k: int, t: Depths, ret: int)
    requires k >= 0 && FitsCases(p, cases, k, t)
    ensures var r := FirstReturnOfCases(p, cases, k); if r >= 0 then r == t.ret else FitsCases(p, cases, k, t.(ret := ret))
    decreases cases, 0
  {
    if cases != [] {
      assert cases[0].command < cases[0];
      ReturnSettles(p, cases[0].command, k, t, ret);
      ReturnSettlesCases(p, cases[1..], k, t, ret);
    }
  }

  lemma FitsAtFirst(p: Policy, s: Stmt, ret: int)
    requires FitsAt(p, s, ret)
    ensures FunctionFits(p, s)
  {
    hide Fits, FirstReturn, CleanupFits;
    ReturnSettles(p, s, 0, Nowhere(ret), -1);
    var r := FirstReturn(p, s, 0);
    if !Falls(s) && r < 0 { ReturnSettles(p, s, 0, Nowhere(ret), r); }
  }

  // ----- what cleaning up does to its first block -----

  /** The block b starts in: how its depth has moved, and whether it leads to the exit block. */
  ghost predicate Led(b: Builder, r: Builder, lead: int, direct: bool)
    requires Open(b)
  {
    var c := b.cur.value;
    && r.cur != b.cur && c < |r.blocks|
    && Net(r.blocks[c].stmts) == Net(b.blocks[c].stmts) + lead
    && (b.exit.Some? ==> (b.exit.value in r.blocks[c].succs <==> direct))
  }

  lemma LedLater(b: Builder, r: Builder, r': Builder, lead: int, direct: bool)
    requires Open(b) && Led(b, r, lead, direct) && Grows(r, r')
    ensures Led(b, r', lead, direct)
  {
    assert SameFlow(r.blocks[b.cur.value], r'.blocks[b.cur.value]);
  }

  lemma {:induction false} StaysNet(p: Policy, s: Stmt, vars: bool)
    requires WayOf(s, vars) == Stays
    ensures Net(Items(p, s, vars)) == 0
    decreases s, 1
  {
    hide Net, EnterItems, LeaveItems;
    match s
    case Assign(x, e) => NetOne(IAssign(x, e));
    case Call(f, args) => NetOne(ICall(f, args));
    case Defer(_) => NetZero([], 0);
    case Compound(ss) => AllStayNet(p, ss, vars);
    case Block(lets, ss) =>
      var vars1 := vars || lets != [];
      EnterNet(p, lets);
      AllStayNet(p, ss, vars1);
      LeaveNet(p, Names(lets));
      NetConcat(EnterItems(p, lets), AllItems(p, ss, vars1));
      NetConcat(EnterItems(p, lets) + AllItems(p, ss, vars1), LeaveItems(p, Names(lets)));
    case _ =>
  }

  lemma {:induction false} AllStayNet(p: Policy, ss: seq<Stmt>, vars: bool)
    requires WayOfAll(ss, vars) == Stays
    ensures Net(AllItems(p, ss, vars)) == 0
    decreases ss, 0
  {
    hide Net;
    if ss == [] {
      NetZero([], 0);
    } else {
      StaysNet(p, ss[0], vars);
      AllStayNet(p, ss[1..], vars);
      NetConcat(Items(p, ss[0], vars), AllItems(p, ss[1..], vars));
    }
  }

  lemma BranchedLed(b: Builder, b1: Builder, r: Builder, block: BasicBlock)
    requires Sound(b) && b.cur.Some? && b1.cur == b.cur && |b1.blocks| == |b.blocks| && Branched(b1, r, block)
    requires Net(block.stmts) == Net(b.blocks[b.cur.value].stmts) && forall v :: v in block.succs ==> v >= |b.blocks|
    ensures Led(b, r, 0, false)
  {
  }

  lemma IfLeads(p: Policy, b: Builder, s: Stmt)
    requires Sound(b) && b.cur.Some? && s.If?
    ensures Led(b, LowerIf(p, b, s), 0, false)
  {
    hide LowerIf, Branched, Led, Net, Emit;
    var stmts := b.blocks[b.cur.value].stmts;
    IfBranched(p, b, s);
    NetAppend(stmts, IIf(s.c), 0);
    BranchedLed(b, b, LowerIf(p, b, s), ToEither(stmts + [IIf(s.c)], |b.blocks|, |b.blocks| + 1));
  }

  lemma TestLeads(p: Policy, b: Builder, s: Stmt)
    requires Sound(b) && b.cur.Some? && s.Test?
    ensures Led(b, LowerTest(p, b, s), 0, false)
  {
    hide LowerTest, Branched, Led, Net, Emit;
    var stmts := b.blocks[b.cur.value].stmts;
    TestBranched(p, b, s);
    NetAppend(stmts, ITest(s.c), 0);
    BranchedLed(b, b, LowerTest(p, b, s), ToEither(stmts + [ITest(s.c)], |b.blocks|, |b.blocks| + 1));
  }

  lemma WhileLeads(p: Policy, b: Builder, s: Stmt)
    requires Sound(b) && b.cur.Some? && s.While?
    ensures Led(b, LowerWhile(p, b, s), 0, false)
  {
    hide LowerWhile, Branched, Led, Net, Emit;
    var stmts := b.blocks[b.cur.value].stmts;
    WhileBranched(p, b, s);
    BranchedLed(b, b, LowerWhile(p, b, s), To(stmts, |b.blocks|));
  }

  lemma ForLeads(p: Policy, b: Builder, s: Stmt)
    requires Sound(b) && b.cur.Some? && s.For?
    ensures Led(b, LowerFor(p, Emit(b, IAssign(s.v, s.start)), s), 0, false)
  {
    hide LowerFor, Branched, Led, Net, Emit;
    var stmts := b.blocks[b.cur.value].stmts;
    ForBranched(p, Emit(b, IAssign(s.v, s.start)), s);
    NetAppend(stmts, IAssign(s.v, s.start), 0);
    BranchedLed(b, Emit(b, IAssign(s.v, s.start)), LowerFor(p, Emit(b, IAssign(s.v, s.start)), s), To(stmts + [IAssign(s.v, s.start)], |b.blocks|));
  }

  lemma SwitchLeads(p: Policy, b: Builder, s: Stmt)
    requires Sound(b) && b.cur.Some? && s.Switchon?
    ensures Led(b, LowerSwitch(p, b, s), 0, false)
  {
    hide LowerSwitch, Branched, Led, Net, Emit;
    var stmts := b.blocks[b.cur.value].stmts;
    SwitchBranched(p, b, s);
    BranchedLed(b, b, LowerSwitch(p, b, s), To(stmts, |b.blocks|));
  }

  lemma BranchLeads(p: Policy, b: Builder, s: Stmt)
    requires Sound(b) && b.cur.Some? && Branching(s)
    ensures Led(b, Lower(p, b, s), 0, false)
  {
    hide LowerIf, LowerTest, LowerWhile, LowerFor, LowerSwitch, Led, Emit;
    match s
    case If(_, _) => IfLeads(p, b, s);
    case Test(_, _, _) => TestLeads(p, b, s);
    case While(_, _) => WhileLeads(p, b, s);
    case For(_, _, _, _, _) => ForLeads(p, b, s);
    case Switchon(_, _, _) => SwitchLeads(p, b, s);
    case _ => assert false;
  }

  lemma JumpLeads(p: Policy, b: Builder, item: Item, vars: bool)
    requires Ready(b, vars) && IsJump(item)
    ensures Led(b, Jump(p, b, item, []), -1, false)
  {
    hide CleanupChain, Variables, Net;
    var stmts := b.blocks[b.cur.value].stmts;
    ChainLeads(p, Emit(b, IExitScope).blocks, b.scopes, b.cur.value);
    NetAppend(stmts, IExitScope, 0);
    NetAppend(stmts + [IExitScope], item, 0);
  }

  lemma ReturnLeads(p: Policy, b: Builder, vars: bool)
    requires Ready(b, vars)
    ensures Led(b, ReturnJump(p, b), 0, !vars)
  {
    hide CleanupChain, Variables, Net;
    ChainLeads(p, b.blocks, b.scopes, b.cur.value);
    NetAppend(b.blocks[b.cur.value].stmts, IReturn, 0);
  }

  /** Any statement that does not stay. */
  lemma {:induction false} LeadLower(p: Policy, b: Builder, s: Stmt, vars: bool)
    requires Ready(b, vars) && WayOf(s, vars) != Stays
    ensures Led(b, Lower(p, b, s), Lead(p, s, vars), Direct(s, vars))
    decreases s, 1
  {
    hide Led, Variables, Jump, ReturnJump, LowerBlock, LowerSeq, LowerSwitch;
    match s
    case Compound(ss) => LeadLowerAll(p, b, ss, true, vars);
    case Block(lets, ss) => LeadLowerBlock(p, b, s, vars);
    case Break => JumpLeads(p, b, IBreak, vars);
    case Loop => JumpLeads(p, b, ILoop, vars);
    case Endcase => JumpLeads(p, b, IEndcase, vars);
    case Return => ReturnLeads(p, b, vars);
    case _ => BranchLeads(p, b, s);
  }

  lemma {:induction false} LeadLowerBlock(p: Policy, b: Builder, s: Stmt, vars: bool)
    requires Ready(b, vars) && s.Block? && WayOf(s, vars) != Stays
    ensures Led(b, LowerBlock(p, b, s), Lead(p, s, vars), Direct(s, vars))
    decreases s, 0
  {
    hide EnterBlock, LeaveBlock, LowerSeq, EnterItems, Keeps, InBounds, Net;
    var vars1 := vars || s.lets != [];
    var b1 := EnterBlock(p, b, s.lets);
    EnterExtends(p, b, s.lets);
    EnterReady(p, b, s.lets, vars);
    LeadLowerAll(p, b1, s.ss, false, vars1);
    EnterNet(p, s.lets);
    NetConcat(b.blocks[b.cur.value].stmts, EnterItems(p, s.lets));
    LeaveLed(p, b1, LowerSeq(p, b1, s.ss, false), LeadAll(p, s.ss, vars1), DirectAll(s.ss, vars1));
  }

  lemma LeaveLed(p: Policy, b: Builder, r: Builder, lead: int, direct: bool)
    requires Open(b) && Sound(r) && r.scopes != [] && Led(b, r, lead, direct)
    ensures Led(b, LeaveBlock(p, r), lead, direct)
  {
    hide InBounds, Net;
    assert SameFlow(r.blocks[b.cur.value], LeaveBlock(p, r).blocks[b.cur.value]);
  }

  lemma {:induction false} LeadLowerAll(p: Policy, b: Builder, ss: seq<Stmt>, anew: bool, vars: bool)
    requires Ready(b, vars) && WayOfAll(ss, vars) != Stays
    ensures Led(b, LowerSeq(p, b, ss, anew), LeadAll(p, ss, vars), DirectAll(ss, vars))
    decreases ss, 0
  {
    hide Lower, LowerSeq, Keeps, InBounds, Variables, Led, Added;
    var b1 := Lower(p, b, ss[0]);
    var r := LowerSeq(p, b, ss, anew);
    FirstOfSeq(p, b, ss, anew);
    if WayOf(ss[0], vars) == Stays {
      StaysReady(p, b, ss[0], vars);
      LeadLowerAll(p, b1, ss[1..], anew, vars);
      LedAfter(p, b, ss[0], vars, b1, r, LeadAll(p, ss[1..], vars), DirectAll(ss[1..], vars));
    } else {
      LeadLower(p, b, ss[0], vars);
      LedLater(b, b1, r, Lead(p, ss[0], vars), Direct(ss[0], vars));
    }
  }

  /** Behind a statement that stays nothing has changed but the contents of the block. */
  lemma StaysReady(p: Policy, b: Builder, s: Stmt, vars: bool)
    requires Ready(b, vars) && WayOf(s, vars) == Stays
    ensures Ready(Lower(p, b, s), vars)
  {
    hide Lower, Variables, InBounds;
    StaysLower(p, b, s, vars);
    StaysQuiet(p, s, vars);
    ReadyExtended(b, vars, Lower(p, b, s), Items(p, s, vars));
  }

  lemma LedAfter(p: Policy, b: Builder, s: Stmt, vars: bool, b1: Builder, r: Builder, lead: int, direct: bool)
    requires Ready(b, vars) && WayOf(s, vars) == Stays && b1 == Lower(p, b, s) && Open(b1) && Led(b1, r, lead, direct)
    ensures Led(b, r, lead, direct)
  {
    hide Lower, Variables, InBounds, Net, Items;
    StaysLower(p, b, s, vars);
    StaysNet(p, s, vars);
    NetConcat(b.blocks[b.cur.value].stmts, Items(p, s, vars));
  }

  /** The block in which cleaning up starts: how its depth moves, and whether it leads to the exit block by itself. */
  lemma {:induction false} LeadDefers(p: Policy, b: Builder, defers: seq<Stmt>)
    requires Ready(b, false) && b.exit.Some?
    ensures
      var (r, c) := (LowerDefers(p, b, defers), b.cur.value);
      && c < |r.blocks| && Net(r.blocks[c].stmts) == Net(b.blocks[c].stmts) + DefersLead(p, defers)
      && (b.exit.value in r.blocks[c].succs <==> DefersDirect(defers))
    decreases |defers|
  {
    hide Lower, InBounds, Keeps, Variables, Net, Lead, Direct;
    if defers != [] {
      var (d, others) := (defers[|defers| - 1], defers[..|defers| - 1]);
      var b1 := Lower(p, b, d);
      if WayOf(d, false) == Stays {
        StaysReady(p, b, d, false);
        StaysMore(p, b, d);
        LeadDefers(p, b1, others);
      } else {
        LeadLower(p, b, d, false);
        LedLater(b, b1, LowerDefers(p, b1, others), Lead(p, d, false), Direct(d, false));
      }
    }
  }

  lemma StaysMore(p: Policy, b: Builder, s: Stmt)
    requires Ready(b, false) && WayOf(s, false) == Stays
    ensures
      var (r, c) := (Lower(p, b, s), b.cur.value);
      r.cur == b.cur && r.exit == b.exit && c < |r.blocks| && Net(r.blocks[c].stmts) == Net(b.blocks[c].stmts)
  {
    hide Lower, Variables, InBounds, Net, Items;
    StaysLower(p, b, s, false);
    StaysNet(p, s, false);
    NetConcat(b.blocks[b.cur.value].stmts, Items(p, s, false));
  }

  // ----- depths of the cleaning up, both ways -----

  lemma {:induction false} LevelDefers(p: Policy, b: Builder, defers: seq<Stmt>, d: seq<int>, k: int, ret: int) returns (e: seq<int>)
    requires Sound(b) && Bare(b) && AtLevel(b, d, k, ret) && DefersFit(p, defers, k, ret)
    ensures d <= e && After(LowerDefers(p, b, defers), e, k, DefersFall(defers), ret)
    decreases |defers|
  {
    hide LevelAt, Lower, InBounds, Keeps, Fits;
    e := d;
    LabelCount(b, d, k, ret);
    if defers != [] {
      var (s, others) := (defers[|defers| - 1], defers[..|defers| - 1]);
      var b1 := Lower(p, b, s);
      assert DepthsOf(b, d, ret) == Nowhere(ret);
      e := LevelLower(p, b, s, d, k, ret);
      LabelsCount(b1, e, k, Falls(s), ret);
      if Falls(s) {
        e := LevelDefers(p, b1, others, e, k, ret);
      } else {
        e := DeadGrows(b1, LowerDefers(p, b1, others), e, ret);
      }
    }
  }

  lemma {:induction false} NeededDefers(p: Policy, b: Builder, defers: seq<Stmt>, g: Blocks, e: seq<int>, k: int, ret: int)
    requires Sound(b) && b.cur.Some? && Bare(b) && Context(b, LowerDefers(p, b, defers), g, e, k, Nowhere(ret))
    ensures DefersFit(p, defers, k, ret)
    decreases |defers|
  {
    hide Lower, Sealed, LevelAt, InBounds, Keeps, Fits;
    if defers != [] {
      var (s, others) := (defers[|defers| - 1], defers[..|defers| - 1]);
      var b1 := Lower(p, b, s);
      var r := LowerDefers(p, b1, others);
      SealedSplit(b, b1, r, g);
      ExitAtBefore(b1, r, e, ret);
      Needed(p, b, s, g, e, k, Nowhere(ret));
      if Falls(s) { NeededDefers(p, b1, others, g, e, k, ret); }
    }
  }

  lemma {:induction false} StaysFits(p: Policy, s: Stmt, vars: bool, k: int, t: Depths)
    requires WayOf(s, vars) == Stays
    ensures Fits(p, s, k, t) && Falls(s)
    decreases s, 1
  {
    match s
    case Compound(ss) => AllStayFit(p, ss, vars, k, t);
    case Block(lets, ss) => AllStayFit(p, ss, vars || lets != [], if p.scopeCalls then k + 1 else k, t);
    case _ =>
  }

  lemma {:induction false} AllStayFit(p: Policy, ss: seq<Stmt>, vars: bool, k: int, t: Depths)
    requires WayOfAll(ss, vars) == Stays
    ensures FitsAll(p, ss, k, t) && FallsAll(ss)
    decreases ss, 0
  {
    if ss != [] {
      StaysFits(p, ss[0], vars, k, t);
      AllStayFit(p, ss[1..], vars, k, t);
    }
  }

  /** Nothing before such a RETURN can fail to fit, and nothing behind it is reached. */
  lemma {:induction false} DirectFits(p: Policy, s: Stmt, vars: bool, k: int, t: Depths)
    requires WayOf(s, vars) != Stays && Direct(s, vars) && k + Lead(p, s, vars) == t.ret
    ensures Fits(p, s, k, t) && !Falls(s)
    decreases s, 1
  {
    match s
    case Compound(ss) => DirectFitsAll(p, ss, vars, k, t);
    case Block(lets, ss) => DirectFitsAll(p, ss, vars || lets != [], if p.scopeCalls then k + 1 else k, t);
    case _ =>
  }

  lemma {:induction false} DirectFitsAll(p: Policy, ss: seq<Stmt>, vars: bool, k: int, t: Depths)
    requires WayOfAll(ss, vars) != Stays && DirectAll(ss, vars) && k + LeadAll(p, ss, vars) == t.ret
    ensures FitsAll(p, ss, k, t) && !FallsAll(ss)
    decreases ss, 0
  {
    if WayOf(ss[0], vars) == Stays {
      StaysFits(p, ss[0], vars, k, t);
      DirectFitsAll(p, ss[1..], vars, k, t);
    } else {
      DirectFits(p, ss[0], vars, k, t);
    }
  }

  lemma {:induction false} DirectDefersFit(p: Policy, defers: seq<Stmt>, k: int)
    requires DefersDirect(defers) && k + DefersLead(p, defers) == 0
    ensures DefersFit(p, defers, k, 0)
    decreases |defers|
  {
    var (d, others) := (defers[|defers| - 1], defers[..|defers| - 1]);
    if WayOf(d, false) == Stays {
      StaysFits(p, d, false, k, Nowhere(0));
      DirectDefersFit(p, others, k);
    } else {
      DirectFits(p, d, false, k, Nowhere(0));
    }
  }

  // ----- the finished graph -----

  /**
    The finished graph g of a function with blocks b after its deferred statements: a way to the exit block x
    is a way to the cleanup block c, but for the ways from c, which has one more of them.
   */
  ghost predicate Rewired(b: Blocks, g: Blocks, x: nat, c: nat) {
    && x < c < |b| == |g| && InRange(b) && SameFlow(b[x], EMPTY_BLOCK)
    && (forall u :: 0 <= u < |g| ==> g[u].stmts == b[u].stmts)
    && g[c].succs == b[c].succs + [x]
    && forall u :: 0 <= u < |g| && u != c ==>
      if x in b[u].succs then b[u].succs == [x] && g[u].succs == [c] else g[u].succs == b[u].succs
  }

  lemma FunctionRewired(p: Policy, s: Stmt)
    requires BuildBody(p, s).exit.Some? && DefersOf(s) != []
    ensures
      var (b, b1) := (BuildBody(p, s), CleanupStart(p, s));
      var b2 := LowerDefers(p, b1, DefersOf(s));
      && Rewired(b2.blocks, BuildFunction(p, s).0, b.exit.value, |b.blocks|) && b2.exit == b.exit
      && (b.exit.value in b2.blocks[|b.blocks|].succs ==> b2.blocks[|b.blocks|].succs == [b.exit.value])
      && forall u :: 0 <= u < |b.blocks| ==> SameFlow(b.blocks[u], b2.blocks[u])
  {
    hide BuildBody, Lower, Rewire, LowerDefers, Mirrored;
    BodyCollects(p, s);
    var b := BuildBody(p, s);
    var (x, c) := (b.exit.value, |b.blocks|);
    var b1 := CleanupStart(p, s);
    CleanupStartIs(p, s);
    BodyExit(p, s);
    LinkedDefers(p, b1, b.defers);
    var b2 := LowerDefers(p, b1, b.defers);
    AddEdgeConsistent(b2.blocks, c, x);
    var g := AddEdge(b2.blocks, c, x);
    forall u | 0 <= u < |g|
      ensures u == c || (x in g[u].succs ==> g[u].succs == [x])
      ensures Rewire(g, x, c)[u].succs == if u != c && x in g[u].succs then [c] else g[u].succs
    {
      RewiredSuccs(g, x, c, u);
    }
  }

  lemma EdgeLevel(g: Blocks, e: seq<int>, u: nat, v: nat)
    requires Levels(g, e) && u < |g| && e[u] >= 0 && v in g[u].succs
    ensures v < |e| && e[v] == e[u] + Net(g[u].stmts) >= 0
  {
    var i :| 0 <= i < |g[u].succs| && g[u].succs[i] == v;
    Entered(g, e, u, i);
  }

  lemma EdgesLevel(g: Blocks, e: seq<int>, u: nat)
    requires |e| == |g| && u < |g| && Steady(g[u].stmts, e[u])
    requires forall v :: v in g[u].succs ==> v < |g| && e[v] == e[u] + Net(g[u].stmts)
    ensures LevelAt(g, e, u)
  {
    assert forall i :: 0 <= i < |g[u].succs| ==> g[u].succs[i] in g[u].succs;
  }

  lemma StepsSteady(g: Blocks, e: seq<int>, u: nat)
    requires Levels(g, e) && u < |g| && e[u] >= 0
    ensures Steady(g[u].stmts, e[u])
  {
    assert LevelAt(g, e, u);
  }

  /** Depths of the body when no path leaves it: the cleaning up is never reached. */
  lemma UnleftLevels(body: Blocks, b: Blocks, g: Blocks, x: nat, c: nat, d: seq<int>)
    requires Rewired(b, g, x, c) && |body| == c && (forall u :: 0 <= u < c ==> SameFlow(body[u], b[u]))
    requires Levels(body, d) && d[x] < 0
    ensures Levels(g, d + Flat(|g| - c, -1))
  {
    hide LevelAt, InRange;
    var e := d + Flat(|g| - c, -1);
    forall u | 0 <= u < |g| ensures LevelAt(g, e, u) {
      if u < c && d[u] >= 0 {
        StepsSteady(body, d, u);
        forall v | v in g[u].succs ensures v < |g| && e[v] == e[u] + Net(g[u].stmts) {
          if x in b[u].succs { EdgeLevel(body, d, u, x); } else { EdgeLevel(body, d, u, v); }
        }
        EdgesLevel(g, e, u);
      } else {
        DeadLevel(g, e, u);
      }
    }
  }

  lemma DeadLevel(g: Blocks, e: seq<int>, u: nat)
    requires |e| == |g| && u < |g| && e[u] < 0
    ensures LevelAt(g, e, u)
  {
  }

  /** Depths before the rewiring, where every way to the exit block is as deep as the cleanup block. */
  lemma LeftLevels(b: Blocks, g: Blocks, x: nat, c: nat, e: seq<int>)
    requires Rewired(b, g, x, c) && Levels(b, e) && e[x] == e[c] >= 0
    requires x !in b[c].succs && e[c] + Net(b[c].stmts) == 0
    ensures Levels(g, e[x := 0])
  {
    hide LevelAt, InRange, Net, Steady;
    var e1 := e[x := 0];
    forall u | 0 <= u < |g| ensures LevelAt(g, e1, u) {
      if e[u] >= 0 {
        if u == x { NetZero([], 0); } else { StepsSteady(b, e, u); }
        forall v | v in g[u].succs ensures v < |g| && e1[v] == e1[u] + Net(g[u].stmts) {
          if u != c && x in b[u].succs { EdgeLevel(b, e, u, x); }
          else if v in b[u].succs { EdgeLevel(b, e, u, v); }
        }
        EdgesLevel(g, e1, u);
      } else {
        DeadLevel(g, e1, u);
      }
    }
  }

  /** The cleanup block ends in a RETURN: nothing behind it is reached. */
  lemma DirectLevels(body: Blocks, b: Blocks, g: Blocks, x: nat, c: nat, d: seq<int>, k: int)
    requires Rewired(b, g, x, c) && |body| == c && (forall u :: 0 <= u < c ==> SameFlow(body[u], b[u]))
    requires Levels(body, d) && d[x] == k && Steady(b[c].stmts, k) && k + Net(b[c].stmts) == 0 && forall v :: v in b[c].succs ==> v == x
    ensures Levels(g, d[x := 0] + [k] + Flat(|g| - c - 1, -1))
  {
    hide LevelAt, InRange, Net, Steady;
    var e := d[x := 0] + [k] + Flat(|g| - c - 1, -1);
    forall u | 0 <= u < |g| ensures LevelAt(g, e, u) {
      if u == c {
        EdgesLevel(g, e, u);
      } else if u == x {
        NetZero([], 0);
        EdgesLevel(g, e, u);
      } else if u < c && d[u] >= 0 {
        StepsSteady(body, d, u);
        forall v | v in g[u].succs ensures v < |g| && e[v] == e[u] + Net(g[u].stmts) {
          if x in b[u].succs { EdgeLevel(body, d, u, x); } else { EdgeLevel(body, d, u, v); }
        }
        EdgesLevel(g, e, u);
      } else {
        DeadLevel(g, e, u);
      }
    }
  }

  /** Depths of the finished graph, as depths of the body: its exit block is as deep as the cleanup block. */
  lemma BodyLevels(body: Blocks, b: Blocks, g: Blocks, x: nat, c: nat, e: seq<int>)
    requires Rewired(b, g, x, c) && |body| == c && InRange(body) && (forall u :: 0 <= u < c ==> SameFlow(body[u], b[u])) && Levels(g, e)
    ensures Levels(body, e[..c][x := e[c]])
  {
    hide LevelAt, Net, Steady, InRange;
    var d := e[..c][x := e[c]];
    forall u | 0 <= u < c ensures LevelAt(body, d, u) {
      if d[u] >= 0 {
        if u == x { NetZero([], d[u]); } else { StepsSteady(g, e, u); }
        forall v | v in body[u].succs ensures v < |body| && d[v] == d[u] + Net(body[u].stmts) {
          BranchInside(body, u);
          if x in b[u].succs { EdgeLevel(g, e, u, c); } else { EdgeLevel(g, e, u, v); }
        }
        EdgesLevel(body, d, u);
      } else {
        DeadLevel(body, d, u);
      }
    }
  }

  /** And as depths of the graph before the rewiring. */
  lemma CleanupLevels(b: Blocks, g: Blocks, x: nat, c: nat, e: seq<int>)
    requires Rewired(b, g, x, c) && Levels(g, e) && e[c] >= 0 && x !in b[c].succs
    ensures Levels(b, e[x := e[c]])
  {
    hide LevelAt, Net, Steady, InRange;
    var d := e[x := e[c]];
    forall u | 0 <= u < |b| ensures LevelAt(b, d, u) {
      if d[u] >= 0 {
        if u == x { NetZero([], d[u]); } else { StepsSteady(g, e, u); }
        forall v | v in b[u].succs ensures v < |b| && d[v] == d[u] + Net(b[u].stmts) {
          if x in b[u].succs { EdgeLevel(g, e, u, c); } else { EdgeLevel(g, e, u, v); }
        }
        EdgesLevel(b, d, u);
      } else {
        DeadLevel(b, d, u);
      }
    }
  }

  // ----- the function -----

  /** A body that is left: depths of the whole function from depths of its body. */
  lemma LeftFunction(p: Policy, s: Stmt, ret: int, d: seq<int>) returns (e: seq<int>)
    requires DefersOf(s) != [] && BuildBody(p, s).exit.Some? && ret >= 0 && CleanupFits(p, DefersOf(s), ret)
    requires var b := BuildBody(p, s); Levels(b.blocks, d) && d[b.exit.value] == ret
    ensures var (g, exit) := BuildFunction(p, s); Levels(g, e) && e[0] == d[0] && e[exit.value] == 0
  {
    hide BuildBody, BuildFunction, LowerDefers, LevelAt, Rewired, Net, Steady, InBounds, Variables, DefersFit, DefersDirect, DefersLead;
    var (b, b1, g) := (BuildBody(p, s), CleanupStart(p, s), BuildFunction(p, s).0);
    var (x, c, defers) := (b.exit.value, |b.blocks|, DefersOf(s));
    var b2 := LowerDefers(p, b1, defers);
    CleanupStartIs(p, s);
    CleanupReady(p, s);
    FunctionRewired(p, s);
    RewiredParts(b2.blocks, g, x, c);
    LeadDefers(p, b1, defers);
    BodyExit(p, s);
    NetZero([], 0);
    if DefersDirect(defers) {
      var d0 := Flat(c, -1)[x := 0];
      DeadBody(b.blocks, x, d0);
      LevelBlock(b.blocks, d0, ret);
      DirectDefersFit(p, defers, ret);
      var e1 := LevelDefers(p, b1, defers, d0 + [ret], ret, 0);
      LabelsCount(b2, e1, ret, DefersFall(defers), 0);
      StepsSteady(b2.blocks, e1, c);
      DirectLevels(b.blocks, b2.blocks, g, x, c, d, ret);
      e := d[x := 0] + [ret] + Flat(|g| - c - 1, -1);
    } else {
      LevelBlock(b.blocks, d, ret);
      var e1 := LevelDefers(p, b1, defers, d + [ret], ret, ret);
      LabelsCount(b2, e1, ret, DefersFall(defers), ret);
      LeftLevels(b2.blocks, g, x, c, e1);
      e := e1[x := 0];
    }
  }

  lemma RewiredParts(b: Blocks, g: Blocks, x: nat, c: nat)
    requires Rewired(b, g, x, c)
    ensures x < c < |b| == |g|
  {
  }

  lemma DeadBody(g: Blocks, x: nat, d: seq<int>)
    requires |d| == |g| && x < |g| && SameFlow(g[x], EMPTY_BLOCK) && d[x] >= 0 && forall u :: 0 <= u < |g| && u != x ==> d[u] < 0
    ensures Levels(g, d)
  {
  }

  lemma FunctionLevels(p: Policy, s: Stmt, ret: int) returns (e: seq<int>)
    requires FitsAt(p, s, ret)
    ensures var (g, exit) := BuildFunction(p, s); Levels(g, e) && e != [] && e[0] == 0 && (exit.Some? ==> e[exit.value] <= 0)
  {
    hide BuildBody, BuildFunction, LevelAt, Rewired, Fits, Falls, CleanupFits, DefersOf;
    var (b, g) := (BuildBody(p, s), BuildFunction(p, s).0);
    e := LevelBody(p, s, ret);
    BodyCollects(p, s);
    if b.defers == [] || b.exit.None? {
      UndeferredFunction(p, s);
      if b.defers == [] { NoCleanupFits(p, ret); }
    } else if ret < 0 {
      FunctionRewired(p, s);
      BodyExit(p, s);
      UnleftLevels(b.blocks, LowerDefers(p, CleanupStart(p, s), b.defers).blocks, g, b.exit.value, |b.blocks|, e);
      RewiredParts(LowerDefers(p, CleanupStart(p, s), b.defers).blocks, g, b.exit.value, |b.blocks|);
      e := e + Flat(|g| - |b.blocks|, -1);
    } else {
      e := LeftFunction(p, s, ret, e);
    }
  }

  lemma NoCleanupFits(p: Policy, k: int)
    ensures CleanupFits(p, [], k) <==> k == 0
  {
  }

  /** Depths of the finished graph tell at which depth the body is left, and that everything fits. */
  lemma FunctionNeeded(p: Policy, s: Stmt, e: seq<int>) returns (ret: int)
    requires var (g, exit) := BuildFunction(p, s); Levels(g, e) && e != [] && e[0] == 0 && (exit.Some? ==> e[exit.value] <= 0)
    ensures FitsAt(p, s, ret)
  {
    hide BuildBody, BuildFunction, LevelAt, Rewired, Fits, Falls, CleanupFits, DefersOf;
    var (b, g) := (BuildBody(p, s), BuildFunction(p, s).0);
    BodyCollects(p, s);
    if b.defers == [] || b.exit.None? {
      UndeferredFunction(p, s);
      ret := if b.exit.Some? && e[b.exit.value] >= 0 then 0 else -1;
      BodyNeeded(p, s, e, ret);
      NoCleanupFits(p, ret);
    } else {
      var (x, c) := (b.exit.value, |b.blocks|);
      FunctionRewired(p, s);
      BodyExit(p, s);
      LinkedBody(p, s);
      RewiredParts(LowerDefers(p, CleanupStart(p, s), b.defers).blocks, g, x, c);
      BodyLevels(b.blocks, LowerDefers(p, CleanupStart(p, s), b.defers).blocks, g, x, c, e);
      ret := if e[c] >= 0 then e[c] else -1;
      BodyNeeded(p, s, e[..c][x := e[c]], ret);
      if ret >= 0 { CleanupNeeded(p, s, e); }
    }
  }

  lemma CleanupNeeded(p: Policy, s: Stmt, e: seq<int>)
    requires DefersOf(s) != [] && BuildBody(p, s).exit.Some?
    requires var (g, exit) := BuildFunction(p, s); Levels(g, e) && e[exit.value] <= 0
    requires |BuildBody(p, s).blocks| < |e| && e[|BuildBody(p, s).blocks|] >= 0
    ensures CleanupFits(p, DefersOf(s), e[|BuildBody(p, s).blocks|])
  {
    hide BuildBody, BuildFunction, LowerDefers, LevelAt, InBounds, Net, Steady, Variables, DefersFit, DefersDirect, DefersLead, InRange;
    var (b, b1, g) := (BuildBody(p, s), CleanupStart(p, s), BuildFunction(p, s).0);
    var (x, c, defers) := (b.exit.value, |b.blocks|, DefersOf(s));
    var b2 := LowerDefers(p, b1, defers);
    var k := e[c];
    CleanupStartIs(p, s);
    CleanupReady(p, s);
    FunctionRewired(p, s);
    LeadDefers(p, b1, defers);
    NetZero([], 0);
    EdgeLevel(g, e, c, x);
    if !DefersDirect(defers) {
      CleanupLevels(b2.blocks, g, x, c, e);
      NeededDefers(p, b1, defers, b2.blocks, e[x := k], k, k) by { AllSealed(b1, b2); }
    }
  }

  lemma AllSealed(a: Builder, b: Builder)
    ensures Sealed(a, b, b.blocks)
  {
  }

  /**
    For every function, whatever it defers: its scope calls balance on every path if and only if every jump that
    is reached, in the body and in the deferred statements, stands where its one scope-exit call is right, all
    RETURNs of the body at one depth, and the cleanup block leaves as many scopes as are open there.
   */
  lemma BalancedExactly(p: Policy, s: Stmt)
    ensures var (g, exit) := BuildFunction(p, s); Balanced(g, exit) <==> FunctionFits(p, s)
  {
    hide LevelAt, BuildFunction, Balanced, FitsAt;
    var (g, exit) := BuildFunction(p, s);
    if FunctionFits(p, s) {
      var e := FunctionLevels(p, s, if Falls(s) then 0 else FirstReturn(p, s, 0));
      LevelsBalance(g, exit, e);
    }
    if Balanced(g, exit) {
      FunctionConsistent(p, s);
      var e := BalanceLevels(g, exit);
      var ret := FunctionNeeded(p, s, e);
      FitsAtFirst(p, s, ret);
    }
  }

  // ----- no jumps at all -----

  predicate JumpFree(s: Stmt)
    decreases s, 1
  {
    match s
    case If(c, thn) => JumpFree(thn)
    case Test(c, thn, els) => JumpFree(thn) && JumpFree(els)
    case While(c, body) => JumpFree(body)
    case For(v, start, limit, step, body) => JumpFree(body)
    case Switchon(e, cases, dflt) => JumpFreeCases(cases) && (dflt.Some? ==> JumpFree(dflt.value))
    case Compound(ss) => JumpFreeAll(ss)
    case Block(lets, ss) => JumpFreeAll(ss)
    case Break => false
    case Loop => false
    case Endcase => false
    case Return => false
    case _ => true
  }

  predicate JumpFreeAll(ss: seq<Stmt>)
    decreases ss, 0
  {
    ss == [] || (JumpFree(ss[0]) && JumpFreeAll(ss[1..]))
  }

  predicate JumpFreeCases(cases: seq<Case>)
    decreases cases, 0
  {
    cases == [] || (assert cases[0].command < cases[0]; JumpFree(cases[0].command) && JumpFreeCases(cases[1..]))
  }

  lemma {:induction false} JumpFreeFits(p: Policy, s: Stmt, k: int, t: Depths)
    requires JumpFree(s)
    ensures Fits(p, s, k, t)
    decreases s, 1
  {
    match s
    case If(c, thn) => JumpFreeFits(p, thn, k, t);
    case Test(c, thn, els) =>
      JumpFreeFits(p, thn, k, t);
      JumpFreeFits(p, els, k, t);
    case While(c, body) => JumpFreeFits(p, body, k, t.(brk := Some(k), loop := Some(k)));
    case For(v, start, limit, step, body) => JumpFreeFits(p, body, k, t.(brk := Some(k), loop := Some(k)));
    case Switchon(e, cases, dflt) =>
      JumpFreeFitsCases(p, cases, k, t.(endcase := Some(k)));
      if dflt.Some? { JumpFreeFits(p, dflt.value, k, t.(endcase := Some(k))); }
    case Compound(ss) => JumpFreeFitsAll(p, ss, k, t);
    case Block(lets, ss) => JumpFreeFitsAll(p, ss, if p.scopeCalls then k + 1 else k, t);
    case _ =>
  }

  lemma {:induction false} JumpFreeFitsAll(p: Policy, ss: seq<Stmt>, k: int, t: Depths)
    requires JumpFreeAll(ss)
    ensures FitsAll(p, ss, k, t)
    decreases ss, 0
  {
    if ss != [] {
      JumpFreeFits(p, ss[0], k, t);
      JumpFreeFitsAll(p, ss[1..], k, t);
    }
  }

  lemma {:induction false} JumpFreeFitsCases(p: Policy, cases: seq<Case>, k: int, t: Depths)
    requires JumpFreeCases(cases)
    ensures FitsCases(p, cases, k, t)
    decreases cases, 0
  {
    if cases != [] {
      assert cases[0].command < cases[0];
      JumpFreeFits(p, cases[0].command, k, t);
      JumpFreeFitsCases(p, cases[1..], k, t);
    }
  }

  lemma {:induction false} JumpFreeFalls(s: Stmt)
    requires JumpFree(s)
    ensures Falls(s) && forall vars :: !Direct(s, vars)
    decreases s, 1
  {
    match s
    case Test(_, thn, _) => JumpFreeFalls(thn);
    case Compound(ss) => JumpFreeFallsAll(ss);
    case Block(_, ss) => JumpFreeFallsAll(ss);
    case _ =>
  }

  lemma {:induction false} JumpFreeFallsAll(ss: seq<Stmt>)
    requires JumpFreeAll(ss)
    ensures FallsAll(ss) && forall vars :: !DirectAll(ss, vars)
    decreases ss, 0
  {
    if ss != [] {
      JumpFreeFalls(ss[0]);
      JumpFreeFallsAll(ss[1..]);
    }
  }

  lemma {:induction false} JumpFreeDefers(p: Policy, defers: seq<Stmt>)
    requires forall i :: 0 <= i < |defers| ==> JumpFree(defers[i])
    ensures !DefersDirect(defers) && DefersFit(p, defers, 0, 0)
    decreases |defers|
  {
    if defers != [] {
      var n := |defers| - 1;
      JumpFreeFits(p, defers[n], 0, Nowhere(0));
      JumpFreeFalls(defers[n]);
      JumpFreeDefers(p, defers[..n]);
    }
  }

  /** Without any jump a function balances if and only if its cleaning up does not branch inside a block. */
  lemma JumpFreeBalanced(p: Policy, s: Stmt)
    requires JumpFree(s) && forall i :: 0 <= i < |DefersOf(s)| ==> JumpFree(DefersOf(s)[i])
    ensures var (g, exit) := BuildFunction(p, s); Balanced(g, exit) <==> DefersLead(p, DefersOf(s)) == 0
  {
    hide Balanced, BuildFunction, Fits, JumpFree, DefersLead;
    BalancedExactly(p, s);
    JumpFreeFits(p, s, 0, Nowhere(0));
    JumpFreeFalls(s);
    JumpFreeDefers(p, DefersOf(s));
  }

  /** DEFER IF c DO f() balances; DEFER $( LET v; IF c DO f() $) leaves the scope of its block open. */
  lemma DeferredIf(p: Policy, c: Expr, f: nat, v: string)
    requires p.scopeCalls
    ensures
      var d := If(c, Call(f, []));
      var (one, other) := (BuildFunction(p, Defer(d)), BuildFunction(p, Defer(Block([Let(v, None)], [d]))));
      Balanced(one.0, one.1) && !Balanced(other.0, other.1)
  {
    var d := If(c, Call(f, []));
    hide Balanced, BuildFunction, JumpFreeAll, WayOfAll, LeadAll;
    OneFork(p, d);
    OneDeferred(p, d);
    OneDeferred(p, Block([Let(v, None)], [d]));
  }

  lemma OneDeferred(p: Policy, d: Stmt)
    requires JumpFree(d) && WayOf(d, false) != Stays
    ensures var (g, exit) := BuildFunction(p, Defer(d)); Balanced(g, exit) <==> Lead(p, d, false) == 0
  {
    hide Balanced, BuildFunction, Lead;
    JumpFreeBalanced(p, Defer(d));
  }

  lemma OneFork(p: Policy, d: Stmt)
    requires d.If? && JumpFree(d)
    ensures JumpFreeAll([d]) && WayOfAll([d], true) == Forks && LeadAll(p, [d], true) == 0
  {
    assert [d][1..] == [] && JumpFreeAll([]);
    assert [d][0] == d && Lead(p, d, true) == 0;
  }
}
