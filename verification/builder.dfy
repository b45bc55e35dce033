/**
  The visitors of the control-flow builder, updating its fields in place. What each does to the
  builder's state is exactly the function of the same construct in Lowering.
 */
module CfgBuilding {
  import opened Wrappers
  import opened Syntax
  import opened Graph
  import opened Lowering
  import opened Links
  import opened Functions
  import opened DeferredStatements
  import opened Deferral

  class CfgBuilder {
    const policy: Policy
    var blocks: Blocks
    var cur: Option<nat>
    var breaks: seq<nat>
    var loops: seq<nat>
    var endcases: seq<nat>
    var exit: Option<nat>
    var scopes: seq<seq<string>>
    var defers: seq<Stmt>

    ghost function State(): Builder
      reads this
    {
      Builder(blocks, cur, breaks, loops, endcases, exit, scopes, defers)
    }

    /** A builder about to visit a function's body: nothing but the entry block. */
    constructor (policy: Policy)
      ensures this.policy == policy && State() == START
    {
      this.policy := policy;
      blocks, cur := [EMPTY_BLOCK], Some(0);
      breaks, loops, endcases := [], [], [];
      exit, scopes, defers := None, [], [];
    }

    method CreateBlock() returns (id: nat)
      modifies this`blocks
      ensures id == |old(blocks)| && blocks == old(blocks) + [EMPTY_BLOCK]
    {
      id := |blocks|;
      blocks := blocks + [EMPTY_BLOCK];
    }

    method Connect(u: nat, v: nat)
      requires u < |blocks| && v < |blocks|
      modifies this`blocks
      ensures blocks == AddEdge(old(blocks), u, v)
    {
      blocks := blocks[u := blocks[u].(succs := blocks[u].succs + [v])];
      blocks := blocks[v := blocks[v].(preds := blocks[v].preds + [u])];
    }

    method Append(i: nat, item: Item)
      requires i < |blocks|
      modifies this`blocks
      ensures blocks == AddStatement(old(blocks), i, item)
    {
      blocks := blocks[i := blocks[i].(stmts := blocks[i].stmts + [item])];
    }

    method EnsureBlock()
      requires Sound(State())
      modifies this`blocks, this`cur
      ensures State() == Ensure(old(State()))
    {
      if cur.None? {
        var id := CreateBlock();
        cur := Some(id);
      }
    }

    /** Falls through to `target` if the current block is still open. */
    method FallInto(target: nat)
      requires Sound(State()) && target < |blocks|
      modifies this`blocks
      ensures State().(cur := None) == Close(old(State()), target, None)
      ensures forall next :: Pending(old(State()), next) ==> State().(cur := Some(next)) == Close(old(State()), target, Some(next))
    {
      if cur.Some? && !EndsWithControlFlow(blocks[cur.value]) {
        Connect(cur.value, target);
      }
    }

    // ----- leaving scopes early -----

    method FreeAll(i: nat, vars: seq<string>)
      requires i < |blocks|
      modifies this`blocks
      ensures |blocks| == |old(blocks)|
      ensures blocks == old(blocks)[i := old(blocks)[i].(stmts := old(blocks)[i].stmts + Frees(policy, vars))]
    {
      var k := 0;
      assert vars[0..] == vars;
      while k < |vars|
        invariant 0 <= k <= |vars| && |blocks| == |old(blocks)|
        invariant blocks == old(blocks)[i := blocks[i]] && blocks[i].succs == old(blocks)[i].succs && blocks[i].preds == old(blocks)[i].preds
        invariant blocks[i].stmts + Frees(policy, vars[k..]) == old(blocks)[i].stmts + Frees(policy, vars)
      {
        assert vars[k..][0] == vars[k] && vars[k..][1..] == vars[k + 1..];
        if policy.legacy && vars[k] in policy.owners {
          var item := IFree(vars[k]);
          assert blocks[i].stmts + Frees(policy, vars[k..]) == blocks[i].stmts + [item] + Frees(policy, vars[k + 1..]);
          Append(i, item);
        }
        k := k + 1;
      }
      assert vars[k..] == [] && blocks[i].stmts + [] == blocks[i].stmts;
    }

    method GenerateCleanupChain() returns (last: nat)
      requires Sound(State()) && cur.Some?
      modifies this`blocks
      ensures (blocks, last) == CleanupChain(policy, old(blocks), scopes, cur.value)
    {
      hide Frees;
      last := cur.value;
      var k := |scopes|;
      assert scopes[..k] == scopes;
      while k > 0
        invariant 0 <= k <= |scopes|
        invariant last < |blocks| && blocks[last].succs == [] && !EndsWithControlFlow(blocks[last])
        invariant CleanupChain(policy, blocks, scopes[..k], last) == CleanupChain(policy, old(blocks), scopes, cur.value)
      {
        k := k - 1;
        ChainNext(policy, blocks, scopes, k, last);
        if scopes[k] != [] {
          last := CleanupBlock(last, scopes[k]);
        }
      }
    }

    /** The cleanup block of one scope, after block `last`. */
    method CleanupBlock(last: nat, vars: seq<string>) returns (id: nat)
      requires last < |blocks|
      modifies this`blocks
      ensures id == |old(blocks)| && blocks == AddEdge(old(blocks) + [BasicBlock(Frees(policy, vars), [], [])], last, id)
    {
      hide Frees;
      id := CreateBlock();
      Connect(last, id);
      FreeAll(id, vars);
      FilledLater(old(blocks), last, Frees(policy, vars));
    }

    /** Adds a statement to the current block. */
    method Put(item: Item)
      requires Sound(State()) && cur.Some? && !IsJump(item)
      modifies this`blocks
      ensures State() == Emit(old(State()), item)
    {
      Append(cur.value, item);
    }

    method VisitJump(item: Item, targets: seq<nat>)
      requires Sound(State()) && cur.Some? && IsJump(item) && targets in [breaks, loops, endcases]
      modifies this`blocks, this`cur
      ensures State() == Jump(policy, old(State()), item, targets)
    {
      hide Emit, CleanupChain, InBounds, Keeps;
      Put(IExitScope);
      var last := GenerateCleanupChain();
      Append(last, item);
      TargetExists(old(State()), targets);
      if targets != [] {
        Connect(last, Last(targets));
      }
      cur := None;
    }

    method VisitReturn()
      requires Sound(State()) && cur.Some?
      modifies this`blocks, this`cur, this`exit
      ensures State() == ReturnJump(policy, old(State()))
    {
      var last := GenerateCleanupChain();
      Append(last, IReturn);
      if exit.None? {
        var id := CreateBlock();
        exit := Some(id);
      }
      Connect(last, exit.value);
      cur := None;
    }

    // ----- statements -----

    method Visit(s: Stmt)
      requires Sound(State())
      modifies this
      ensures State() == Lower(policy, old(State()), s)
      decreases s, 2
    {
      hide LowerSeq, LowerBlock, LowerSwitch, LowerHere, Ensure, InBounds;
      match s
      case Compound(ss) => VisitSeq(ss, true);
      case Block(lets, ss) => VisitBlock(s);
      case Switchon(e, cases, dflt) => VisitSwitchon(s);
      case Defer(d) => defers := defers + [d];
      case _ =>
        EnsureBlock();
        VisitHere(s);
    }

    method VisitHere(s: Stmt)
      requires Sound(State()) && cur.Some? && !s.Compound? && !s.Block? && !s.Switchon? && !s.Defer?
      modifies this
      ensures State() == LowerHere(policy, old(State()), s)
      decreases s, 1
    {
      hide Emit, Jump, ReturnJump, LowerIf, LowerTest, LowerWhile, LowerFor, InBounds;
      match s
      case Assign(x, e) => Put(IAssign(x, e));
      case Call(f, args) => Put(ICall(f, args));
      case If(c, thn) => VisitIf(s);
      case Test(c, thn, els) => VisitTest(s);
      case While(c, body) => VisitWhile(s);
      case For(v, start, limit, step, body) =>
        Put(IAssign(v, start));
        VisitFor(s);
      case Break => VisitJump(IBreak, breaks);
      case Loop => VisitJump(ILoop, loops);
      case Endcase => VisitJump(IEndcase, endcases);
      case Return => VisitReturn();
    }

    method BeginIf(c: Expr) returns (join: nat)
      requires Sound(State()) && cur.Some?
      modifies this`blocks, this`cur
      ensures State() == OpenIf(old(State()), c) && join == |old(blocks)| + 1
    {
      hide InBounds;
      var condition := cur.value;
      Append(condition, IIf(c));
      ghost var g := blocks;
      var thenBlock := CreateBlock();
      join := CreateBlock();
      assert blocks == AddBlocks(g, 2);
      Connect(condition, thenBlock);
      Connect(condition, join);
      cur := Some(thenBlock);
    }

    method VisitIf(s: Stmt)
      requires Sound(State()) && cur.Some? && s.If?
      modifies this
      ensures State() == LowerIf(policy, old(State()), s)
      decreases s, 0
    {
      hide Lower, Close, OpenIf, InBounds;
      var join := BeginIf(s.c);
      ghost var b1 := State();
      Visit(s.thn);
      PendingGrows(b1, State(), join);
      FallInto(join);
      cur := Some(join);
    }

    method BeginTest(c: Expr) returns (elseBlock: nat, join: nat)
      requires Sound(State()) && cur.Some?
      modifies this`blocks, this`cur
      ensures State() == OpenTest(old(State()), c) && elseBlock == |old(blocks)| + 1 && join == elseBlock + 1
    {
      hide InBounds;
      var condition := cur.value;
      Append(condition, ITest(c));
      ghost var g := blocks;
      var thenBlock := CreateBlock();
      elseBlock := CreateBlock();
      join := CreateBlock();
      assert blocks == AddBlocks(g, 3);
      Connect(condition, thenBlock);
      Connect(condition, elseBlock);
      cur := Some(thenBlock);
    }

    method VisitTest(s: Stmt)
      requires Sound(State()) && cur.Some? && s.Test?
      modifies this
      ensures State() == LowerTest(policy, old(State()), s)
      decreases s, 0
    {
      hide Lower, Close, OpenTest, InBounds;
      var elseBlock, join := BeginTest(s.c);
      ghost var b1 := State();
      Visit(s.thn);
      ghost var b2 := State();
      PendingGrows(b1, b2, elseBlock);
      PendingGrows(b1, b2, join);
      FallInto(join);
      cur := Some(elseBlock);
      ghost var b3 := State();
      PendingClose(b2, join, Some(elseBlock), join);
      Visit(s.els);
      PendingGrows(b3, State(), join);
      FallInto(join);
      cur := Some(join);
    }

    /** The blocks of a loop: its header, its body, for a FOR the increment, and its exit. */
    method BeginLoop(test: Item, increment: bool) returns (header: nat, body: nat, next: nat, exitBlock: nat)
      requires Sound(State()) && cur.Some?
      modifies this`blocks
      ensures blocks == LoopBlocks(old(blocks), cur.value, test, if increment then 3 else 2)
      ensures header == |old(blocks)| && body == header + 1 && exitBlock == |blocks| - 1
      ensures next == if increment then header + 2 else header
    {
      hide Fork, InBounds;
      ghost var g := blocks;
      header := CreateBlock();
      assert blocks == AddBlocks(g, 1);
      Connect(cur.value, header);
      ghost var g1 := blocks;
      body := CreateBlock();
      next := header;
      if increment {
        next := CreateBlock();
      }
      exitBlock := CreateBlock();
      assert blocks == AddBlocks(g1, if increment then 3 else 2);
      Append(header, test);
      Branch(header, body, exitBlock);
    }

    method Branch(u: nat, t: nat, f: nat)
      requires u < |blocks| && t < |blocks| && f < |blocks| && blocks[u].succs == []
      modifies this`blocks
      ensures blocks == Fork(old(blocks), u, t, f)
    {
      Connect(u, t);
      Connect(u, f);
    }

    method EndLoop()
      requires Sound(State()) && breaks != [] && loops != []
      modifies this`breaks, this`loops
      ensures State() == PopTargets(old(State()))
    {
      loops := loops[..|loops| - 1];
      breaks := breaks[..|breaks| - 1];
    }

    method VisitWhile(s: Stmt)
      requires Sound(State()) && cur.Some? && s.While?
      modifies this
      ensures State() == LowerWhile(policy, old(State()), s)
      decreases s, 0
    {
      hide Lower, Close, LoopBlocks, InBounds;
      var header, body, next, exitBlock := BeginLoop(IWhile(s.c), false);
      breaks := breaks + [exitBlock];
      loops := loops + [next];
      cur := Some(body);
      ghost var b1 := State();
      assert b1 == OpenWhile(old(State()), s.c);
      hide OpenWhile;
      Visit(s.body);
      PendingGrows(b1, State(), exitBlock);
      FallInto(header);
      cur := Some(exitBlock);
      EndLoop();
    }

    method BeginFor(v: string, limit: Expr) returns (header: nat, increment: nat, exitBlock: nat)
      requires Sound(State()) && cur.Some?
      modifies this`blocks, this`cur, this`breaks, this`loops
      ensures State() == OpenFor(old(State()), v, limit)
      ensures header == |old(blocks)| && increment == header + 2 && exitBlock == header + 3
    {
      hide LoopBlocks, InBounds;
      var body;
      header, body, increment, exitBlock := BeginLoop(IFor(v, limit), true);
      breaks := breaks + [exitBlock];
      loops := loops + [increment];
      cur := Some(body);
    }

    method FinishFor(header: nat, increment: nat, exitBlock: nat, v: string, step: Option<Expr>)
      requires Sound(State()) && increment == header + 2 && exitBlock == header + 3 && breaks != [] && loops != []
      requires Pending(State(), increment) && Pending(State(), exitBlock)
      modifies this`blocks, this`cur, this`breaks, this`loops
      ensures State() == CloseFor(old(State()), header, v, step)
    {
      hide Close, InBounds, Emit;
      ghost var b := State();
      FallInto(increment);
      cur := Some(increment);
      PendingClose(b, increment, Some(increment), exitBlock);
      ghost var b1 := State();
      Put(IAssign(v, StepExpr(v, step)));
      PendingGrows(b1, State(), exitBlock);
      FallInto(header);
      cur := Some(exitBlock);
      EndLoop();
    }

    method VisitFor(s: Stmt)
      requires Sound(State()) && cur.Some? && s.For?
      modifies this
      ensures State() == LowerFor(policy, old(State()), s)
      decreases s, 0
    {
      hide Lower, Close, OpenFor, CloseFor, InBounds;
      var header, increment, exitBlock := BeginFor(s.v, s.limit);
      ghost var b1 := State();
      Visit(s.body);
      PendingGrows(b1, State(), increment);
      PendingGrows(b1, State(), exitBlock);
      FinishFor(header, increment, exitBlock, s.v, s.step);
    }

    method VisitSwitchon(s: Stmt)
      requires Sound(State()) && s.Switchon?
      modifies this
      ensures State() == LowerSwitch(policy, old(State()), s)
      decreases s, 1
    {
      hide Lower, LowerCases, LowerCase, OpenSwitch, SwitchCased, LowerDefault, InBounds;
      ghost var b := State();
      var join, first := VisitSwitchCases(s);
      ghost var b1 := State();
      VisitDefault(s.dflt, first + |s.cases|, join);
      KeepsCases(b, b1, State(), |b.blocks|, first + |s.cases|, first + CaseCount(s.cases, s.dflt));
      cur := Some(join);
      endcases := endcases[..|endcases| - 1];
    }

    method VisitSwitchCases(s: Stmt) returns (join: nat, first: nat)
      requires Sound(State()) && s.Switchon?
      modifies this
      ensures State() == SwitchCased(policy, old(State()), s) && join == |old(blocks)| + 1 && first == join + 1
      decreases s, 0
    {
      hide Lower, LowerCases, LowerCase, OpenSwitch, InBounds;
      var header;
      header, join, first := OpenCases(s.e, s.cases, s.dflt);
      VisitCases(s.cases, first, join);
    }

    method VisitDefault(dflt: Option<Stmt>, at: nat, join: nat)
      requires Sound(State()) && cur.None? && join < |blocks| && join != at && (dflt.Some? ==> Pending(State(), at))
      modifies this
      ensures State() == LowerDefault(policy, old(State()), dflt, at, join)
      decreases dflt, 0
    {
      hide LowerCase, InBounds;
      if dflt.Some? {
        VisitCase(dflt.value, at, join);
      }
    }

    method OpenCases(e: Expr, cases: seq<Case>, dflt: Option<Stmt>) returns (header: nat, join: nat, first: nat)
      requires Sound(State())
      modifies this`blocks, this`cur, this`endcases
      ensures State() == OpenSwitch(old(State()), e, cases, dflt)
      ensures header == |old(blocks)| && join == header + 1 && first == header + 2
    {
      hide Fan, InBounds, Emit, SplitBlock;
      header := SplitHere();
      Put(ISwitch(e, Values(cases), dflt.Some?));
      join, first := FanOut(header, CaseCount(cases, dflt));
    }

    method SplitHere() returns (header: nat)
      requires Sound(State())
      modifies this`blocks, this`cur
      ensures State() == SplitBlock(old(State())) && header == |old(blocks)|
    {
      header := CreateBlock();
      if cur.Some? {
        Connect(cur.value, header);
      }
      cur := Some(header);
    }

    /** The join, the blocks of the cases and of the default, and the edges from the header to all of them. */
    method FanOut(header: nat, count: nat) returns (join: nat, first: nat)
      requires Sound(State()) && cur == Some(header) && header + 1 == |blocks|
      modifies this`blocks, this`cur, this`endcases
      ensures State() == Fan(old(State()), count) && join == header + 1 && first == header + 2
    {
      hide InBounds;
      ghost var g := blocks;
      join := CreateBlock();
      endcases := endcases + [join];
      first := |blocks|;
      CreateBlocks(g, count);
      ConnectAll(header, first, count);
      Connect(header, join);
      cur := None;
    }

    method CreateBlocks(ghost g: Blocks, count: nat)
      requires blocks == g + [EMPTY_BLOCK]
      modifies this`blocks
      ensures blocks == AddBlocks(g, 1 + count)
    {
      var i := 0;
      while i < count
        invariant 0 <= i <= count && blocks == AddBlocks(g, 1 + i)
      {
        var id := CreateBlock();
        i := i + 1;
      }
    }

    method ConnectAll(u: nat, first: nat, count: nat)
      requires u < |blocks| && first + count <= |blocks|
      modifies this`blocks
      ensures blocks == AddEdges(old(blocks), u, first, count)
    {
      var i := 0;
      while i < count
        invariant 0 <= i <= count && |blocks| == |old(blocks)| && blocks == AddEdges(old(blocks), u, first, i)
      {
        Connect(u, first + i);
        i := i + 1;
      }
    }

    method VisitCases(cases: seq<Case>, first: nat, join: nat)
      requires Sound(State()) && cur.None? && join < first && first + |cases| <= |blocks|
      requires forall i :: first <= i < first + |cases| ==> Pending(State(), i)
      modifies this
      ensures State() == LowerCases(policy, old(State()), cases, first, join)
      decreases cases, 0
    {
      hide Lower, LowerCase;
      ghost var b := State();
      var i := 0;
      assert cases[0..] == cases;
      while i < |cases|
        invariant 0 <= i <= |cases|
        invariant Sound(State()) && cur.None? && first + |cases| <= |blocks|
        invariant forall j :: first + i <= j < first + |cases| ==> Pending(State(), j)
        invariant LowerCases(policy, State(), cases[i..], first + i, join) == LowerCases(policy, b, cases, first, join)
      {
        ghost var b1 := State();
        assert cases[i..][0] == cases[i] && cases[i..][1..] == cases[i + 1..];
        assert Pending(State(), first + i) && cases[i].command < cases[i];
        VisitCase(cases[i].command, first + i, join);
        PendingCases(b1, State(), first + i, first + |cases|);
        i := i + 1;
      }
    }

    method VisitCase(s: Stmt, at: nat, join: nat)
      requires Sound(State()) && cur.None? && join < |blocks| && Pending(State(), at) && join != at
      modifies this
      ensures State() == LowerCase(policy, old(State()), s, at, join)
      decreases s, 3
    {
      cur := Some(at);
      Visit(s);
      FallInto(join);
      cur := None;
    }

    method VisitSeq(ss: seq<Stmt>, anew: bool)
      requires Sound(State())
      modifies this
      ensures State() == LowerSeq(policy, old(State()), ss, anew)
      decreases ss, 0
    {
      hide Lower;
      ghost var b := State();
      var i := 0;
      assert ss[0..] == ss;
      while i < |ss|
        invariant 0 <= i <= |ss| && Sound(State())
        invariant LowerSeq(policy, State(), ss[i..], anew) == LowerSeq(policy, b, ss, anew)
      {
        assert ss[i..][0] == ss[i] && ss[i..][1..] == ss[i + 1..];
        if anew {
          EnsureBlock();
        }
        Visit(ss[i]);
        i := i + 1;
      }
    }

    method VisitLet(l: Let)
      requires Sound(State())
      modifies this`blocks, this`cur, this`scopes
      ensures State() == LowerLet(old(State()), l)
    {
      hide InBounds, Emit;
      EnsureBlock();
      if scopes != [] {
        scopes := scopes[..|scopes| - 1] + [Last(scopes) + [l.name]];
      }
      if l.init.Some? {
        Put(IAssign(l.name, l.init.value));
      }
    }

    method VisitLets(lets: seq<Let>)
      requires Sound(State())
      modifies this`blocks, this`cur, this`scopes
      ensures State() == LowerLets(old(State()), lets)
    {
      hide InBounds, LowerLet, Keeps;
      ghost var b := State();
      var i := 0;
      assert lets[0..] == lets;
      while i < |lets|
        invariant 0 <= i <= |lets| && Sound(State())
        invariant LowerLets(State(), lets[i..]) == LowerLets(b, lets)
      {
        assert lets[i..][0] == lets[i] && lets[i..][1..] == lets[i + 1..];
        VisitLet(lets[i]);
        i := i + 1;
      }
    }

    method VisitBlock(s: Stmt)
      requires Sound(State()) && s.Block?
      modifies this
      ensures State() == LowerBlock(policy, old(State()), s)
      decreases s, 0
    {
      hide LowerSeq, EnterBlock, LeaveBlock, InBounds, Keeps;
      Enter(s.lets);
      VisitSeq(s.ss, false);
      Leave();
    }

    method Enter(lets: seq<Let>)
      requires Sound(State())
      modifies this`blocks, this`cur, this`scopes
      ensures State() == EnterBlock(policy, old(State()), lets)
    {
      hide LowerLets, InBounds, Keeps, Emit, Ensure;
      if policy.scopeCalls {
        EnsureBlock();
        Put(IEnterScope);
      }
      scopes := scopes + [[]];
      VisitLets(lets);
    }

    /** The scope's frees and the exit call, when the function allocates and control gets here. */
    method Leave()
      requires Sound(State()) && scopes != []
      modifies this`blocks, this`scopes
      ensures State() == LeaveBlock(policy, old(State()))
    {
      hide InBounds, EmitAll;
      LeaveIs(policy, State());
      var vars := Last(scopes);
      scopes := scopes[..|scopes| - 1];
      if cur.Some? {
        if policy.scopeCalls && !EndsWithControlFlow(blocks[cur.value]) {
          FreeAll(cur.value, Reversed(vars));
          Append(cur.value, IExitScope);
          assert blocks[cur.value].stmts == old(blocks)[cur.value].stmts + LeaveItems(policy, Last(old(scopes)));
        } else {
          ExtendNone(State());
        }
      }
    }

    // ----- whole functions -----

    /** Visits a body, closes it with the exit block, and puts the deferred statements before that block. */
    method VisitFunction(body: Stmt)
      requires State() == START
      modifies this
      ensures blocks == BuildFunction(policy, body).0 && exit == BuildFunction(policy, body).1
    {
      hide Lower, FinishBody, CleanupStart, LowerDefers, Rewire, RewireAll, Consistent, Keeps, InBounds, WellLinked;
      SoundStart();
      Visit(body);
      Finish();
      ghost var b := State();
      assert b == BuildBody(policy, body);
      hide BuildBody;
      if defers != [] && exit.Some? {
        VisitCleanup(body);
      }
    }

    /** Control that falls off the end goes to the exit block. */
    method Finish()
      requires Sound(State())
      modifies this`blocks, this`exit
      ensures State() == FinishBody(old(State()))
    {
      hide InBounds;
      if cur.Some? && !EndsWithControlFlow(blocks[cur.value]) {
        if exit.None? {
          var id := CreateBlock();
          exit := Some(id);
        }
        Connect(cur.value, exit.value);
      }
    }

    method VisitCleanup(ghost body: Stmt)
      requires State() == BuildBody(policy, body) && defers != [] && exit.Some?
      modifies this
      ensures blocks == BuildFunction(policy, body).0 && exit == BuildFunction(policy, body).1
    {
      hide Lower, LowerDefers, Rewire, RewireAll, Consistent, InBounds, WellLinked, BuildBody, Keeps;
      ghost var b := State();
      var cleanup := CreateBlock();
      cur := Some(cleanup);
      ghost var b1 := State();
      assert b1 == CleanupStart(policy, body);
      VisitDefers(defers);
      LinkedDefers(policy, b1, b.defers);
      ExitKept(b1, State());
      assert Consistent(blocks) by { ConsistentLinked(State()); }
      hide CleanupStart;
      Divert(exit.value, cleanup);
    }

    /** The cleanup block is joined to the exit block, whose other predecessors are led to it. */
    method Divert(exitBlock: nat, cleanup: nat)
      requires exitBlock < |blocks| && cleanup < |blocks| && exitBlock != cleanup && Consistent(blocks)
      modifies this`blocks
      ensures Consistent(AddEdge(old(blocks), cleanup, exitBlock))
      ensures blocks == Rewire(AddEdge(old(blocks), cleanup, exitBlock), exitBlock, cleanup)
    {
      hide RewireAll, Mirrored;
      AddEdgeConsistent(blocks, cleanup, exitBlock);
      Connect(cleanup, exitBlock);
      RewireExit(exitBlock, cleanup);
    }

    method VisitDefers(deferred: seq<Stmt>)
      requires Sound(State())
      modifies this
      ensures State() == LowerDefers(policy, old(State()), deferred)
    {
      hide Lower;
      ghost var b := State();
      var k := |deferred|;
      assert deferred[..k] == deferred;
      while k > 0
        invariant 0 <= k <= |deferred| && Sound(State())
        invariant LowerDefers(policy, State(), deferred[..k]) == LowerDefers(policy, b, deferred)
      {
        ghost var left := deferred[..k];
        k := k - 1;
        assert left[|left| - 1] == deferred[k] && left[..|left| - 1] == deferred[..k];
        Visit(deferred[k]);
      }
    }

    /** Leads one predecessor of the exit block to the cleanup block. */
    method RewirePred(u: nat, exitBlock: nat, cleanup: nat)
      requires u < |blocks| && exitBlock < |blocks| && cleanup < |blocks| && exitBlock != cleanup
      modifies this`blocks
      ensures blocks == RewireOne(old(blocks), u, exitBlock, cleanup)
    {
      if u == cleanup {
        blocks := blocks[exitBlock := blocks[exitBlock].(preds := blocks[exitBlock].preds + [cleanup])];
      } else {
        blocks := blocks[u := blocks[u].(succs := Without(blocks[u].succs, exitBlock))];
        Connect(u, cleanup);
      }
    }

    method RewireExit(exitBlock: nat, cleanup: nat)
      requires exitBlock < |blocks| && cleanup < |blocks| && exitBlock != cleanup && InRange(blocks)
      modifies this`blocks
      ensures blocks == Rewire(old(blocks), exitBlock, cleanup)
    {
      hide RewireOne, RewireAll;
      var preds := blocks[exitBlock].preds;
      assert forall i :: 0 <= i < |preds| ==> preds[i] in preds;
      blocks := blocks[exitBlock := blocks[exitBlock].(preds := [])];
      RewirePreds(preds, exitBlock, cleanup);
    }

    method RewirePreds(preds: seq<nat>, exitBlock: nat, cleanup: nat)
      requires exitBlock < |blocks| && cleanup < |blocks| && exitBlock != cleanup && InBounds(preds, |blocks|)
      modifies this`blocks
      ensures blocks == RewireAll(old(blocks), preds, exitBlock, cleanup)
    {
      hide RewireOne, RewireAll;
      var i := 0;
      assert preds[0..] == preds;
      while i < |preds|
        invariant 0 <= i <= |preds| && |blocks| == |old(blocks)|
        invariant RewireAll(blocks, preds[i..], exitBlock, cleanup) == RewireAll(old(blocks), preds, exitBlock, cleanup)
      {
        RewireNext(blocks, preds, i, exitBlock, cleanup);
        RewirePred(preds[i], exitBlock, cleanup);
        i := i + 1;
      }
      RewireNone(blocks, exitBlock, cleanup);
      assert preds[i..] == [];
    }
  }

  lemma RewireNext(g: Blocks, preds: seq<nat>, i: nat, exit: nat, c: nat)
    requires exit < |g| && c < |g| && exit != c && i < |preds| && InBounds(preds, |g|)
    ensures RewireAll(g, preds[i..], exit, c) == RewireAll(RewireOne(g, preds[i], exit, c), preds[i + 1..], exit, c)
  {
    assert preds[i..][0] == preds[i] && preds[i..][1..] == preds[i + 1..];
  }

  lemma RewireNone(g: Blocks, exit: nat, c: nat)
    requires exit < |g| && c < |g| && exit != c
    ensures RewireAll(g, [], exit, c) == g
  {
  }

  lemma TargetExists(b: Builder, targets: seq<nat>)
    requires Sound(b) && targets in [b.breaks, b.loops, b.endcases]
    ensures targets != [] ==> Last(targets) < |b.blocks|
  {
  }

  lemma SoundStart()
    ensures Sound(START)
  {
  }

  /** The step of the cleanup chain for the innermost of some scopes. */
  lemma ChainNext(p: Policy, g: Blocks, scopes: seq<seq<string>>, k: nat, last: nat)
    requires last < |g| && g[last].succs == [] && !EndsWithControlFlow(g[last]) && k < |scopes|
    ensures
      CleanupChain(p, g, scopes[..k + 1], last) ==
      if scopes[k] == [] then CleanupChain(p, g, scopes[..k], last)
      else CleanupChain(p, AddEdge(g + [BasicBlock(Frees(p, scopes[k]), [], [])], last, |g|), scopes[..k], |g|)
  {
    var top := scopes[..k + 1];
    assert top[|top| - 1] == scopes[k] && top[..|top| - 1] == scopes[..k];
  }

  lemma ExitKept(a: Builder, b: Builder)
    requires Grows(a, b) && a.exit.Some?
    ensures b.exit == a.exit && |a.blocks| <= |b.blocks|
  {
  }

  lemma ConsistentLinked(b: Builder)
    requires Linked(b)
    ensures Consistent(b.blocks)
  {
  }

  /** A cleanup block is connected before it is filled. */
  lemma FilledLater(g: Blocks, last: nat, stmts: seq<Item>)
    requires last < |g|
    ensures
      var n := |g|;
      var g1 := AddEdge(g + [EMPTY_BLOCK], last, n);
      g1[n := g1[n].(stmts := g1[n].stmts + stmts)] == AddEdge(g + [BasicBlock(stmts, [], [])], last, n)
  {
    var n := |g|;
    var g1 := AddEdge(g + [EMPTY_BLOCK], last, n);
    var r := AddEdge(g + [BasicBlock(stmts, [], [])], last, n);
    assert [] + stmts == stmts;
    assert g1[n := g1[n].(stmts := g1[n].stmts + stmts)] == r;
  }

  /** Leaving a block: what is appended, and the scope popped. */
  lemma LeaveIs(p: Policy, b: Builder)
    requires Sound(b) && b.scopes != []
    ensures
      LeaveBlock(p, b) ==
      var b1 := b.(scopes := b.scopes[..|b.scopes| - 1]);
      if b.cur.Some? then Extended(b1, LeaveItems(p, Last(b.scopes))) else b1
  {
    var b1 := b.(scopes := b.scopes[..|b.scopes| - 1]);
    if b.cur.Some? { EmitAllExtends(b1, LeaveItems(p, Last(b.scopes))); }
  }
}
