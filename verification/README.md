# A verified model of the NewBCPL compiler's middle and back end

NewBCPL turns an abstract syntax tree into control-flow graphs, optimises them, and emits ARM64 code and
static data that a small linker places in memory. This project models the parts of it where a mistake
would change what a program means, and proves what those parts are for:

- **Control-flow graphs** (`syntax`, `graph`, `lowering`, `simulation`, `forward`, `backward`, `links`,
  `functions`, `execution_laws`, `deferred`, `defer`, `defer_branches`, `function_graphs`, `gotos`, `block_ids`, `builder`).
  `CfgBuilder` is the builder pass with its cursor, its block list and its target stacks as fields; every visitor
  is proved equal to a function on the builder's state. About that function: running the graph and executing the
  structured program agree in both directions (`BodyPreserved`), and so they do with DEFER, exactly unless a
  deferred statement forks (`FunctionPreserved`, `ReturnsUnlessForked`); edges are mirrored.
- **Scopes and order** (`scopes`, `scopes_exact`, `scope_functions`, `scope_jumps`, `scope_frees`, `rpo`). The heap scope calls of
  a function are well nested on every path if and only if each jump that can be reached stands where its one
  injected exit call is right, in the body and in what it defers (`BalancedExactly`); reverse post-order on any
  graph.
- **Classes** (`class_layout`, `class_theorems`, `class_checks`, `class_pass`). `ClassPass` is the memoised
  recursion over mutable table entries; what it leaves is one recursive layout over the chain of ancestors, in
  whatever order the classes are visited. Dispatch through a vtable slot is lookup by name along that chain.
- **Static data and linking** (`decimal`, `list_literals`, `linking`, `linking_theorems`, `linker`, `static_data`,
  `list_image`, `data_generator`, `list_program`, `veneers`, `relocations`, `patched_links`, `vtables`). From list literals and vtables to the
  words of a linked image, and back: the walk that compiled code makes over a list returns the literal, the word at
  a method's slot is the address of the code that name lookup would choose, and a branch goes, directly or through
  its veneer, to the address its name resolves to exactly if the machine's range holds what it is patched with.
- **Optimisers** (`folding`, `folding_parallel`, `folding_branches`, `constant_folder`, `cse_keys`, `cse`,
  `cse_metrics`, `cse_effect`, `local_optimizer`). Constant folding with propagation and common subexpressions by canonical
  strings preserve meaning under conditions on the program text; where the code does not meet them, small programs
  show what goes wrong.
- **Liveness** (`liveness`, `liveness_exact`, `liveness_choices`, `liveness_calls`, `liveness_pass`). The forward block summary is
  the backward transfer; the iteration finds exactly the live variables; and which statements are transferred
  wrongly.
- **Encoders and text** (`bitfields`, `bfi`, `utf8`, `number_text`, `create_reorder`, `words`). Bit
  patching, BFI down to the meaning of the instruction, UTF-8, decimal output, and the reordering of CREATE bodies.

Where the source updates an object in place there is a class with the same fields, whose methods are proved
against functions (`State()` gives the fields as a value); the theorems are about those functions. Where it
computes by recursion over expressions there are functions only. All theorems hold for every program, input,
store and number of loop rounds; opaque things (the value of an expression the builder does not look into, the
effect of a call, division by zero) are parameters.

`dafny verify dfyconfig.toml` checks the whole project.

## Where the code differs from what it says

- Every BREAK, LOOP and ENDCASE injects one scope-exit call, whatever it leaves, and RETURN injects none, so scope
  calls balance only in programs that happen to fit (`BalancedExactly`); a plain `WHILE c DO BREAK` does not
  (`PlainBreakUnbalanced`).
- A DEFER counts even if control never passes it (`LowerCollects`), and a function never reaches its exit block if
  its cleaning up comes to an IF, TEST, loop, SWITCHON or RETURN, at whatever depth of blocks
  (`ReturnsUnlessForked`). A deferred BREAK, LOOP or ENDCASE ends the cleaning up: what was deferred before it is
  not run.
- The liveness visitor counts the variable of a FOR header as defined there, although the header tests it
  (`ForHeaderMissed`), and does not look at a callee that is computed, as in `v!0(x)` and `o.m(x)`
  (LivenessAnalysisPass.cpp:94-123 and 159-190), although the generated code evaluates it
  (generators/gen_FunctionCall.cpp:251 and 428, generators/gen_RoutineCallStatement.cpp:189 and 630):
  `CalleeMissed`, and in general `AdequateExactly`.
- Names tell blocks apart only as long as no prefix is another one followed by a positive numeral, as may happen
  with labels (`CollideExactly`).
- The decoder of string literals accepts more than UTF-8 (`CanonicalExactly`).
- The comment about the range of BL says 128 MB; the constant tested allows four times that, so a call between the
  two gets no veneer and goes elsewhere (`DirectBranch`, `DistantCall`). ADR is relocated like ADRP and so misses
  its target (`ByteReaches`); the relocation for eight bytes behind a label misses them on the next page
  (`PagePlusEight`). The comment on BFXIL describes an extraction that the fields perform only at position 0.
- Constant knowledge leaks out of branches and into loops (`LeakFromIf`, `LeakIntoWhile`, `LeakFromParallel`); the
  function that would invalidate common subexpressions is never called (`ReusedAfterWrite`).
- `int_to_dec` writes a lone minus sign for the least 64-bit number (`WrittenRight`), if its negation, a signed
  overflow that C++ leaves undefined, wraps around.

## Model

| member | source | states |
|---|---|---|
| Lowering.Ensure | CFGBuilderPass.cpp:207-241 | a visitor that finds no current block gets a new one without predecessors; one that finds a block changes nothing |
| Lowering.Close | CFGBuilderPass.cpp:718-723 | an open current block falls through to exactly the given target, no other block changes its way out, and building goes on at the given block |
| Lowering.OpenIf | CFGBuilderPass.cpp:705-716 | the condition block ends in the IF, its first successor is the then block and its second the join, and the join is still empty |
| Lowering.OpenTest | CFGBuilderPass.cpp:1215-1236 | the condition block ends in the TEST, first successor then block, second successor else block; else block and join are still empty |
| Lowering.LoopBlocks | CFGBuilderPass.cpp:1273-1290 | the current block leads to a new header holding the test alone, whose true edge is the body and whose false edge is the loop exit; all other blocks keep statements and edges |
| Lowering.OpenWhile | CFGBuilderPass.cpp:1263-1296 | inside a WHILE body BREAK goes to the exit block and LOOP to the header; blocks that existed before keep their contents |
| Lowering.OpenFor | CFGBuilderPass.cpp:749-770 | inside a FOR body BREAK goes to the exit block and LOOP to the increment block |
| Lowering.CloseFor | CFGBuilderPass.cpp:771-823 | the body falls into the increment block, which holds exactly the step assignment and leads back to the header; building goes on at the loop exit and the two targets are popped |
| Lowering.OpenSwitch | CFGBuilderPass.cpp:1317-1351 | the header stands in a block of its own; its successors are the cases in order, the default, and last the join; every case block and the join are still empty; ENDCASE goes to the join |
| Lowering.LowerCases | CFGBuilderPass.cpp:1354-1364 | lowering the cases changes no block but the case blocks themselves and new ones, and leaves no block current |
| Lowering.CleanupChain | CFGBuilderPass.cpp:279-361 | the chain of cleanup blocks ends in a block without successors; no existing block but the first of the chain changes its way out, and none changes its statements |
| Lowering.Jump | CFGBuilderPass.cpp:1465-1583 | BREAK, LOOP and ENDCASE leave no current block, and keep the frame of a visit |
| Lowering.ReturnJump | CFGBuilderPass.cpp:900-932 | after a RETURN there is an exit block, an existing one is kept, and no block is current |
| Lowering.LowerLets | CFGBuilderPass.cpp:632-670 | declarations grow only the innermost scope, keep the scopes around it, and keep the frame of a visit |
| Lowering.LeaveBlock | CFGBuilderPass.cpp:1072-1162 | leaving a block pops exactly its own scope and appends no jump |
| Lowering.Lower | CFGBuilderPass.cpp:705-1583 | the frame of every visit: blocks that existed before keep their statements, all but the current one keep their successors, the target and scope stacks are restored, an exit block once made stays the exit block and stays empty, every jump target exists |
| Simulation.SimJump | CFGBuilderPass.cpp:1465-1503 | running the jump block and its whole cleanup chain reaches the jump target with the variables unchanged |
| Forward.Sim | CFGBuilderPass.cpp:705-1583 | whatever a statement does when executed, the graph built for it does: it reaches the block where building goes on, the top of the matching target stack, or the exit block, in the same store |
| Backward.Ends | CFGBuilderPass.cpp:705-1583 | if the run of the graph comes to a stop anywhere after a statement, structured execution of the statement terminates |
| Functions.EndsBody | CFGBuilderPass.cpp:433-500 | a run of a body that stops anywhere stops where structured execution says, in the same store |
| Functions.BodyPreserved | CFGBuilderPass.cpp:433-500 | for every body, store and meaning of opaque expressions and calls: structured execution leaves the function in st1 if and only if the graph, run from its entry, reaches the exit block in st1 |
| Functions.StrayJumpPreserved | CFGBuilderPass.cpp:1501-1502 | a BREAK, LOOP or ENDCASE with no construct around it: structured execution ends there if and only if the graph run stops behind that jump, in the same store |
| ExecutionLaws.ForUnrolled | CFGBuilderPass.cpp:726-824 | what executing a FOR means: its first round, and then the same FOR from the next value on, which is 1 more without BY and otherwise as much more as the BY expression says; LOOP goes on with the next round, BREAK ends it |
| ExecutionLaws.WhileUnrolled | CFGBuilderPass.cpp:1260-1313 | executing a WHILE means to test, run the body and execute it again |
| ExecutionLaws.SwitchRuns | CFGBuilderPass.cpp:1317-1382 | of the cases of a SWITCHON the first is run whose constant is the value, without one the default, and ENDCASE ends it |
| ExecutionLaws.IncrementSteps | CFGBuilderPass.cpp:794-813 | the increment block holds one statement, and it adds to the variable 1 if there is no BY, and else what the BY expression gives |
| ExecutionLaws.HeaderTests | CFGBuilderPass.cpp:1326-1351 | the header of a lowered SWITCHON tests the constants of the cases, in order, and has a successor for each, one for the default, if any, and the join |
| ScopeFrees.FreesPointwise | CFGBuilderPass.cpp:304-350 | exactly the variables that own a list are freed, in the order of the list, and none unless the legacy frees are on |
| ScopeFrees.BlockEndFrees | CFGBuilderPass.cpp:1072-1162 | where control falls out of a block the variables of its own scope are freed, the one declared last first, before the scope is left |
| ScopeFrees.ChainFrees | CFGBuilderPass.cpp:279-361 | on the one way through the cleanup blocks of a jump the variables of all scopes that are left are freed, innermost scope first |
| Graph.AddEdge | ControlFlowGraph.cpp:123-128 | an edge is appended to one successor list, and nothing else about statements or successors changes |
| Graph.AddEdgeMirrored | ControlFlowGraph.cpp:123-128 | if every v occurs in successors of u as often as u in predecessors of v, duplicates counted, the same holds after adding any edge |
| Links.LowerLinked | CFGBuilderPass.cpp:705-1583 | no visit of any statement breaks that correspondence, and every block that leads to the exit block leads nowhere else |
| Deferral.Without | CFGBuilderPass.cpp:526-529 | the erase-remove of an old edge removes every occurrence of the exit block and no other successor |
| Deferral.RewireOne | CFGBuilderPass.cpp:518-532 | what one round of the rewiring changes: successors of one predecessor and the predecessor lists of the exit and cleanup blocks only |
| Deferral.RewireLinked | CFGBuilderPass.cpp:513-533 | for any consistent graph with any duplicate edges: after the rewiring successors and predecessors still mirror each other, the exit block has no predecessor but the cleanup block, and no other block leads to it |
| Deferral.FunctionDiverted | CFGBuilderPass.cpp:500-534 | unless a deferred statement that is reached forks, the finished graph is the graph of the body with every way into the exit block led through one cleanup block, which holds what the deferred statements append, last one first and up to a stray jump, and leads to the exit block alone; the exit block has that block as its only predecessor; without a stray jump there is no other new block |
| DeferredStatements.LowerCollects | CFGBuilderPass.cpp:672-675 | the deferred statements are exactly those of the text, in order of appearance, whether or not control ever gets to them |
| DeferredStatements.BodyCollects | CFGBuilderPass.cpp:672-675 | the same for a whole body |
| DeferredStatements.StaysLower | CFGBuilderPass.cpp:677-1168 | a statement without branches and jumps, blocks with declarations and compounds included, only appends its items to the current block: all else in the builder stays as it was, but for what it defers |
| DeferredStatements.StopsLower | CFGBuilderPass.cpp:1465-1583 | a statement that comes to a BREAK, LOOP or ENDCASE with nothing to jump to and no variable in scope leaves its items up to that jump in the block, and the block without successors |
| DeferredStatements.ItemsExec | CFGBuilderPass.cpp:677-1168 | executing such a statement does to the store what its items do, and ends normally if and only if it comes to no such jump |
| Deferral.FunctionPreserved | CFGBuilderPass.cpp:433-535 | the graph reaches the exit block in st2 if and only if structured execution leaves the body in some store which the deferred statements, last one first up to a stray jump, turn into st2; for every list of deferred statements of which none that is reached forks |
| Deferral.UndeferredFunction | CFGBuilderPass.cpp:500-501 | without deferred statements, or without an exit block, the graph of the body is the graph of the function |
| FunctionGraphs.FunctionConsistent | CFGBuilderPass.cpp:433-535 | the finished graph of every function has an entry, keeps its edges inside the graph and mirrors them, whatever is deferred; so it can be ordered |
| FunctionGraphs.ExitThroughCleanup | CFGBuilderPass.cpp:500-534 | whatever the deferred statements are, every path from the entry to the exit block passes through the cleanup block immediately before the end |
| DeferredBranches.ForksLower | CFGBuilderPass.cpp:705-1583 | a statement whose text forks (IF, TEST, WHILE, FOR, SWITCHON, RETURN, or a jump among variables, at any depth of compounds and blocks, behind statements that stay) leaves the block it starts in with successors, and with one successor more no branch out of it can be taken |
| DeferredBranches.DefersOverload | CFGBuilderPass.cpp:505-514 | the same for any list of deferred statements in which one that is reached forks |
| DeferredBranches.CleanupStays | CFGBuilderPass.cpp:505-511 | for every function: lowering its deferred statements leaves the cleanup block without successors of its own if and only if none that is reached forks, which the text alone tells |
| DeferredBranches.DeferredForkStuck | CFGBuilderPass.cpp:500-534 | if one forks, no run of the function from any store reaches the exit block, whatever the body does |
| DeferredBranches.ReturnsUnlessForked | CFGBuilderPass.cpp:500-534 | for all deferred statements: a function whose body can be left at all ever reaches its exit block if and only if none of the deferred statements that are reached forks |
| Gotos.ResolvedEdges | CFGBuilderPass.cpp:363-389 | resolving GOTOs keeps all statements and appends to each block exactly the labels of its GOTOs, in order; unknown labels and computed GOTOs add nothing |
| Gotos.ResolvedConsistent | CFGBuilderPass.cpp:363-389 | successors and predecessors still mirror each other afterwards |
| Gotos.UnnamedKept | CFGBuilderPass.cpp:536-536 | a block no label names, such as the exit block, keeps its predecessors, so the rewiring done before stays valid |
| Gotos.GotoTaken | CFGBuilderPass.cpp:371-384 | in every store the block of a GOTO is left for the block of its label, and is a dead end when the label is unknown or computed |
| Gotos.GotoResolver.ResolveGotos | CFGBuilderPass.cpp:363-389 | the loop over the pending GOTOs computes that resolved graph |
| BlockIds.CollideExactly | ControlFlowGraph.cpp:115-116 | two prefixes can give one name to blocks with different numbers if and only if one extends the other by the numeral of a positive number |
| BlockIds.BlockIdUnique | ControlFlowGraph.cpp:115-116 | of prefixes that do not extend each other so, a name tells prefix and number |
| BlockIds.LabelIdsCollide | CFGBuilderPass.cpp:1177-1177 | labels x1 and x, made as blocks 2 and 12 of a function, give one name; labels x0 and x never do |
| BlockIds.ControlFlowGraph.CreateBlock | ControlFlowGraph.cpp:115-121 | the new block is stored under its name, and replaces none as long as neither its prefix nor an earlier one extends the other by a numeral |
| ScopeBalance.LevelLower | CFGBuilderPass.cpp:705-1583 | for every statement whose reachable jumps stand one scope inside their targets and whose reachable RETURNs stand at the depth of the exit block, the depths of the blocks built so far extend to depths of all blocks, and building goes on at the depth it started from, or where nothing is reached |
| ScopesExactly.Needed | CFGBuilderPass.cpp:705-1583 | conversely, whatever depths a finished graph has: a statement reached at depth k has every reachable jump exactly one scope inside its target, every reachable RETURN at the depth of the exit block, and falls through at depth k |
| FunctionScopes.BalancedExactly | CFGBuilderPass.cpp:433-535 | for every function, whatever it defers: no path from the entry, cut anywhere, leaves a scope that is not open, all paths to a block enter it at one depth, and every path to the exit block has left every scope, if and only if the text fits: reachable jumps stand one scope inside their targets, all ways out of the body leave the same number of scopes open, and the cleanup block, entered with so many open, leaves none open and its own jumps fit too |
| FunctionScopes.LeadLower | CFGBuilderPass.cpp:705-1583 | for every statement that does not stay in the block it starts in: how far it moves the depth of that block, and whether it leads from it straight to the exit block, as its text tells |
| FunctionScopes.JumpFreeBalanced | CFGBuilderPass.cpp:433-535 | a function without any jump balances if and only if its cleaning up does not leave the cleanup block inside a block with a scope |
| FunctionScopes.DeferredIf | CFGBuilderPass.cpp:500-534 | DEFER IF c DO f() balances, and DEFER of a block that declares a variable before that IF does not |
| FunctionScopes.JumpFreeFits | CFGBuilderPass.cpp:1033-1162 | a statement without BREAK, LOOP, ENDCASE and RETURN fits at every depth |
| ScopeJumps.JumpFits | CFGBuilderPass.cpp:1465-1583 | for every builder: the depths found so far can be extended over a BREAK, LOOP or ENDCASE if and only if it stands exactly one scope inside its target (at least one scope deep when it has none) |
| ScopeJumps.ReturnFits | CFGBuilderPass.cpp:900-932 | depths can be extended over a RETURN if and only if as many scopes are open as in the exit block |
| ScopeJumps.PlainBreakUnbalanced | CFGBuilderPass.cpp:1470-1473 | WHILE c DO BREAK has a path that leaves a scope although none is open |
| ScopeJumps.ScopedReturnUnbalanced | CFGBuilderPass.cpp:903-908 | a block whose only statement is RETURN reaches the exit block with one scope still open |
| CfgBuilding.CfgBuilder.constructor | CFGBuilderPass.cpp:454-468 | a new builder has the entry block alone |
| CfgBuilding.CfgBuilder.CreateBlock | ControlFlowGraph.cpp:115-121 | appends one empty block |
| CfgBuilding.CfgBuilder.Connect | ControlFlowGraph.cpp:123-128 | adds the edge on both sides |
| CfgBuilding.CfgBuilder.Append | BasicBlock.cpp:9-11 | appends one statement to one block |
| CfgBuilding.CfgBuilder.EnsureBlock | CFGBuilderPass.cpp:207-241 | the state is that of Lowering.Ensure |
| CfgBuilding.CfgBuilder.FallInto | CFGBuilderPass.cpp:718-720 | the fall-through edge is added exactly when the current block is open |
| CfgBuilding.CfgBuilder.FreeAll | CFGBuilderPass.cpp:300-355 | appends the legacy frees of the owned variables, in order, to one block |
| CfgBuilding.CfgBuilder.CleanupBlock | CFGBuilderPass.cpp:291-358 | one more cleanup block behind the last one |
| CfgBuilding.CfgBuilder.GenerateCleanupChain | CFGBuilderPass.cpp:279-361 | the loop from the innermost scope outwards builds Lowering.CleanupChain |
| CfgBuilding.CfgBuilder.Put | CFGBuilderPass.cpp:677-703 | appends a statement to the current block |
| CfgBuilding.CfgBuilder.VisitJump | CFGBuilderPass.cpp:1465-1583 | leaves the state of Lowering.Jump, about which theorems are proved |
| CfgBuilding.CfgBuilder.VisitReturn | CFGBuilderPass.cpp:900-932 | leaves the state of Lowering.ReturnJump |
| CfgBuilding.CfgBuilder.Visit | CFGBuilderPass.cpp:672-1583 | whatever the statement, the fields after the visit are those of Lowering.Lower of the fields before; so all theorems about Lower hold of the visitors |
| CfgBuilding.CfgBuilder.VisitHere | CFGBuilderPass.cpp:677-1583 | the same for visitors that start by making sure of a current block |
| CfgBuilding.CfgBuilder.BeginIf | CFGBuilderPass.cpp:705-716 | the first half of the IF visitor |
| CfgBuilding.CfgBuilder.VisitIf | CFGBuilderPass.cpp:705-724 | in-place IF visitor, equal to Lowering.LowerIf |
| CfgBuilding.CfgBuilder.BeginTest | CFGBuilderPass.cpp:1209-1236 | the first part of the TEST visitor |
| CfgBuilding.CfgBuilder.VisitTest | CFGBuilderPass.cpp:1209-1258 | in-place TEST visitor, equal to Lowering.LowerTest |
| CfgBuilding.CfgBuilder.BeginLoop | CFGBuilderPass.cpp:1270-1290 | the blocks of a loop and where each of them is |
| CfgBuilding.CfgBuilder.Branch | CFGBuilderPass.cpp:1287-1290 | true edge first, false edge second |
| CfgBuilding.CfgBuilder.EndLoop | CFGBuilderPass.cpp:1307-1309 | pops one target of each stack |
| CfgBuilding.CfgBuilder.VisitWhile | CFGBuilderPass.cpp:1260-1313 | in-place WHILE visitor, equal to Lowering.LowerWhile |
| CfgBuilding.CfgBuilder.BeginFor | CFGBuilderPass.cpp:749-770 | the first half of the FOR visitor |
| CfgBuilding.CfgBuilder.FinishFor | CFGBuilderPass.cpp:776-823 | the second half of the FOR visitor |
| CfgBuilding.CfgBuilder.VisitFor | CFGBuilderPass.cpp:726-824 | in-place FOR visitor, equal to Lowering.LowerFor |
| CfgBuilding.CfgBuilder.SplitHere | CFGBuilderPass.cpp:1320-1325 | SWITCHON starts a block of its own |
| CfgBuilding.CfgBuilder.CreateBlocks | CFGBuilderPass.cpp:1331-1342 | the loop that creates the join and the case blocks |
| CfgBuilding.CfgBuilder.ConnectAll | CFGBuilderPass.cpp:1345-1347 | the loop that adds the edges to the cases |
| CfgBuilding.CfgBuilder.FanOut | CFGBuilderPass.cpp:1331-1351 | join, case blocks and edges, join last |
| CfgBuilding.CfgBuilder.OpenCases | CFGBuilderPass.cpp:1317-1351 | everything before the first case, equal to Lowering.OpenSwitch |
| CfgBuilding.CfgBuilder.VisitCase | CFGBuilderPass.cpp:1354-1364 | one command in its own block, falling into the join |
| CfgBuilding.CfgBuilder.VisitCases | CFGBuilderPass.cpp:1354-1364 | the loop over the cases |
| CfgBuilding.CfgBuilder.VisitDefault | CFGBuilderPass.cpp:1367-1375 | the default command, if any |
| CfgBuilding.CfgBuilder.VisitSwitchCases | CFGBuilderPass.cpp:1317-1364 | a SWITCHON up to its last case |
| CfgBuilding.CfgBuilder.VisitSwitchon | CFGBuilderPass.cpp:1317-1382 | in-place SWITCHON visitor, equal to Lowering.LowerSwitch |
| CfgBuilding.CfgBuilder.VisitSeq | CFGBuilderPass.cpp:968-976 | the loop over statements |
| CfgBuilding.CfgBuilder.VisitLet | CFGBuilderPass.cpp:632-670 | one declaration |
| CfgBuilding.CfgBuilder.VisitLets | CFGBuilderPass.cpp:1058-1063 | the loop over declarations |
| CfgBuilding.CfgBuilder.Enter | CFGBuilderPass.cpp:1033-1063 | scope-enter call, new scope, declarations |
| CfgBuilding.CfgBuilder.Leave | CFGBuilderPass.cpp:1072-1162 | frees and scope-exit call when control gets here, scope popped |
| CfgBuilding.CfgBuilder.VisitBlock | CFGBuilderPass.cpp:978-1168 | in-place block visitor, equal to Lowering.LowerBlock |
| CfgBuilding.CfgBuilder.Finish | CFGBuilderPass.cpp:486-498 | falling off the end leads to the one exit block |
| CfgBuilding.CfgBuilder.VisitDefers | CFGBuilderPass.cpp:505-511 | the loop over the deferred statements, last one first |
| CfgBuilding.CfgBuilder.RewirePred | CFGBuilderPass.cpp:518-532 | one round of the rewiring loop |
| CfgBuilding.CfgBuilder.RewirePreds | CFGBuilderPass.cpp:518-533 | the rewiring loop |
| CfgBuilding.CfgBuilder.RewireExit | CFGBuilderPass.cpp:515-533 | the rewiring from the cleared predecessor list on |
| CfgBuilding.CfgBuilder.Divert | CFGBuilderPass.cpp:513-533 | cleanup edge and rewiring, equal to Deferral.Rewire |
| CfgBuilding.CfgBuilder.VisitCleanup | CFGBuilderPass.cpp:500-534 | the whole DEFER part of a function |
| CfgBuilding.CfgBuilder.VisitFunction | CFGBuilderPass.cpp:433-535 | the whole visit of a function leaves exactly the graph and the exit block that FunctionPreserved and BalancedExactly are about |
| Ordering.Search | ControlFlowGraph.cpp:142-150 | the recursive search terminates on any graph, finishes exactly what it newly visits, visits only what the block leads to, finishes the block itself last, and keeps every finished edge going to something finished earlier or leading back |
| Ordering.BlocksInRpo | ControlFlowGraph.cpp:138-155 | the result lists exactly the blocks reachable from the entry, each once, entry first, and for every edge u to v among them u comes before v or v leads back to u; empty without an entry |
| Ordering.Topological | ControlFlowGraph.cpp:138-155 | if no reachable edge lies on a cycle, u comes before v for every edge u to v |
| ClassLayout.MangleInjective | NameMangler.h:22-28 | a qualified name tells its class and its method, for names without colons |
| ClassLayout.QualifiedExactly | NameMangler.h:36-38 | a name counts as qualified if and only if it has a double colon somewhere |
| ClassLayout.VariableFits | ClassTable.h:67-84 | a field gets the offset asked for, 8 at least, and the size grows to its end if it has to |
| ClassLayout.ProcessInstalls | ClassPass.cpp:184-223 | whenever a declaration is accepted, the slot chosen by the pass and the slot imposed by the table entry are the same one |
| ClassLayout.SlotForFits | ClassPass.cpp:192-219 | the chosen slot is 0 for CREATE, 1 for RELEASE and neither for other names, lies at most one behind the vtable, belongs to no other name, and is the old one for an override |
| ClassLayout.ProcessMembers | ClassPass.cpp:101-125 | whatever is declared, names and slots stay an index of the vtable, lookups by simple name keep finding the own method first, and the table of the parent stays a prefix |
| ClassLayout.Derive | ClassPass.cpp:63-182 | every layout derived from a finished parent is finished and covers the parent: same names in the same slots |
| ClassLayout.ChainUnique | ClassPass.cpp:72-90 | a class has at most one chain of ancestors |
| ClassLayout.ChainDistinct | ClassPass.cpp:64-67 | a chain passes no class twice |
| ClassLayout.Layout | ClassPass.cpp:63-182 | the layout of a chain is finished, and its methods are owned by classes of the chain |
| ClassTheorems.LayoutAgrees | ClassPass.cpp:184-223 | for every chain and name, the table knows the name if and only if some definition of it is accepted, and then the slot holds the most derived accepted one, and its virtual and final flags are those it was declared with |
| ClassTheorems.AncestorCovers | ClassPass.cpp:72-94 | every name of any ancestor has the same slot in the class |
| ClassTheorems.VtableDispatch | ClassPass.cpp:184-223 | for every class, ancestor and method known to the ancestor: going through the slot the ancestor gave it finds, in the vtable of the class, the most derived accepted definition on the chain |
| ClassTheorems.SlotsDistinct | ClassPass.cpp:96-172 | distinct names have distinct slots, every slot holds a method, CREATE and RELEASE exist and have slots 0 and 1 and nothing else has |
| ClassTheorems.FinalKept | ClassPass.cpp:202-209 | a method declared final is the accepted definition in every descendant; CREATE and RELEASE are exempt |
| ClassTheorems.LayoutPacked | ClassPass.cpp:93-177 | the k-th field, in order of declaration from the top of the chain down, stands in the k-th word behind the vtable pointer, and the instance ends behind the last one; a name declared again keeps its first place; every field of the parent keeps its offset |
| ClassChecks.OverridesAlwaysPlaced | ClassPass.cpp:458-499 | the override check of the validator, which recovers names from vtable strings, accepts every table that covers its parent |
| ClassChecks.SimpleNameExactly | ClassPass.cpp:466-471 | the name recovered from a vtable string is what follows its last double colon, and there is none without one |
| ClassChecks.SlotsExactly | ClassPass.cpp:463-474 | a name is looked for in the last of the slots of the parent that have it, and in none if none has |
| ClassChecks.StartsExactly | ClassPass.cpp:481-481 | a method is the class's own if its name continues the class name and a double colon |
| ClassChecks.ChecksExactly | ClassPass.cpp:438-541 | but for overrides, an entry passes if and only if all its fields lie behind the vtable pointer and inside the instance, and those of the parent, which is no larger, are among them |
| ClassChecks.LayoutPasses | ClassPass.cpp:438-541 | every check of the validator holds of every layout |
| ClassFinalization.FindsSimple | ClassTable.h:108-185 | the four searches of lookup_method (simple, qualified, suffix match, parents) give what the simple names alone give |
| ClassFinalization.CycleNoChain | ClassPass.cpp:64-67 | a class that is its own ancestor has no chain |
| ClassFinalization.ClassTableEntry.AddMemberVariable | ClassTable.h:67-84 | the field gets its offset, never below 8, and the size grows to its end |
| ClassFinalization.ClassTableEntry.AddMemberMethod | ClassTable.h:86-105 | both names find the method; an override takes the slot of the parent and replaces its vtable word |
| ClassFinalization.ClassTableEntry.LookupMethod | ClassTable.h:108-185 | the search order over own tables and parents |
| ClassFinalization.ProcessMethod | ClassPass.cpp:184-223 | in place, the entry becomes what ClassLayout.Process says |
| ClassFinalization.ProcessOwnMembers | ClassPass.cpp:101-125 | the loop over the members, in order of declaration |
| ClassFinalization.InheritFrom | ClassPass.cpp:72-99 | the tables of the parent are copied and two slots reserved |
| ClassFinalization.BuildLayout | ClassPass.cpp:72-178 | in place, a fresh entry becomes the derived layout |
| ClassFinalization.ClassPass.FinalizeClassLayout | ClassPass.cpp:63-182 | terminates by the classes not yet being resolved; on success the class is finished, finished entries are untouched and the resolution path is restored; failure means the class has no chain |
| ClassFinalization.ClassPass.FinalizeLayouts | ClassPass.cpp:49-61 | whatever order the map is iterated in, the pass succeeds if and only if every class has a chain, and then every entry holds the layout of its chain |
| ClassFinalization.ClassPass.VisitClass | ClassPass.cpp:35-46 | the first declaration of a name fixes the parent, the last one the members |
| ClassFinalization.ClassPass.DiscoverClasses | ClassPass.cpp:25-46 | all declarations, in order |
| ClassFinalization.ClassPass.AddClass | ClassTable.h:211-226 | a new empty entry under the name |
| ClassFinalization.ClassPass.Run | ClassPass.cpp:13-61 | from the declarations alone: success if and only if every class has a chain, and the table is a function of the declarations |
| ClassFinalization.ClassPass.ValidateClassLayout | ClassPass.cpp:438-541 | true if and only if the class exists and all checks hold of its entry |
| ClassFinalization.ClassPass.FinishedPasses | ClassPass.cpp:438-541 | all checks hold of every class of a completed pass |
| ClassFinalization.ClassPass.ValidateAll | ClassPass.cpp:362-398 | validating a completed table returns true |
| ClassFinalization.ClassPass.IsDescendantOf | ClassTable.h:281-301 | true if and only if the names are equal or the second is on the chain of the first |
| Decimals.DecimalPrefix | DataGenerator.cpp:57-80 | a numeral followed by something that does not start like a numeral is read in one way |
| ListLiterals.ListKeyInjective | DataGenerator.cpp:57-80 | literals of integers and nested lists with equal keys are equal, so sharing by key is sound |
| ListLiterals.AddListHolds | DataGenerator.cpp:206-296 | collecting a literal, from the memo or anew, leaves under the returned label a list that stands for it, keeps all earlier lists, and keeps numbers fresh |
| ListLiterals.AddAllHolds | DataGenerator.cpp:206-296 | the same for any sequence of literals |
| ListLiterals.SharedExactly | DataGenerator.cpp:206-296 | two literals of a program get one label if and only if they are equal |
| ListLiterals.OwnerUnique | DataGenerator.cpp:226-233 | a label tells the number of its list |
| Linking.RodataStart | Linker.cpp:90-97 | read-only data starts on a 4 KiB boundary, at least 16 KiB and less than 20 KiB behind the code |
| Linking.CodeSizeCounts | Linker.cpp:83-90 | the code size is four bytes for each code entry that defines no label |
| Linking.BytesTaken | Linker.cpp:120-131 | an entry with text or data takes four bytes of its own segment, any other none |
| Linking.PlaceResult | Linker.cpp:99-139 | every entry gets the address of its cursor: start of the segment plus four bytes per word emitted into it before |
| Linking.PlaceFails | Linker.cpp:108-118 | placing succeeds if and only if no label is defined twice |
| Linking.WordsDisjoint | Linker.cpp:119-131 | two words of one segment are at least four bytes apart, and exactly four when no word of the segment is between them |
| Linking.LabelAddress | Linker.cpp:108-118 | a label resolves to the address of the first word emitted after it in its own segment |
| Linking.GapKept | Linker.cpp:83-97 | every code word ends at least 16 KiB before every word of read-only data |
| Linking.RangeTested | Linker.cpp:235-243 | of the distances between words the test for BL accepts those below 2^29 bytes in either direction |
| Linking.VeneerInstructions | Linker.cpp:254-303 | a veneer is five words, four bytes apart |
| Linking.MaxCode | Linker.cpp:318-323 | the scan finds an upper bound of all code addresses |
| LinkingTheorems.RelocateSettles | Linker.cpp:147-232 | every relocation is applied to its own entry once, with the address its name resolves to at the end, labels of veneers included, or with that of its veneer; entries keep address and segment, and veneers made later change nothing earlier |
| LinkingTheorems.RelocateArranges | Linker.cpp:306-351 | there is one veneer per target name, and veneers lie back to back from the first 16-byte boundary above all code |
| LinkingTheorems.RelocateAims | Linker.cpp:306-351 | every veneer is for the address to which its name resolves, runtime functions first, and is itself labelled __veneer_ and that name |
| LinkingTheorems.LinkResult | Linker.cpp:24-58 | a successful link is a placement, settled, arranged and aimed as above |
| LinkingTheorems.VeneersFit | Linker.cpp:254-351 | veneers are disjoint 20-byte ranges above all code, holding their five words, and the first 818 end before the read-only data |
| LinkingTheorems.VeneersNear | Linker.cpp:318-330 | the k-th veneer starts at most 20k + 19 bytes behind the code |
| VeneerCode.VeneerLoadsTarget | Linker.cpp:260-298 | whatever X16 held, after MOVZ and three MOVK (Arm Architecture Reference Manual DDI 0487, section C6.2) it holds the full 64-bit target, and the fifth word is BLR X16 |
| VeneerCode.VeneerArrives | Linker.cpp:254-304 | the same of five words as they stand in the image |
| VeneerCode.BranchArrives | Linker.cpp:184-199 | end to end: a branch out of range is patched with the address of five code words of the linked image which load, whatever X16 held, the address that the name in the branch resolves to, and go there |
| VeneerCode.MovesLoad | linker_helpers/linker_apply_movz_movk_relocation.cpp:22-35 | one MOVZ and three MOVK that carry the four parts of a number load it into their register |
| Relocations.GetQuotient | BitPatcher.cpp:46-100 | bits start to start + count - 1 of a word are found by dividing by 2^start, modulo 2^count |
| Relocations.PutGet | BitPatcher.cpp:46-100 | a number put into a field is read back, and every field apart from it reads as before |
| Relocations.BranchReaches | linker_helpers/linker_apply_pc_relative_relocation.cpp:20-24 | for all addresses: the patched B or BL goes to the target if and only if that is a multiple of 4 away, less than 2^27 bytes ahead or at most 2^27 back; the opcode stays |
| Relocations.ConditionalBranchReaches | linker_helpers/linker_apply_pc_relative_relocation.cpp:25-29 | for B.cond the same with 2^20 bytes |
| Relocations.PageReaches | linker_helpers/linker_apply_pc_relative_relocation.cpp:30-43 | the patched ADRP and ADD load the target if and only if its page is less than 2^32 bytes ahead of that of the ADRP or at most 2^32 back |
| Relocations.PagePlusEight | linker_helpers/linker_apply_pc_relative_relocation.cpp:30-48 | with the relocation for eight bytes behind the target they load that address if and only if, moreover, it does not lie on the next page |
| Relocations.ByteReaches | Encoder.cpp:338-345 | ADR gets the relocation of ADRP, a distance in pages, and so loads an aligned target if and only if that is its own address |
| Relocations.ApplyPcRelative | linker_helpers/linker_apply_pc_relative_relocation.cpp:9-53 | the helper, patching in place; other relocations are an error |
| Relocations.ApplyMovzMovk | linker_helpers/linker_apply_movz_movk_relocation.cpp:14-38 | the helper for one part of an address |
| PatchedLinks.DirectBranch | Linker.cpp:184-200 | in any successful link: a branch without a veneer goes to the address its own name resolves to if and only if that is in the range of the machine, which is a quarter of the range tested |
| PatchedLinks.DistantCall | Linker.cpp:235-243 | outside: a call 2^27 bytes ahead gets no veneer and goes 2^27 bytes back |
| PatchedLinks.VeneeredBranch | Linker.cpp:184-200 | a branch with a veneer goes to the veneer if and only if that is in the range of the machine, and the veneer goes on to the address the name resolves to |
| PatchedLinks.VeneersReached | Linker.cpp:306-351 | it always is for a program whose code starts at a multiple of 4 and is, with the veneers, at most 2^27 bytes long |
| PatchedLinks.PatchedMovesLoad | linker_helpers/linker_apply_movz_movk_relocation.cpp:14-38 | a MOVZ and three MOVK of any register, each relocated with its own part of an address, load the address |
| LinkerPasses.LabelManager.DefineLabel | LabelManager.cpp:41-46 | a second definition fails and changes nothing |
| LinkerPasses.LabelManager.GetLabelAddress | LabelManager.cpp:48-54 | the defined address, or an error |
| LinkerPasses.Linker.MeasureCode | Linker.cpp:83-90 | the loop computes the code size |
| LinkerPasses.Linker.AssignAddresses | Linker.cpp:66-139 | pass 1 in place, equal to Linking.Place, error case included |
| LinkerPasses.Linker.CreateVeneer | Linker.cpp:254-304 | one veneer and its instructions |
| LinkerPasses.Linker.HighestCode | Linker.cpp:318-323 | the maximum loop |
| LinkerPasses.Linker.GetOrCreateVeneer | Linker.cpp:306-351 | reuse by name, or a new veneer appended and labelled |
| LinkerPasses.Linker.RelocateInstruction | Linker.cpp:160-231 | one relocation in place |
| LinkerPasses.Linker.PerformRelocations | Linker.cpp:147-232 | pass 2, one loop over the vector while it grows, equal to Linking.Relocate over the original entries |
| LinkerPasses.Linker.Process | Linker.cpp:24-58 | both passes, equal to Linking.Link; success and failure alike |
| LinkerPasses.TailKept | Linker.cpp:254-304 | veneer words never need a relocation, so looping over the grown vector would add nothing |
| StaticData.LinkConsistent | Linker.cpp:24-58 | every successful link is a consistent image: labels where their words are, pointers holding label addresses |
| StaticData.BlockAddresses | Linker.cpp:99-131 | the j-th word behind a label lies 4(j-1) bytes behind its address |
| StaticData.PointerLoaded | DataGenerator.cpp:39-54 | a pair of LO32 and HI32 words loads as the full 64-bit address of the label |
| ListImage.HeaderLoaded | DataGenerator.cpp:454-480 | a linked header has the sentinel at 0, the last node at 8, the first node at 16 and the length at 24 |
| ListImage.NodeLoaded | DataGenerator.cpp:482-501 | a linked node has its tag at 0, its value at 8 and the next node, or 0, at 16, and is not at address 0 |
| ListImage.LiteralsRepresented | DataGenerator.cpp:206-501 | end to end: after collecting any literals, emitting the section into a stream and a consistent link, the memory behind the label of each literal represents that literal, nested lists included |
| ListImage.SectionLabelsOnce | DataGenerator.cpp:454-501 | all labels of the list section differ, so the section alone never makes placing fail |
| DataGeneration.InstructionStream.Add | InstructionStream.cpp:10-25 | appends the entry with no address yet |
| DataGeneration.InstructionStream.AddData32 | InstructionStream.cpp:47-57 | appends one word |
| DataGeneration.InstructionStream.AddData64 | InstructionStream.cpp:59-85 | appends two words, lower half first |
| DataGeneration.InstructionStream.EmitAbsolutePointer | DataGenerator.cpp:39-54 | appends the LO32 and HI32 words of a pointer |
| DataGeneration.DataGenerator.AddListLiteral | DataGenerator.cpp:206-296 | in place, equal to ListLiterals.AddList |
| DataGeneration.DataGenerator.CollectNodes | DataGenerator.cpp:235-288 | the loop over the items, nested literals included |
| DataGeneration.DataGenerator.GenerateLists | DataGenerator.cpp:440-502 | appends every collected list to the stream, in order |
| DataGeneration.DataGenerator.GenerateHeader | DataGenerator.cpp:454-480 | the nine entries of a header |
| DataGeneration.DataGenerator.GenerateNode | DataGenerator.cpp:482-501 | the seven entries of a node |
| DataGeneration.ReadList | CFGBuilderPass.cpp:2191-2269 | on any memory that represents a literal, starting at *(header+16), reading *(cursor+8) and stepping by *(cursor+16) until 0 terminates and returns exactly the literal |
| ListPrograms.LiteralLinked | DataGenerator.cpp:206-501 | end to end: if a stream that carries the emitted lists links, then in the linked image the memory at the label of each literal represents that literal |
| ListPrograms.ReadLiteral | CFGBuilderPass.cpp:2191-2269 | and the walk that compiled code makes over the list at that label returns the literal |
| Vtables.SlotLoaded | DataGenerator.cpp:400-423 | slot k of a linked vtable, at 8k behind its label, holds the address of the method label it names |
| Vtables.DispatchInMemory | DataGenerator.cpp:382-430 | end to end: at the slot any ancestor gave a method, the linked vtable of the class holds the address of the code of the most derived accepted definition |
| Vtables.GenerateVtable | DataGenerator.cpp:400-423 | the loop appends the vtable to the stream |
| Folding.FoldValue | ConstantFoldingPass.cpp:198-300 | in every state that agrees with the known constants and manifests, the folded expression has the value of the original (64-bit wrap-around, division toward zero, TRUE = -1) |
| Folding.FoldTwice | ConstantFoldingPass.cpp:198-300 | folding a folded expression changes nothing |
| Folding.ArithmeticMeans | ConstantFoldingPass.cpp:205-222 | in that meaning sums, differences, products and negations are right modulo 2^64, and exact when they fit 64 bits |
| Folding.DivisionMeans | ConstantFoldingPass.cpp:205-222 | a = b*q + r with r smaller than b and of the sign of a, unless b is 0 or the quotient does not fit |
| Folding.ComparisonMeans | ConstantFoldingPass.cpp:223-245 | exactly one of <, = and > gives -1, the others 0; the other comparisons and the connectives are made from these |
| Folding.ConstantsFold | ConstantFoldingPass.cpp:198-485 | nothing that could be folded is left: what is made of constants, known variables, operators other than division and conditionals becomes a literal |
| Folding.IdentitiesFold | ConstantFoldingPass.cpp:249-300 | x + 0, x - 0, x * 1 and x / 1 become x, x * 0 becomes 0, whatever x is, on either side of + and * |
| Folding.DeadBranches | ConstantFoldingPass.cpp:104-188 | of an IF or TEST with such a condition only the branch to be taken is left, of a WHILE nothing if it is false |
| Folding.FoldPreserves | ConstantFoldingPass.cpp:104-188 | for safe statements, from every agreeing state and for any number of loop rounds: the folded statement ends in the same state or not at all alike, and what is known afterwards is true |
| Folding.LeakFromIf | ConstantFoldingPass.cpp:124-125 | outside: IF c THEN x := 1; y := x gives y = 1 after folding although c is false |
| Folding.LeakIntoWhile | ConstantFoldingPass.cpp:159-177 | outside: a counting loop with its variable known before is folded into one that never ends |
| Folding.LeakFromParallel | ConstantFoldingPass.cpp:487-513 | outside: after x, y := 2, 3 the folder still takes x for its old value |
| ParallelFolding.ParallelExactly | ConstantFoldingPass.cpp:487-513 | for every multiple assignment of literals: what the folder takes for known stays true in every state if and only if each target it takes for some value is given just that value |
| BranchFolding.IfExactly | ConstantFoldingPass.cpp:104-125 | for every IF whose condition is a variable not known, and whose branch the folder is right about: what it takes for known after the IF is true in every state if and only if the branch taught it nothing new, but that the variable of the condition is 0 |
| BranchFolding.BranchExamples | ConstantFoldingPass.cpp:124-125 | IF z THEN z := 0 is of this kind, IF z THEN x := 1 is not |
| ConstantFolding.ConstantFolder.VisitExpr | Optimizer.cpp:23-31 | the saved node is put back, and the result is the folded expression |
| ConstantFolding.ConstantFolder.VisitStmt | Optimizer.cpp:33-41 | the same for statements; known constants are those of the specification |
| ConstantFolding.ConstantFolder.AcceptExpr | ConstantFoldingPass.cpp:190-485 | the visitors leave the folded expression in the node field |
| ConstantFolding.ConstantFolder.ReplaceBinary | ConstantFoldingPass.cpp:198-334 | constants first, then the identities one after the other |
| ConstantFolding.ConstantFolder.ReplaceUnary | ConstantFoldingPass.cpp:336-409 | NOT and negation of literals |
| ConstantFolding.ConstantFolder.AcceptStmt | ConstantFoldingPass.cpp:104-188 | the statement visitors |
| ConstantFolding.ConstantFolder.Learn | ConstantFoldingPass.cpp:487-513 | one assignment target: known if the value is a literal, forgotten otherwise |
| ConstantFolding.ConstantFolder.VisitSeq | Optimizer.cpp:327-342 | the statement vector is rebuilt in order |
| CanonicalKeys.KeyFaithful | LocalOptimizationPass.cpp:39-117 | keys are read from the front in one way: if a key and what follows it coincide with another key and what follows that, the two expressions have the same value and the rests are equal |
| CanonicalKeys.EqualKeys | LocalOptimizationPass.cpp:39-117 | named expressions with equal keys have the same value in every state, on every machine whose commutative operators commute |
| CommonSubexpressions.OptimizePreserves | LocalOptimizationPass.cpp:212-328 | if no key is reused after a variable of its expression was written, the rewritten list gives every program variable the same value and makes the same calls with the same arguments |
| CommonSubexpressions.ReusedAfterWrite | LocalOptimizationPass.cpp:264-339 | outside: x := x + 1; y := x + 1 gives both the first sum, since nothing invalidates the key |
| CseEffect.OptimizeRewrites | LocalOptimizationPass.cpp:152-328 | what the pass makes of any list, said without following it: every rewritable expression whose key occurs twice is replaced by the temporary of its key, numbered in order of first use, and each temporary is assigned, once, an expression of its key right before the statement that uses it first; nothing else changes |
| CseEffect.NothingRepeated | LocalOptimizationPass.cpp:152-328 | in particular a list without such keys stays as it is |
| CseEffect.AllCounted | LocalOptimizationPass.cpp:342-412 | the count of a key is the number of binary operations in the statements that have it |
| CseEffect.SwappedKeys | LocalOptimizationPass.cpp:41-64 | operands of +, *, AND, OR, = and ~= may be swapped without changing the key |
| CseEffect.DictionaryOrder | LocalOptimizationPass.cpp:41-64 | the order in which such operands are put is that of dictionaries |
| CseEffect.AfterTotal | LocalOptimizationPass.cpp:41-64 | and of two different keys exactly one comes after the other |
| MissingMetrics.WithoutMetrics | LocalOptimizationPass.cpp:274-296 | the branch for a function without metrics: it leaves the statements as they are if and only if no key of a common expression is met a second time; otherwise a use is replaced by a temporary that was never assigned (main.cpp:693-723 analyses every function first, so the compiler driver does not get there) |
| LocalOptimization.LocalOptimizer.GenerateTempVarName | LocalOptimizationPass.cpp:129-131 | names are numbered, each used once |
| LocalOptimization.LocalOptimizer.CountSubexpressions | LocalOptimizationPass.cpp:342-412 | counts every binary operation inside the expression under its key |
| LocalOptimization.LocalOptimizer.CountStatements | LocalOptimizationPass.cpp:342-412 | the loop over the statements |
| LocalOptimization.LocalOptimizer.OptimizeExpression | LocalOptimizationPass.cpp:247-328 | what replaces the expression, and that at most one assignment was inserted before statement i, which moves the index behind it |
| LocalOptimization.LocalOptimizer.OptimizeExpressions | LocalOptimizationPass.cpp:224-240 | the loop over the expressions of a statement |
| LocalOptimization.LocalOptimizer.OptimizeStatement | LocalOptimizationPass.cpp:217-243 | statements before and after keep their places |
| LocalOptimization.LocalOptimizer.OptimizeStatementList | LocalOptimizationPass.cpp:212-245 | the index loop over the growing vector terminates and treats each original statement once, in order |
| LocalOptimization.LocalOptimizer.OptimizeFunction | LocalOptimizationPass.cpp:152-210 | everything is reset, counted, then rewritten |
| Liveness.SummaryIsTransfer | LivenessAnalysisPass.cpp:19-222 | for every block, out set and set kept for calls: use and def accumulated forwards give use + (out - def) = the statements taken one by one from the end |
| LivenessExact.AdequateExactly | LivenessAnalysisPass.cpp:85-226 | in every world of calls, memory and operators: a balanced statement leads any two states that agree on what is live before it to the same branch, memory and live values, if and only if all variables it reads when it is executed, those of computed callees and of FOR headers included, are among those the visitor counts; for statements in which every uncounted variable is read in some state of a plain world, on a way through the conditional expressions that does not depend on it |
| LivenessExact.CoveredAdequate | LivenessAnalysisPass.cpp:85-226 | sufficiency for all balanced statements |
| LivenessExact.CalleeMissed | LivenessAnalysisPass.cpp:94-123 | v!0() as a statement: nothing is live before it, although it calls what v points to |
| LivenessExact.UnreachedCallee | LivenessAnalysisPass.cpp:94-123 | why the condition is needed: a computed callee in a branch that is never taken is uncounted and harmless |
| LivenessExact.UnreachedByRepetition | LivenessAnalysisPass.cpp:94-123 | and so is one behind a test that repeats the test around it, although neither condition has a fixed value |
| LivenessChoices.SteerableExposed | LivenessAnalysisPass.cpp:94-145 | a variable is read in some state if every conditional expression around it tests another variable, none of them twice on the way |
| LivenessChoices.AdequateSteerable | LivenessAnalysisPass.cpp:94-145 | the equivalence read off the text: for statements with such conditional expressions only |
| LivenessChoices.ChoiceMissed | LivenessAnalysisPass.cpp:94-123 | a condition that calls v!0() where z is not 0: only z is live before it, although it may call what v points to |
| Liveness.BlockAgrees | LivenessAnalysisPass.cpp:41-145 | from two states that agree on what is live before a block of such statements, the block takes both to the same branches, memory and live values |
| LivenessExact.ForHeaderMissed | LivenessAnalysisPass.cpp:219-226 | FOR i = 1 TO 10: nothing is live before the header, and its test still depends on i |
| LivenessCalls.BlockWithoutCalls | live_analyze_block.cpp:6-180 | a block that is noted as making no call gives the same result in any two worlds that differ in what calls do |
| LivenessCalls.CallsDepend | live_analyze_block.cpp:6-180 | a block in which some statement makes a call whatever branches are taken, such as a routine call, gives different results in some two such worlds |
| LivenessCalls.NotedExactly | live_analyze_block.cpp:6-180 | a block is noted as calling if and only if what calls do matters to it, for blocks whose conditional expressions call in both branches or in none |
| LivenessCalls.NotedInVain | live_analyze_block.cpp:6-180 | why the condition is needed: a call in a branch that is never taken is noted all the same |
| LivenessPass.BlockVisitor.VisitVariable | LivenessAnalysisPass.cpp:19-39 | a variable counts as used unless the block has defined it |
| LivenessPass.BlockVisitor.VisitExpr | LivenessAnalysisPass.cpp:85-145 | an expression adds exactly the variables the visitor looks at (all but those of computed callees) that are not yet defined, and notes a call if there is one |
| LivenessPass.BlockVisitor.VisitStmt | LivenessAnalysisPass.cpp:41-222 | addresses, values, then definitions |
| LivenessPass.BlockVisitor.AnalyzeBlock | live_analyze_block.cpp:6-180 | a whole block gives the summary the theorem is about, and notes whether it calls |
| LivenessPass.RunDataFlow | live_run_data_flow_analysis.cpp:5-80 | the rounds terminate and end in the least sets that satisfy the equations at the ordered blocks |
| LivenessPass.Round | live_run_data_flow_analysis.cpp:18-100 | one round grows some set or changes nothing, and then every equation holds |
| LivenessPass.SolutionIsLive | live_run_data_flow_analysis.cpp:5-80 | on the reverse post-order of a graph: x is in the set of a block if and only if some path from it reaches a use of x before a definition, calls keeping everything |
| LivenessPass.FlowAgrees | live_run_data_flow_analysis.cpp:5-80 | for blocks of covered statements: two states that agree on the set of a block go to the same successor with the same memory and agree on the set of every successor |
| LivenessPass.RegisterPressure | LivenessAnalysisPass.cpp:502-530 | the result is an upper bound of all set sizes and is reached by one of them |
| Bitfields.PatchedField | BitPatcher.cpp:46-100 | the patched field reads as the low bits of the value |
| Bitfields.PatchedElsewhere | BitPatcher.cpp:46-100 | every bit outside the field is kept |
| Bitfields.PatchesCommute | BitPatcher.cpp:46-100 | patches of disjoint fields commute |
| Bitfields.MaskedIsPatched | BitPatcher.cpp:66-91 | clearing by mask and or-ing the moved value is the same as writing the field |
| Bitfields.BitPatcher.Patch | BitPatcher.cpp:46-100 | writes the field in place, or reports which of the three range checks failed and changes nothing |
| Bitfields.PatchableExactly | BitPatcher.cpp:46-62 | accepted are the fields of at least one bit that lie within the word |
| BitfieldInsert.DecodeOfEncode | Encoder.cpp:205-244 | decoding the word as BFM gives back size, immr, imms, Rn and Rd |
| BitfieldInsert.BfiInserts | Encoder.cpp:205-244 | the encoded word, executed as BFM (DDI 0487, section C6.2), copies exactly the low width bits of the source to lsb and keeps every other bit, lsb = 0 included, for both register sizes |
| BitfieldInsert.BfxilOnlyAtZero | Encoder.cpp:299-315 | the fields given to BFXIL extract from position lsb if and only if lsb is 0 |
| BitfieldInsert.CreateBfi | Encoder.cpp:205-244 | the error cases, and otherwise the word made by successive patches |
| BitfieldInsert.AcceptedExactly | Encoder.cpp:205-226 | accepted are two registers of one size and a field of at least one bit that lies within them |
| BitfieldInsert.RefusedExactly | Encoder.cpp:205-226 | which of the four errors is reported, of several the first |
| BitfieldInsert.DecodesExactly | Encoder.cpp:228-244 | bit by bit, the words that are BFM |
| BitfieldInsert.CreateBfxil | Encoder.cpp:275-315 | the same, with the fields the code computes |
| Utf8.RoundTrip | SignalSafeUtils.cpp:53-74 | for every sequence of code points below 0x110000, decoding the concatenated encodings (RFC 3629, section 3) gives it back, reads nothing out of range and consumes every byte |
| Utf8.EncodeInjective | SignalSafeUtils.cpp:53-74 | different sequences have different encodings |
| Utf8.CanonicalExactly | DataGenerator.cpp:83-106 | for every string the decoder accepts: encoding what was decoded gives the string back if and only if every character has proper continuation bytes, is not overlong and is below 0x110000 |
| Utf8.NotCanonical | DataGenerator.cpp:83-106 | two that do not: the decoder accepts an overlong zero and a continuation byte that is none |
| Utf8.EncodeChar | SignalSafeUtils.cpp:53-74 | writes the encoding into the buffer, returns its length and leaves the rest of the buffer alone |
| Utf8.DecodeString | DataGenerator.cpp:83-106 | the index loop decodes character by character; bytes that start no character end it with an error |
| NumberText.IntToDec | SignalSafeUtils.cpp:25-51 | the buffer holds, up to its zero, the numeral of the number, and a lone minus sign for the least one; digits are written backwards and turned round in place |
| NumberText.WrittenRight | SignalSafeUtils.cpp:25-51 | what is written is the decimal numeral if and only if the number is not the least 64-bit one, for which it is a minus sign |
| NumberText.WrittenInjective | SignalSafeUtils.cpp:25-51 | different numbers are written differently |
| CreateReorder.ReorderCorrect | CreateMethodReorderPass.cpp:85-161 | a permutation that keeps the order within each of the three kinds; afterwards no SUPER.CREATE stands before a member assignment; the result is true if and only if that was so before; unchanged if false; a second run changes nothing |
| CreateReorder.KindsExactly | CreateMethodReorderPass.cpp:241-310 | a member assignment assigns to a member of _this or to a name of a member, and a SUPER.CREATE is a call of CREATE through SUPER; all else is the rest |
| CreateReorder.SortedStable | CreateMethodReorderPass.cpp:138-154 | order within a kind is kept |
| CreateReorder.BeforeIsViolated | CreateMethodReorderPass.cpp:115-125 | comparing the index vectors finds a pair if and only if the order is violated |
| CreateReorder.CheckMember | CreateMethodReorderPass.cpp:241-280 | the loop over the targets |
| CreateReorder.CollectIndices | CreateMethodReorderPass.cpp:92-107 | the three index vectors are rising and hold exactly the statements of their kind |
| CreateReorder.ReorderBody | CreateMethodReorderPass.cpp:85-161 | the pass over the statement vector computes the specified body and flag |

## Left out

- GOTO and labels as statements: `Gotos` covers the resolution of pending GOTOs, not the meaning of programs with GOTO.
- VALOF and RESULTIS (statements inside expressions), FINISH, FOREACH (whose visitors do not keep the target stacks balanced), and UNLESS, UNTIL and REPEAT (empty stubs in the builder).
- Missing conditions of WHILE and missing bounds of FOR, which the builder rejects by an exception, and declarations without an active graph.
- A LET with several names is a sequence of LETs with one name; the symbol table is always there, and which variables own memory, whether the legacy frees are on and whether the function allocates are parameters of a builder. The last is one constant for a function, where the source looks the metrics up by name at each block and, for a function that was never analysed, creates an empty entry at the first one (CFGBuilderPass.cpp:985-1043).
- Basic blocks are numbers instead of named objects; `CollideExactly` says when names tell the numbers apart.
- Deferral.FunctionPreserved: for deferred statements that do not fork; with one that forks the graph never reaches its exit block (`ReturnsUnlessForked`). A deferred RETURN is one of these, since the cleanup block then leads to the exit block twice and no branch chooses; that the code emitted for RETURN goes to the epilogue by itself (generators/gen_ReturnStatement.cpp:12-15) is code generation and not modelled.
- A DEFER inside a deferred statement adds to the list while the source iterates over it from the end (CFGBuilderPass.cpp:506-508), which may invalidate the iterator; in the model it is not executed.
- Expressions of the builder are evaluated without side effects on variables; calls as statements may change anything.
- Class members: kinds other than variables and methods, visibility, the routine flag, the bodies that are synthesised for CREATE and RELEASE, `inject_initializers` and `inject_superclass_release_calls`, which change syntax trees and not layouts.
- Names of classes, methods and variables contain no colon, class names are not empty, and a table is laid out by one pass; the pass keeps its resolution path in a field instead of passing a reference.
- ClassFinalization.ClassTableEntry.AddMemberMethod: simple names map to method records instead of pointers to them; a child's inherited pointers lead into its finished parent, whose records do not change any more.
- List items are integers and nested lists: keys of strings, floats and pairs may coincide for different values.
- Other read-only data (strings, tables, floats, pairs), the data segment, padding, listings and tracing; the comment that stands as a label at a null vtable word.
- ListImage.LiteralsRepresented: the labels of lists are no runtime functions and their addresses have 64 bits; addresses are natural numbers, so no `size_t` overflow; the whole image has one link.
- The linker takes the patching of instruction words as a parameter; `Relocations.Apply` is what the linker's helpers compute, and `PatchedLinks` is about the two together. Distances are integers, so none is 2^63 or more. The veneer's return path is the caller's and not modelled.
- LinkingTheorems.VeneersFit: the margin is that of the read-only data, and nothing is claimed for the 819th veneer.
- LinkerPasses.Linker.PerformRelocations: loops by index, where the source range-iterates over a vector that it appends to, which may invalidate its iterator; `TailKept` says why the appended entries need nothing.
- Runtime functions are a map from names to addresses; an unresolved name is an error.
- Folding.FoldPreserves: the condition on programs is sufficient; it is not needed, since a leaked constant may happen to be right (IF x ~= 1 THEN x := 1), which no condition on the text can tell. For multiple assignments of literals and for IFs that test an unknown variable the condition is exact (`ParallelExactly`, `IfExactly`).
- Constant folding of shifts, EQV, NEQV and bitwise OR, floats, FOR loops, calls inside expressions and LEN.
- CommonSubexpressions.OptimizePreserves: the condition is sufficient; a key reused after a write may happen to have the same value. Floats, strings and calls inside expressions, whose keys coincide, are not part of the model.
- LivenessExact.AdequateExactly: not for statements in which an uncounted variable is read only where no state gets to, or only depending on itself (`UnreachedCallee`, `UnreachedByRepetition`); for those only sufficiency (`CoveredAdequate`). Assignments have as many values as targets. The scan for variables used across calls is the parameter `across`; the iteration runs over one function at a time.
- BitfieldInsert.CreateBfi: registers are a prefix letter and a number below 32, since reading register names is no part of the bit layout; the decoded fields of the instruction record are left out.
- Bitfields.BitPatcher.Patch: the inline assembly is modelled by its commented steps on 32 booleans.
- Utf8.DecodeString: a character cut off at the end of the input is an error of the model, where the source reads past the end.
- CreateReorder: statement kinds are decided on targets and callee; the second copy of the pass for block statements has the same body.
- Parser, heap manager, code generation for statements and expressions, peephole optimiser, just-in-time execution, listings: not part of this model.
