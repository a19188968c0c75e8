# A verified model of the C-minus middle end

The compiler lowers C-minus to an intermediate representation of basic blocks and then optimises it.
This project models the code generator, the optimisation passes and the data structures they share, and proves that they do
what they are for:

* **Code generator** (`Syntax`, `Meaning`, `Scoping`, `Visiting`, `CminusfBuilder`, and `Generator`, `Emitted`, `WellFormed`,
  `Walking`, `Lowering`, `LoweringExpr`, `LoweringStmt`, `LoweringFun`, `Conversions`). The visitors over the syntax tree, the control-flow
  graphs they build, and a compiler-correctness theorem: the run of the code of a function ends as the meaning of the
  function says, and goes on for ever if that does.
* **From source to SSA form** (`Defined`, `DefinedStmt`, `DeadEnds`, `Pipeline`). What the code generator emits is what Mem2Reg asks of its
  input: identities are unique, definitions dominate uses, the addresses of scalars are only loaded from and stored to; and when
  the dominator analysis stops on it is told from the syntax tree. So the two passes compose: promoted code does what the source
  means.
* **Dominators** (`Cfg`, `IdomTree`, `Dominators`, `Frontier`). The depth-first numbering, the fixpoint over immediate
  dominators, dominance frontiers and the dominator tree, on every control-flow graph, irreducible ones included.
* **Mem2Reg** (`Ir`, `Renaming`, `Rewriting`, `RenameSteps`, `PhiPlacement`, `SsaForm`, `Feeding`, `Filling`, `Mem2Reg`,
  and for the meaning of a function `Running`, `Simulation`, `Preservation`, `Promotion`). Phi placement by the work list over
  dominance frontiers, renaming along the dominator tree with one stack of values per variable, removal of scalar allocas. When
  the assertion in the middle of renaming fails, and that otherwise every run of the result is the run of the input.
* **Purity and dead code** (`Program`, `Spreading`, `FuncInfo`, `Purity`, `Determinism`, `Addresses`, `Liveness`, `DeadCode`,
  `Sweeping`, `Converse`). The purity analysis over the call graph, what its answer means when functions are actually called,
  and mark-and-sweep dead code elimination: whatever a program does, ended or not, it does without its dead instructions, and
  nothing else if its pure calls return.
* **Global value numbering** (`Partition`, `Gvn`). The partitions of values into congruence classes: join, transfer function and
  comparison, on classes that are shared as objects.
* **Use lists** (`UseDef`). The values and users as objects on the heap, with the invariant that every pass relies on.
* **Limits** (`Limits`, `PhiLimit`, `LostLoop`, `BothReturn`, `OneBranchCode`). Small functions on which a pass does not do what it is for, and proofs
  that the code generator emits such functions.

## How the code is modelled

* A basic block is a number; the lists of predecessors and successors are those that the branch constructors fill in. A key
  that is missing from `idom_` stands for the null pointer that the C++ map yields.
* An instruction has an identity (its address in the C++ program), an operation, value operands and block operands. New
  instructions get new identities.
* The passes are classes with the fields of the C++ objects; each method is specified by functions of the fields, and the
  theorems are about those functions. `unordered_set`, `set` and `map` are iterated in an arbitrary order; only the
  children of a block in the dominator tree, on whose order the outcome depends, come in the order of their addresses, as in a
  `set` of pointers. Where the blocks are in memory is a parameter.
* The code generator is a class with the state of the C++ visitors. Each visit is proved to change that state as a function of
  `Generator` says, and the theorems are about those functions. A value carries its type beside it; the model of a scope keeps
  the types of its values in a second stack of maps. Syntax trees have one node for sums, products and comparisons, and are
  well typed (`TypeOf`, `StmtOk`); the `assert(var != nullptr)` of the C++ code is part of that.
* `Meaning` gives statements and expressions a big-step semantics: the right-hand side of an assignment before the target, as
  the code generator has it, arguments from left to right, a function left with the default result when an index is negative.
  Reading a local variable that was never set has no meaning. Where the local arrays of a call are is up to the machine.
* `Running` gives one function a meaning with calls, arithmetic and address computation uninterpreted. Local scalars live in
  slots of their own, which is what Mem2Reg assumes of them. Phis of a block are read together before any is written; a phi
  without an operand for an edge (`undef`) yields an arbitrary value there, which no theorem depends on.
* `Program` gives a whole program a meaning: functions call each other, every active call has local variables of its own, an
  address is an object and an offset. A load from a local variable of a call that is over yields 0, a store to one is stuck.
  A declared function is an arbitrary function of its arguments and of everything that has happened; its calls and all stores
  to globals are the visible events. Runs are bounded by fuel, and every theorem holds for all amounts of it. A run that is
  stuck or out of fuel still has its memory, its events and the blocks it went through, so that theorems speak of it, too.

## What the passes need, and what happens without it

* The runner loop of the dominance frontier (`src/optimization/Dominators.cpp:147-150`) stops for the edge from `p` to `y`
  exactly if `p` is reachable or `y` is not (`Frontier.RunnerStopsIff`). The code generator emits a reachable `y` with an
  unreachable `p` exactly for a function in which control can come to a loop body, or to an arm of an `if` that can be left
  another way, that ends in a dead end: behind an `if` that neither arm falls out of (`DeadEnds.LivePredsIffFine`). There are
  such functions (`BothReturn.GeneratedDeadJoin`), and on those the loop never stops (`Limits.RunnerNeverStops`).
* With reachable predecessors, the frontiers are exact exactly if no edge leads into the entry (`Frontier.FrontierExactIff`).
  The code generator never branches to the entry.
* Mem2Reg needs a store to a variable on every path to a load of it (`Feeding.LoadsSafe`). It does not need one on every path
  to a join: an edge without a value leaves the operand of a phi out, which the printer shows as `undef`. But where
  `var_val_stack` has an entry for the variable and the entry is empty, the assertion in
  `src/optimization/Mem2Reg.cpp:124` fails. It does so exactly if a block that defines the variable was renamed before, in a
  subtree of lower address, and some edge into a phi comes from a block that no store reaches (`Filling.AssertFails`,
  `Filling.LateIffFails`, `Mem2Reg.Mem2Reg.Run`); whether it can fail at all, wherever the blocks are in memory, is
  `Filling.FailsIffApart`. On a variable that a loop body sets first it does not (`Limits.LoopLocalSucceeds`). On
  `if (c) a = 1; else b = 2;` it always does (`Limits.OneBranchFails`), although no variable is read before it is set; the code
  generator emits that code (`OneBranchCode.GeneratedOneBranch`). No stack is ever empty exactly if every path stores before
  it loads or joins (`Feeding.FedIffStoredFirst`), and then it never fails (`Filling.StoredFirstNeverFails`).
* The purity analysis follows a phi of addresses to its first operand only. It is right about every address of a function if
  and only if the phis that it takes for local have only local operands (`Addresses.LocalIffRooted`); that is what is asked of
  the functions it leaves pure (`Determinism.PurityIsSound`). `PhiLimit.ChooserStores` is a function that it takes for pure and
  that stores to a global. The code generator emits no phi of addresses.
* A dead call of a pure function that never returns is erased, too, and then the program goes on where it would have hung
  (`LostLoop.LoopIsLost`). If the calls of pure functions return, nothing is added (`Converse.DeadCodeChangesNothing`).
* `replace_all_use_with` and `replace_use_with_when` are called with a new value that is not the old one; with the old one
  their loops would run over a list that they extend.

## Model

| member | source | states |
|---|---|---|
| LoweringFun.CodeGenerationIsCorrect | src/cminusfc/cminusf_builder.cpp:98-472 | the meaning of a call is to end with some memory, trace and result if and only if the run of the generated code ends like that |
| LoweringFun.GeneratedFollows | src/cminusfc/cminusf_builder.cpp:98-167 | for every bound on the iterations: the generated code ends as the meaning does, and takes at least as many steps as the bound if the meaning exceeds it |
| LoweringStmt.StmtRight | src/cminusfc/cminusf_builder.cpp:171-273 | the same for each statement, from any state in which the names in scope and the run agree to one in which they agree again |
| LoweringStmt.BranchRight | src/cminusfc/cminusf_builder.cpp:199-233 | the code of an `if` takes the arm that the condition says and comes out behind both |
| LoweringStmt.LoopRight | src/cminusfc/cminusf_builder.cpp:235-256 | from the head of a loop, the run follows all iterations and comes out behind the loop |
| LoweringExpr.ExprRight | src/cminusfc/cminusf_builder.cpp:275-472 | the code of an expression computes its value, with its stores and calls in order, or leaves the function |
| LoweringExpr.PutRight | src/cminusfc/cminusf_builder.cpp:334-348 | an assignment to an element stores the converted value at the address that is computed after it |
| Lowering.CheckRight | src/cminusfc/cminusf_builder.cpp:302-321 | behind the check the index is an int that is not negative; otherwise the exception is called and the default returned |
| Lowering.SlotStored | src/cminusfc/cminusf_builder.cpp:346-347 | a store to a local variable is seen under its name and under no other |
| DefinedStmt.GeneratedIsAccepted | src/cminusfc/cminusf_builder.cpp:98-167 | the code of every well-typed function is what Mem2Reg asks for: unique identities, definitions that dominate their uses, scalar addresses only loaded from and stored to, successors as the terminators say |
| DefinedStmt.StmtPlaced | src/cminusfc/cminusf_builder.cpp:171-273 | the code of a statement keeps every instruction below its operands in the tree of blocks, and ends below where it began |
| Defined.ExprPlaced | src/cminusfc/cminusf_builder.cpp:275-472 | so does the code of an expression, whose value may be used from there on |
| Defined.ChainDominates | src/cminusfc/cminusf_builder.cpp:199-256 | a block dominates all blocks that were opened from it, and from those |
| DeadEnds.LivePredsIffFine | src/cminusfc/cminusf_builder.cpp:98-273 | for every well-typed function: all predecessors of reachable blocks are reachable if and only if no dead end of the syntax tree leads to where control can be |
| DeadEnds.StmtGoes | src/cminusfc/cminusf_builder.cpp:171-273 | for each statement, the syntax tree says whether its code ends in a return, whether control comes to its last block, and whether a dead block gets an edge to a live one |
| DeadEnds.TwoArmsGo | src/cminusfc/cminusf_builder.cpp:209-232 | control comes behind an `if` with `else` if it comes out of one arm, and then the end of the other must not be dead |
| DeadEnds.LoopGoes | src/cminusfc/cminusf_builder.cpp:235-256 | control comes behind every loop, and back to its head over no dead edge exactly if the body has no dead end |
| Pipeline.GenerateAndPromote | src/optimization/Mem2Reg.cpp:14-31 | generation and promotion together get through exactly if the assertion of `re_name` does not fail; then a call ends as its source means if and only if the promoted code does, and reachable blocks hold no scalar access |
| Walking.WalkIsRun | src/lightir/Instruction.cpp:219-233 | code without phis runs instruction by instruction as it runs block by block |
| WellFormed.GeneratedIsWellFormed | src/cminusfc/cminusf_builder.cpp:98-332 | every generated graph is well formed: one terminator at the end of each block, edges as the terminators say, no edge into the entry, at most two predecessors |
| WellFormed.StmtGrows | src/cminusfc/cminusf_builder.cpp:171-273 | a statement closes every block it opens except the one it ends in, gives no old block a new predecessor, and leaves the scopes as they were |
| Emitted.CondBrOk | src/lightir/Instruction.cpp:219-226 | a conditional branch keeps predecessor and successor lists in agreement |
| CminusfBuilder.CminusfBuilder.VisitProgram | src/cminusfc/cminusf_builder.cpp:50-61 | every function of a well-typed program is generated, in order, and well formed |
| CminusfBuilder.CminusfBuilder.VisitFunDeclaration | src/cminusfc/cminusf_builder.cpp:98-167 | the function is what `GenFunction` says, and the scopes around it gain its name only |
| CminusfBuilder.CminusfBuilder.VisitCompound | src/cminusfc/cminusf_builder.cpp:171-192 | a scope of its own unless it is the body of a function, and no code behind a return |
| CminusfBuilder.CminusfBuilder.VisitSelection | src/cminusfc/cminusf_builder.cpp:199-233 | the blocks, branches and insert points of an `if` |
| CminusfBuilder.CminusfBuilder.VisitIteration | src/cminusfc/cminusf_builder.cpp:235-256 | the blocks, branches and insert points of a loop |
| CminusfBuilder.CminusfBuilder.VisitReturn | src/cminusfc/cminusf_builder.cpp:258-273 | a return converts to the type of the function |
| CminusfBuilder.CminusfBuilder.VisitVar | src/cminusfc/cminusf_builder.cpp:275-332 | the address or the value of a variable or element, as the flag demands, which is down afterwards |
| CminusfBuilder.CminusfBuilder.VisitAssign | src/cminusfc/cminusf_builder.cpp:334-348 | value, address, conversion, store |
| CminusfBuilder.CminusfBuilder.VisitBinary | src/cminusfc/cminusf_builder.cpp:350-453 | the code of the left operand, then of the right one, then exactly the instructions that `BinaryCode` lists for the types of the operands |
| CminusfBuilder.CminusfBuilder.Promote | src/cminusfc/cminusf_builder.cpp:26-40 | operands of one type stay as they are; of an int and a float, the int gets one `sitofp` and the float stays; the answer is whether both are ints |
| CminusfBuilder.CminusfBuilder.VisitCall | src/cminusfc/cminusf_builder.cpp:455-472 | arguments converted one after the other, then the call |
| CminusfBuilder.CminusfBuilder.CreateCondBr | src/lightir/Instruction.cpp:219-226 | the edges and the instruction of a conditional branch |
| Scoping.Scope.Find | include/cminusf_builder.hpp:32-41 | the binding in the innermost scope that has the name |
| Scoping.Scope.Push | include/cminusf_builder.hpp:27-30 | a name keeps its binding if the scope has it already |
| Scoping.FindPushed | include/cminusf_builder.hpp:27-41 | a pushed name is found unless it was there, and every other name is found as before |
| Scoping.ScopeRestored | include/cminusf_builder.hpp:17-20 | leaving a scope undoes everything that was declared in it |
| Syntax.OpCodesDiffer | src/cminusfc/cminusf_builder.cpp:350-453 | different operators on different types are different instructions |
| Conversions.BothEmits | src/cminusfc/cminusf_builder.cpp:350-453 | a binary expression is its operands, then: for two ints the int operation, for two floats the float operation, for an int beside a float a `sitofp` of the int and the float operation; behind that a `zext` for each of the six comparisons and nothing else |
| Conversions.ConvertedIffMixed | src/cminusfc/cminusf_builder.cpp:26-40 | among those instructions is no `fptosi`, and one is a `sitofp` exactly if the operand types differ, on the int one |
| Conversions.BinaryType | src/cminusfc/cminusf_builder.cpp:405-415 | a binary expression is a float exactly if its operator is one of the four arithmetic ones and some operand is a float |
| Conversions.BinaryMeans | src/cminusfc/cminusf_builder.cpp:350-453 | its meaning: the left operand, the right one in the store behind it, and what the machine computes on them with those conversions |
| Conversions.LiteralType | src/cminusfc/cminusf_builder.cpp:63-68 | a literal has the type it is written with |
| Conversions.DeclaredAs | src/cminusfc/cminusf_builder.cpp:70-96 | the first declaration of a name in a scope decides: a variable of the declared type without a length, an array of it with one |
| Conversions.BoundAs | src/cminusfc/cminusf_builder.cpp:137-154 | so does the first parameter of a name, whose array is a variable that holds an address |
| Conversions.VariableType | src/cminusfc/cminusf_builder.cpp:275-332 | the type of a variable, an array and an element, from the declaration |
| Conversions.AssignType | src/cminusfc/cminusf_builder.cpp:334-348 | an assignment has the type of its target |
| Conversions.AssignEmits | src/cminusfc/cminusf_builder.cpp:334-348 | behind value and address, an assignment is one store, with one conversion before it if the type of the value is not the declared one of the target: `sitofp` to a float, `fptosi` to an int |
| Conversions.ArgEmits | src/cminusfc/cminusf_builder.cpp:455-472 | an argument takes the same conversion to the type of its parameter, and an array none |
| Conversions.ReturnEmits | src/cminusfc/cminusf_builder.cpp:258-273 | so does a result, to the type of the function, before the one `ret` |
| Conversions.RuntimeNames | include/cminusf_builder.hpp:49-77 | the four functions of the runtime have four identities, under their names, and `neg_idx_except` is the one that the check of an index calls |
| Dominators.Dominators.PostOrderVisit | src/optimization/Dominators.cpp:74-82 | the walk from a block visits only reachable blocks, all successors of what it visits, numbers each block when it is finished and above its children |
| DepthFirst.WalkNumbers | src/optimization/Dominators.cpp:66-72 | the numbers cover exactly the reachable blocks, the entry highest, and the list is in descending order |
| Dominators.Dominators.Intersect | src/optimization/Dominators.cpp:127-139 | terminates and returns the closest block that is on both idom chains |
| Dominators.Dominators.NewIdom | src/optimization/Dominators.cpp:94-114 | some predecessor has an idom already, and the result is the nearest common ancestor of all that do |
| IdomTree.UpdateInv | src/optimization/Dominators.cpp:92-121 | one update of `idom_` keeps: low paths along links, no dominator lost from a chain, links to depth-first ancestors, each link witnessed by predecessors |
| IdomTree.UpdateShrinks | src/optimization/Dominators.cpp:92-121 | an update only ever shrinks idom chains |
| IdomTree.UpdateKeepsDominators | src/optimization/Dominators.cpp:92-121 | every true dominator stays on the chain in every intermediate state |
| IdomTree.RankDrops | src/optimization/Dominators.cpp:90-121 | every change makes the termination measure smaller, on any graph |
| IdomTree.ChainIsDominators | src/optimization/Dominators.cpp:84-124 | when a pass changes nothing, the idom chain of a block is its set of dominators |
| Dominators.Dominators.CreateIdom | src/optimization/Dominators.cpp:84-124 | terminates on every graph with the exact dominator tree of the reachable blocks |
| Frontier.IdomIsImmediate | src/optimization/Dominators.cpp:84-124 | `get_idom(b)` strictly dominates b and is dominated by every strict dominator of b |
| Dominators.Dominators.Climb | src/optimization/Dominators.cpp:147-150 | the runner adds bb to the frontier of exactly the blocks between the predecessor and idom(bb) |
| Frontier.RunnerStopsIff | src/optimization/Dominators.cpp:147-150 | the runner loop for an edge stops exactly if its source is reachable or its target is not |
| Dominators.Dominators.CreateDominanceFrontier | src/optimization/Dominators.cpp:141-154 | the computed frontiers, as a relation on the idom tree |
| Frontier.ClimbsIsFrontier | src/optimization/Dominators.cpp:141-154 | that relation is dominance frontier: x dominates a predecessor of y but not strictly y |
| Frontier.FrontierExactIff | src/optimization/Dominators.cpp:141-154 | the frontiers of the reachable blocks are exact if and only if no edge leads into the entry |
| Dominators.Dominators.CreateDomTreeSucc | src/optimization/Dominators.cpp:156-165 | the children of a block in the dominator tree are the blocks it is idom of |
| Dominators.Dominators.Run | src/optimization/Dominators.cpp:6-27 | the whole analysis |
| Mem2Reg.Mem2Reg.CollectStores | src/optimization/Mem2Reg.cpp:36-55 | for each local variable, exactly the blocks that store to it |
| Mem2Reg.Mem2Reg.PlacePhis | src/optimization/Mem2Reg.cpp:59-76 | the work list terminates and one variable gets phis in exactly the least set closed under the frontier |
| Mem2Reg.Mem2Reg.GeneratePhi | src/optimization/Mem2Reg.cpp:33-77 | every block is its old instructions behind one phi for each variable placed there |
| Feeding.PhiIffIterated | src/optimization/Mem2Reg.cpp:57-76 | a reachable block has a phi for v exactly if it is in the iterated dominance frontier, defined by paths alone, of the stores to v |
| PhiPlacement.StoreBlocksOfAlloca | src/optimization/Mem2Reg.cpp:36-55 | those are the blocks with a store instruction to its address, for every alloca |
| SsaForm.Build.PhiPlacementLemma | src/optimization/Mem2Reg.cpp:57-76 | a block without a phi for v finds the same values of v at the end of each predecessor as at the end of its idom |
| RenameSteps.RenameLoad | src/optimization/Mem2Reg.cpp:94-104 | a load is replaced by the latest value, which is never itself a replaced load |
| Mem2Reg.Mem2Reg.FillSuccessors | src/optimization/Mem2Reg.cpp:118-130 | the phis of each successor receive the latest values of their variables, unless a variable with an entry has no value, on which the assertion fails |
| Mem2Reg.Mem2Reg.PopAll | src/optimization/Mem2Reg.cpp:138-152 | the pops undo the pushes of the block |
| Mem2Reg.Mem2Reg.ReName | src/optimization/Mem2Reg.cpp:79-158 | terminates, and fails exactly if an edge of the dominator subtree is asked for a value of a variable whose entry is empty; else it restores every stack, renames each block of the subtree once and feeds each edge out of it once |
| Mem2Reg.Mem2Reg.FillPhis | src/optimization/Mem2Reg.cpp:119-130 | the assertion holds for all phis of a block, and then each that has a value gets it as a pair |
| Mem2Reg.Mem2Reg.RenameAll | src/optimization/Mem2Reg.cpp:132-135 | all children of a block and what is below them are renamed, unless an edge there is late, given that the children come in the order of their addresses |
| Filling.ValueIffSomeStore | src/optimization/Mem2Reg.cpp:79-158 | at the end of a block a variable has a value exactly if some path to there stores to it |
| Filling.LateIffFails | src/optimization/Mem2Reg.cpp:117-130 | what the stacks are like when `re_name` comes to an edge, stated by paths, dominance and addresses alone: when the assertion fails |
| Filling.FailsIffApart | src/optimization/Mem2Reg.cpp:117-135 | the assertion can fail for some addresses of the blocks if and only if a block that defines a variable and an edge without a value for it have sources neither of which dominates the other |
| Filling.StoredFirstNeverFails | src/optimization/Mem2Reg.cpp:117-130 | it never fails if every path stores before it joins |
| Feeding.FedIffStoredFirst | src/optimization/Mem2Reg.cpp:97-127 | no stack is empty when it is needed if and only if every path stores before it loads or joins |
| Preservation.PhiComplete | src/optimization/Mem2Reg.cpp:117-130 | a phi has exactly one operand for each edge from a reachable block at whose end its variable has a value, namely that value |
| Simulation.SimStep | src/optimization/Mem2Reg.cpp:91-115 | an instruction and what is left of it keep memory, trace, computed values and all variables stored to so far in agreement |
| Preservation.EnterSim | src/optimization/Mem2Reg.cpp:117-130 | so does following an edge into a block with phis, with or without an operand for it |
| Preservation.RenamingPreserves | src/optimization/Mem2Reg.cpp:33-179 | where every load comes after a store, the renamed code takes the same path, makes the same stores and calls, and returns the same, on every machine and from every state |
| Promotion.FinalPromoted | src/optimization/Mem2Reg.cpp:33-179 | in a reachable block all loads and stores that are left are of global variables and elements, and no alloca is of a scalar; it has one phi for each variable that needs one, with an operand for each edge on which the variable can have been stored to |
| Mem2Reg.Mem2Reg.RemoveAlloca | src/optimization/Mem2Reg.cpp:160-179 | every block loses exactly its scalar allocas |
| Mem2Reg.Mem2Reg.Run | src/optimization/Mem2Reg.cpp:14-31 | the pass gets through if and only if its assertion does not fail, and then preserves every run and promotes every reachable block |
| FuncInfo.FuncInfo.TrivialMark | include/optimization/FuncInfo.h:46-67 | a function is left pure exactly if it is defined, not `main`, has scalar parameters only, and each of its loads and stores follows first addresses back to an alloca |
| FuncInfo.FuncInfo.Process | include/optimization/FuncInfo.h:69-81 | the callers of an impure function become impure, and the measure of the loop does not grow |
| FuncInfo.FuncInfo.Run | include/optimization/FuncInfo.h:18-31 | terminates with a function impure exactly if calls lead from it to one with such an effect of its own |
| FuncInfo.RootedIffFromAlloca | include/optimization/FuncInfo.h:99-127 | an address counts as local exactly if a chain of first addresses of elements and phis leads back to an alloca |
| FuncInfo.ReachesIffEffect | include/optimization/FuncInfo.h:18-97 | what the work list computes is: calls lead to a declaration, to `main`, to an array parameter, or to a load or store that is not of a local variable |
| Spreading.Exact | include/optimization/FuncInfo.h:25-29 | an exhausted work list has marked exactly what reaches a root |
| Spreading.InEveryClosed | include/optimization/DeadCode.h:45-51 | what reaches a root is in every closed set that holds the roots: it is the least one |
| Purity.InvokeUntouched | include/optimization/FuncInfo.h:10-13 | a call of a pure function has stored to nothing outside itself and called nothing outside the program, whether it returns, is stuck or is still running |
| Determinism.InvokeTwin | include/optimization/FuncInfo.h:10-13 | calls of a pure function with the same arguments end the same way and return the same, whatever memory holds |
| Determinism.PurityIsSound | include/optimization/FuncInfo.h:18-127 | both hold of every function the analysis leaves pure, under mutual recursion |
| DeadCode.DeadCode.MarkOperands | include/optimization/DeadCode.h:52-64 | the definitions of the operands are marked and queued |
| DeadCode.DeadCode.Mark | include/optimization/DeadCode.h:32-51 | terminates with an instruction marked exactly if a chain of operands leads down to it from a branch, a return, a store or a call of a function that is not pure |
| DeadCode.DeadCode.Sweep | include/optimization/DeadCode.h:65-85 | exactly the unmarked instructions are erased, in whatever order, and the answer is whether there were any |
| Liveness.StaysIffNeeded | include/optimization/DeadCode.h:32-102 | the same of one function, without the notion of a critical instruction |
| Liveness.UnusedIsGone | include/optimization/DeadCode.h:86-102 | an arithmetic instruction, load, element address, alloca, phi or call of a pure function whose result nobody uses is gone |
| Liveness.NoUseOfErased | include/optimization/DeadCode.h:65-85 | no instruction that is left uses an erased one |
| Liveness.NothingDeadLeft | include/optimization/DeadCode.h:16-28 | after a sweep every instruction is live |
| Liveness.SweptTwice | include/optimization/DeadCode.h:16-28 | sweeping again erases nothing |
| DeadCode.DeadCode.Run | include/optimization/DeadCode.h:16-28 | the loop ends after one round, or two if anything was dead, with every function swept: an instruction of the input is left exactly if such a chain leads to it |
| Sweeping.InvokeSwept | include/optimization/DeadCode.h:16-100 | for any fuel: every effect and every block of a run comes in the run of the swept program, too, in the same order; if the call returns, or no dead call fails, both have ended or are under way alike, with the same memory outside the call |
| Sweeping.DeadCodePreserves | include/optimization/DeadCode.h:16-100 | the same with the purity that the analysis computes, for returning, stuck and endless runs |
| Converse.InvokeBack | include/optimization/DeadCode.h:16-100 | if pure calls return, every effect, block and ending of the swept program is one of the program, given more fuel |
| Converse.DeadCodeChangesNothing | include/optimization/DeadCode.h:16-100 | if pure calls return, program and swept program have the same endings and go through the same blocks with the same effects, ended or not |
| Converse.EliminateDeadCode | include/optimization/DeadCode.h:13-28 | analysis and elimination together compute the swept program, and preserve in both senses |
| LostLoop.LoopIsLost | include/optimization/DeadCode.h:52-100 | without that condition, a program that never returns can return when it is swept |
| Addresses.LocalIffRooted | include/optimization/FuncInfo.h:99-127 | an address counts as local exactly if all it can come from, through elements and phis, are local variables, for all addresses if and only if the phis that count as local have only local operands |
| Addresses.NoEffectIffInside | include/optimization/FuncInfo.h:46-127 | with rooted phis, a function has no effect of its own exactly if it is defined, is not `main`, takes scalars, and no load or store of it can go anywhere but to its local variables |
| Addresses.SelfContainedIsPure | include/optimization/FuncInfo.h:18-97 | functions like that which call only each other are left pure |
| Partition.EquivIsSame | src/optimization/GVN.cpp:703-719 | expressions compare equal exactly if they have the same structure |
| Partition.JoinIsMeet | src/optimization/GVN.cpp:135-185 | after the loops over all pairs of classes, two values share a class exactly if they share one on both sides |
| Gvn.Gvn.Intersect | src/optimization/GVN.cpp:157-185 | the common members as a class, none if there are none; led by the least of them or by the constant; with the expression of the left class if the leaders agree, else with the phi of the left and the right expression, so that on each edge it has the value of that side |
| Gvn.Gvn.Join | src/optimization/GVN.cpp:135-155 | the join is well formed and the meet of its operands, and each of its classes comes from a pair as `Intersect` says; top on one side gives the other side |
| Partition.IntersectionMeans | src/optimization/GVN.cpp:157-185 | the same of one pair, on values |
| Gvn.Gvn.Clone | src/optimization/GVN.cpp:729-735 | new classes with the same contents |
| Gvn.Gvn.TransferFunction | src/optimization/GVN.cpp:450-503 | the value goes to the first other class that has its expression or its value phi, which keeps its other fields, or to a new class with them that is led by the constant or the value itself; all other classes lose that value at most; only copies are changed |
| Partition.TransferMovesOnly | src/optimization/GVN.cpp:450-503 | the value of the instruction moves to the first class that matches, or to one of its own, and no other two values are put together or taken apart |
| Partition.WhereItGoes | src/optimization/GVN.cpp:450-503 | the instruction shares its class with y exactly if y is in the first other class with the same expression or a value phi that is there and the same, by structure |
| Partition.TransferDrops | src/optimization/GVN.cpp:471-474 | an instruction without a value expression is in no class afterwards, and no other value moves |
| Partition.EqualIsSame | src/optimization/GVN.cpp:737-749 | partitions that compare equal relate the same values |
| Partition.EqualIffMembers | src/optimization/GVN.cpp:737-763 | partitions compare equal exactly if their classes have the same members in the same order; indices, leaders and expressions do not matter |
| Partition.SameButNotEqual | src/optimization/GVN.cpp:737-749 | the other way round it fails: partitions that relate the same values can compare different |
| UseDef.Value.SetOperands | src/lightir/User.cpp:15-20 | filling reserved operands once each keeps the use lists right |
| UseDef.AddKeeps | src/lightir/User.cpp:22-26 | so does appending an operand |
| UseDef.Value.AddOperand | src/lightir/User.cpp:22-26 | the operands and the use list after `add_operand` |
| UseDef.Value.RemoveUseOfOps | src/lightir/User.cpp:30-34 | every operand forgets the user |
| UseDef.WithdrawKeeps | src/lightir/User.cpp:30-34 | then the use lists are right for all users but that one |
| UseDef.Value.ReplaceAllUseWith | src/lightir/Value.cpp:14-21 | the operands and use lists after the replacement |
| UseDef.ReplaceAllIsRight | src/lightir/Value.cpp:14-21 | an operand changes exactly if it was the old value, whose use list is empty then, and all use lists stay right |
| UseDef.Value.ReplaceUseWithWhen | src/lightir/Value.cpp:28-40 | the operands and use lists after the selective replacement |
| UseDef.ReplaceWhenIsRight | src/lightir/Value.cpp:28-40 | an operand changes exactly if it was the old value and its user satisfies the predicate, and all use lists stay right |
| UseDef.EraseKeeps | src/lightir/BasicBlock.cpp:25-28 | values that nobody uses any more can be erased |
| UseDef.WithdrawAll | include/optimization/DeadCode.h:79-82 | sweeping withdraws the uses of all instructions it is about to erase |
| Limits.RunnerNeverStops | src/optimization/Dominators.cpp:147-150 | on the code of a loop whose body returns in both branches of an `if`, the runner loop does not terminate |
| Limits.OneBranchFails | src/optimization/Mem2Reg.cpp:123-126 | when each arm of an `if` sets another variable, the assertion fails wherever the blocks are in memory, though no variable is read before it is set |
| Limits.LoopLocalSucceeds | src/optimization/Mem2Reg.cpp:123-127 | when a loop body sets a variable first, one edge into its phi has no value, and the pass gets through all the same |
| BothReturn.GeneratedDeadJoin | src/cminusfc/cminusf_builder.cpp:199-273 | the code generator emits that graph, for a well-typed function |
| OneBranchCode.GeneratedOneBranch | src/cminusfc/cminusf_builder.cpp:98-233 | the code generator emits that code, for a function that never reads the variable |
| PhiLimit.ChooserLooksPure | include/optimization/FuncInfo.h:112-127 | a store through a phi of a local and a global address counts as local |
| PhiLimit.ChooserStores | include/optimization/FuncInfo.h:112-127 | running it stores to the global |

## Left out

- Mem2Reg.Mem2Reg.Run: excludes functions with a reachable join of an unreachable predecessor (the dominance frontier does not terminate) and with a load that some path reaches before a store (the load stays behind, or the last element of an empty vector is read); promises nothing about the code when the assertion fails, since the compiler stops there; is one function: the loop over the functions of a module and the emptiness of `var_val_stack` between them are not modelled.
- Dominators.Dominators.CreateDomTreeSucc: blocks without an idom, which the code files under the null pointer, are skipped.
- FuncInfo.FuncInfo.Run: needs addresses to be computed from values created before, since `get_first_addr` would not terminate on a cycle.
- UseDef.Value.SetOperands: `set_operand` on an operand that is already set leaves a stale use behind and is outside the invariant; so is `User::remove_operands`, which does not renumber the later uses.
- `Dominators::create_doms`: not called by `run`.
- LoweringFun.CodeGenerationIsCorrect: excludes calls that read a local variable before it is set, whose code reads whatever the slot holds; needs the addresses of the local arrays in the meaning to be those of their allocas in the run (`HomesOk`).
- CminusfBuilder.CminusfBuilder.VisitReturn: needs a function with a result if the return has a value; the C++ code would convert the value to a type that does not exist.
- CminusfBuilder.CminusfBuilder.VisitVar: calls `neg_idx_except` itself, whatever the name stands for in scope; a program that declares a variable of that name makes the C++ code fail.
- The initial values and sizes of global variables and local arrays, and a declaration that hides an earlier one in the same scope: its alloca is emitted and never used, as in the C++ code.
- Syntax.OpCodesDiffer: says that the opcodes are distinct; which machine operation one stands for is up to the machine.
- Pipeline.GenerateAndPromote: excludes functions with a dead end that leads to where control can be, on which the dominance frontier does not terminate, and with a load that some path reaches before a store; the latter is asked of the generated code.
- Dominators.Dominators.CreateDominanceFrontier: excludes reachable joins with an unreachable predecessor, on which the C++ loop does not terminate (`Limits.RunnerNeverStops`).
- Dominators.Dominators.Run: excludes the same.
- Determinism.PurityIsSound: asks for rooted phis in the functions that are left pure; without them it is false (`PhiLimit.ChooserStores`).
- Sweeping.DeadCodePreserves: asks for rooted phis in the functions that are left pure, since it rests on the same analysis.
- Converse.EliminateDeadCode: asks for the same.
- UseDef.Value.ReplaceAllUseWith: excludes replacing a value by itself, on which the C++ loop runs over a list that it extends.
- UseDef.Value.ReplaceUseWithWhen: excludes the same.
- `Running` and `Program` give the same instructions two meanings, one function with slots for scalars and whole programs with one memory: the theorems about Mem2Reg and those about dead code are not composed.
- Floating-point arithmetic: operations on floats are uninterpreted, like those on ints.
- Gvn.Gvn.TransferFunction: takes the value expression and value phi of the instruction as parameters; how GVN computes them, its fixpoint over the blocks and the replacement of values by leaders are not part of this model.
- Parsing, syntax trees, printing, logging, type and constant interning, the driver.
