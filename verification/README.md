# Verified model of the SysY to RISC-V compiler core

The compiler turns structured SysY statements into a control flow graph, optionally promotes
stack variables to SSA form, selects RISC-V instructions, removes phis, allocates registers and
finally opens and closes a frame around every function. This project models those steps, branch
for branch, and proves that each of them keeps what it is there to keep.

Passes that edit state in place are classes whose methods update the same fields as the source
(`Cfa`, `Mem2reg`, `LivenessAnalysis`, `RegAlloc`, `PhiElimination`, `IrGen`, `GlobalData`,
`Builder`, `FunctionFrame`); what is proved about them is stated over value-level predicates.
Instruction meanings, initial states and the choice of the next queue element, the next element of
an unordered set and the branch taken at run time are arbitrary everywhere.

| part | files | main results |
|---|---|---|
| control flow analysis | `ControlFlowGraph`, `DepthFirstTree`, `ControlFlowAnalysis` | semi-NCA immediate dominators, dominator tree and dominance frontiers are exact |
| promotion to SSA | `SsaProgram`, `Renaming`, `RenamingSimulation`, `RenamingTypes`, `PhiPlacement`, `RenamingWalk`, `Mem2reg` | phis stand exactly at iterated frontiers; the renamed program has the same runs and keeps classes |
| liveness | `BackendRegisters`, `AsmProgram`, `Liveness`, `LiveRanges`, `LivenessAnalysis` | least solution and exactly when it is found everywhere, exact ranges, sound interference |
| register allocation | `ConflictScan`, `RangeSeparation`, `AllocatorState`, `AllocationChoice`, `SpillWeights`, `StaleRanges`, `AllocatorRanges`, `AllocatorCode`, `SpillCode`, `AllocatedCode`, `AllocatedClasses`, `AllocationSimulation`, `RegAlloc` | the short conflict scan finds all conflicts, which register an alloc gets, no sharing as long as eviction is complete, termination, same runs after rewriting and spilling, what is never spilled |
| phi elimination | `PhiProgram`, `PhiCopies`, `PhiSimulation`, `PhiClasses`, `PhiElimination` | parallel copies, critical edges split, same runs, register classes |
| lowering | `StructuredProgram`, `LoweredCode`, `LoweredStatements`, `IrGen` | the graph and the statements mean the same, both ways |
| initialisers | `Initialisers`, `InitialiserLists`, `InitialiserMeaning`, `Normalisation`, `NormalisationExact`, `ScalarPlaces`, `ScalarKinds`, `LocalInitialiser` | exactly which lists are normalised to the declared shape with the values they denote; local code and global data agree |
| frame | `FrameCode` | disjoint slots, everything restored, twelve-bit immediates |

## What the results require

- Control flow: every block is reachable and the edge lists are inverse to each other. The frontier loop
  never adds the entry to its own frontier, so it is exact on all blocks exactly if the entry has no
  predecessors (`FrontiersExactIffEntryHasNoPreds`).
- Promotion: a promoted load finds a definition exactly if it comes after a store to its variable on some
  path (`LoadsInReachIff`). Elsewhere `src/ir/passes/mem2reg.cpp:118` tests the whole map of stacks rather
  than one stack: as long as that map is empty, which it is until the first stack is pushed to or looked up
  for a phi, the load becomes a zero; afterwards the top of an empty stack is read, and the walk is not
  followed any further (`Replacement`, `TopOfNothing`). `Run` reports which it was, and that no such load is
  met if every load comes after a store on some path, or if nothing promoted is stored to, as in `int x;
  return x;`. What is kept are the runs that store to a promoted variable before they load it. A loaded
  value is never the address of another load or store, because `src/ir/instruction.cpp:220-230` does not
  rewrite that field; `AddressStaysIff` says that this is exactly when no instruction is left with the
  removed result. A zero has the class of its variable in every program (`ZeroHasClass`); that all operands
  of a phi do takes a program that stores and loads operands of the right class (`RenamingKeepsClasses`).
  `src/main.cpp:43-46` never runs the pass.
- Liveness: no register is live into a block from which the last one cannot be reached, since the sweep
  starts there (`src/backend/passes/liveness.cpp:90`). `SolvedIffNothingUnseen` says that this is exactly
  when the result is the least solution, and `EndlessLoopMissed` gives a function where it is not; what is
  computed then is stated too (`Analyze`). Every loop that the front end builds has an exit edge.
- Allocation: registers may have several ranges. Eviction erases only the first stored range of a victim
  (`src/backend/passes/regalloc.cpp:347`), so a step keeps the invariant exactly if every alloc it evicts
  has one range (`EvictionKeepsIff`, `TryAllocate`); `SharingReached` shows what a range left behind leads
  to: three iterations later two conflicting allocs share a register. `AllocateAll` and `GreedyAllocation`
  say whether that happened; in a function whose virtual registers have one range each, as today's pipeline
  builds them, it never does. Where it stays intact, a register that conflicts with fewer others than there
  are registers free for it is never spilled (`FewNeighboursFit`, `AllocateAll`).
- The short conflict scan needs nothing of the kind: `CodeScanIsFull` holds for every register and every
  number of ranges.
- Instructions with virtual operands define one register, have at most two distinct virtual inputs and do
  not define a virtual register they use; the scratch registers are not live around them. No virtual
  register is live into the entry, callee-saved registers are not mentioned before allocation, and every
  block is nonempty and reachable.
- Phi elimination: the entry has no phis, every phi has one operand for each predecessor, and a block with
  several successors names each of them once. The address of a global, or of a place off a register other
  than x8, is computed straight into the result (`src/backend/passes/phi_elimination.cpp:219-245`), which no
  instruction does for a float result. That no phi has such an operand, or one of the other register class,
  is exactly what it takes for all inserted code to be made of instructions that exist (`CopyClassedIff`,
  `Run`).
- Frames: the aligned size is below two gibibytes, because the source keeps it in a signed 32-bit variable;
  `SizeFitsExactlyWhenSmall` says that this is exactly when the conversion keeps it.
- Initialiser lists: a list is allowed if every brace opens where a part of the array begins and nothing is
  left over (`Legal`). Normalisation is right for all values exactly if every run closes
  (`NormalisationRightIff`): a run of scalars and braces is counted as an element of the array at the item
  that fills the element; or it is never counted as one and the list ends no later than there; or it is
  counted too early and only empty braces follow; and so on inside every element, with scalars of the
  element kind. A brace inside a run is miscounted (`BraceInRunCountedRight`), so `{1, 2, {3, 4}, 5}` for
  two by two by two gets a tree of the wrong shape (`BraceInsideRunBreaksShape`), while without the `5` it
  is right (`BraceAtTheEnd`). A scalar of another kind than the elements that stands directly in a list for
  an array of arrays is dropped by `src/frontend/ast.cpp:124`, and nothing casts it before: `float a[2][2] =
  {1, 2, 3, 4};` is all zeros (`TypedWithoutLost`, `IntegersLostInFloats`). Where braces open only elements
  of their own array, having no such scalar is the whole condition (`RightIffKindsAgree`).

## Model

| member | source | states |
|---|---|---|
| `ControlFlowAnalysis.Cfa.Dfs` | src/ir/passes/control_flow_analysis.cpp:11-25 | from an unnumbered block, numbers exactly the blocks reached over unnumbered ones; father and subtree facts of a depth-first tree hold |
| `ControlFlowAnalysis.Cfa.Number` | src/ir/passes/control_flow_analysis.cpp:79-81 | numbers every block of the function once; the result is a depth-first tree of the whole graph |
| `DepthFirstTree.PathStaysInSubtree` | src/ir/passes/control_flow_analysis.cpp:11-25 | a path that never goes below a number, started inside its subtree, stays inside it |
| `DepthFirstTree.CandidateIsSound` | src/ir/passes/control_flow_analysis.cpp:39-46 | whatever the climb from a predecessor offers is the start of a semidominator path |
| `DepthFirstTree.CandidatesAreComplete` | src/ir/passes/control_flow_analysis.cpp:39-46 | every semidominator path into a block is offered by some step of some climb |
| `ControlFlowAnalysis.Cfa.Climb` | src/ir/passes/control_flow_analysis.cpp:39-46 | the climb from one predecessor terminates, keeps to candidates, and covers every ancestor above the block |
| `ControlFlowAnalysis.Cfa.MinimumOverPredecessors` | src/ir/passes/control_flow_analysis.cpp:39-47 | the minimum stored for a block is its semidominator |
| `ControlFlowAnalysis.Cfa.GenSdom` | src/ir/passes/control_flow_analysis.cpp:27-48 | all blocks of the subtree and those numbered above have their semidominator stored |
| `DepthFirstTree.StrictDominatorsOf` | src/ir/passes/control_flow_analysis.cpp:50-54 | the strict dominators of a block are exactly the dominators of its father that do not exceed its semidominator |
| `ControlFlowAnalysis.Cfa.ClimbToIdom` | src/ir/passes/control_flow_analysis.cpp:51-54 | the climbing loop terminates and ends at the immediate dominator |
| `ControlFlowAnalysis.Cfa.GenIdom` | src/ir/passes/control_flow_analysis.cpp:50-62 | every block of the subtree has its immediate dominator |
| `ControlFlowAnalysis.DominanceTransfers` | src/ir/passes/control_flow_analysis.cpp:85-88 | dominance between numbers is dominance between the blocks they stand for |
| `ControlFlowAnalysis.Cfa.ComputeIdoms` | src/ir/passes/control_flow_analysis.cpp:79-88 | each block other than the entry is mapped to exactly its immediate dominator |
| `ControlFlowAnalysis.Cfa.TranslateIdoms` | src/ir/passes/control_flow_analysis.cpp:85-88 | the map over blocks has the immediate dominators found over numbers |
| `ControlFlowAnalysis.Cfa.BuildDomTree` | src/ir/passes/control_flow_analysis.cpp:90-95 | each block lists exactly the blocks it immediately dominates, once each, in whatever order the pairs come |
| `ControlFlowAnalysis.Cfa.ClimbFrontier` | src/ir/passes/control_flow_analysis.cpp:101-105 | the climb from one predecessor terminates and adds the block to exactly the frontiers of the blocks passed |
| `ControlFlowAnalysis.Cfa.FrontiersOf` | src/ir/passes/control_flow_analysis.cpp:98-107 | one block is in exactly the frontiers it belongs in, other blocks are not moved |
| `ControlFlowAnalysis.NoFrontierOfSinglePred` | src/ir/passes/control_flow_analysis.cpp:100 | a block with one predecessor is in no frontier, so skipping it loses nothing |
| `ControlFlowAnalysis.FrontiersExactIffEntryHasNoPreds` | src/ir/passes/control_flow_analysis.cpp:97-108 | the result is exact on all blocks if and only if the entry has no predecessor |
| `ControlFlowAnalysis.Cfa.Run` | src/ir/passes/control_flow_analysis.cpp:64-109 | immediate dominators, dominator tree and frontiers are all exact; of the entry block it is said exactly which frontiers receive it |
| `Mem2regPass.Mem2reg.IsAllocaPromotable` | src/ir/passes/mem2reg.cpp:13-30 | true exactly if every user of the address loads from it or stores something else to it |
| `Mem2regPass.Mem2reg.GenPromotable` | src/ir/passes/mem2reg.cpp:32-54 | selects exactly the scalar allocations of the entry block whose address does not escape, removes those and nothing else, and remembers the type each was allocated with |
| `PhiPlacement.RunCleared` | src/ir/passes/mem2reg.cpp:49 | removing the allocations of promoted variables changes no run |
| `Mem2regPass.Mem2reg.CollectDefs` | src/ir/passes/mem2reg.cpp:57-71 | collects for each variable exactly the blocks that store to it, and queues the same blocks |
| `Mem2regPass.Mem2reg.PlacePhi` | src/ir/passes/mem2reg.cpp:83-93 | one phi goes to the head of the frontier block, which is queued unless it stores to the variable |
| `Mem2regPass.Mem2reg.PlaceAtFrontier` | src/ir/passes/mem2reg.cpp:78-94 | after one block its whole frontier has phis, nothing outside the iterated frontier has, and the unplaced part shrinks |
| `Mem2regPass.Mem2reg.PlacePhis` | src/ir/passes/mem2reg.cpp:73-96 | the worklist terminates with exactly the iterated dominance frontier, the least set closed under it |
| `Mem2regPass.Mem2reg.InsertPhi` | src/ir/passes/mem2reg.cpp:56-97 | every promoted variable has one empty phi in each block of the iterated frontier of its stores and nowhere else, so none that the frontiers do not ask for; bodies are untouched |
| `Mem2regPass.Mem2reg.ReplaceAllUses` | src/ir/passes/mem2reg.cpp:130-137 | every instruction that reads the removed result reads the new operand instead |
| `RenamingWalk.AddressStaysIff` | src/ir/instruction.cpp:220-230 | afterwards some instruction still reads the removed result if and only if it is the address of a load or store |
| `Mem2regPass.Mem2reg.PushPhisOf` | src/ir/passes/mem2reg.cpp:142-151 | the phis at the head of a block are on top of the stacks of their variables |
| `Mem2regPass.Mem2reg.Replacement` | src/ir/passes/mem2reg.cpp:117-128 | a load is replaced by a zero of the class of its variable as long as there is no stack at all, else by the top of the stack of its variable; whether there is one is reported |
| `Mem2regPass.Mem2reg.RemoveLoad` | src/ir/passes/mem2reg.cpp:115-139 | a promoted load is gone and its users read what replaces it; nothing changes if there is nothing to replace it |
| `Mem2regPass.Mem2reg.ScanBlock` | src/ir/passes/mem2reg.cpp:102-159 | at every point of the block the stacks hold what reaches it; promoted loads and stores are gone, counts match the pushes; not followed behind a load that reads the top of an empty stack |
| `Mem2regPass.Mem2reg.FillPhisOf` | src/ir/passes/mem2reg.cpp:162-177 | each phi of one successor gets, for this edge, the top of the stack of its variable or the zero of its type, and changes nothing else |
| `Mem2regPass.Mem2reg.FillSuccessors` | src/ir/passes/mem2reg.cpp:161-178 | so do the phis of all successors |
| `Mem2regPass.Mem2reg.PopTimes` | src/ir/passes/mem2reg.cpp:185-187 | pops exactly as often as the block pushed |
| `Mem2regPass.Mem2reg.PopAll` | src/ir/passes/mem2reg.cpp:184-188 | every stack is as it was before the block |
| `Mem2regPass.Mem2reg.Rename` | src/ir/passes/mem2reg.cpp:99-189 | the walk renames exactly the blocks dominated by the given one and returns with every stack as it found it, unless a load reads the top of an empty stack |
| `PhiPlacement.LoadsInReachIff` | src/ir/passes/mem2reg.cpp:118-128 | with phis where the frontiers ask for them and nowhere else, a definition reaches every promoted load if and only if every such load comes after a store to its variable on some path |
| `PhiPlacement.TopOfNothing` | src/ir/passes/mem2reg.cpp:118-128 | a program of one block that stores to one variable and loads another: when the walk comes to the load there is a stack, so no zero is taken, and the stack read is empty |
| `RenamingSimulation.EnterRelated` | src/ir/passes/mem2reg.cpp:161-178 | crossing an edge, the phis take the values that the variables hold |
| `RenamingSimulation.StackAtPred` | src/ir/passes/mem2reg.cpp:180-182 | where a variable has no phi, the stack inherited from the dominator tree is right at every predecessor |
| `RenamingSimulation.RemovedLoad` | src/ir/passes/mem2reg.cpp:115-139 | the operand that replaces a removed load has the value of the variable |
| `RenamingSimulation.LoadGetsLastStore` | src/ir/passes/mem2reg.cpp:99-189 | in every run that stores before it loads, at every removed load, the operand substituted for its result has the value the last executed store wrote |
| `RenamingSimulation.RenamingPreservesRuns` | src/ir/passes/mem2reg.cpp:99-189 | along every path on which promoted variables are stored to before they are loaded, whatever instructions mean, the renamed program shows the same events and leaves the same world |
| `RenamingWalk.RenamedRunsSame` | src/ir/passes/mem2reg.cpp:193-214 | and so it does compared with the program before allocations were removed |
| `RenamingTypes.ZeroHasClass` | src/ir/passes/mem2reg.cpp:117-128 | where no definition reaches a phi operand or a load, it is the float zero exactly if the entry block allocates its variable for a float, whatever the program stores |
| `RenamingTypes.RenamingKeepsClasses` | src/ir/passes/mem2reg.cpp:99-189 | if variables are stored from and loaded into operands of their class, every phi operand and every operand that replaces a load has the class of its variable |
| `Mem2regPass.Mem2reg.RenameAll` | src/ir/passes/mem2reg.cpp:208-213 | the walk from the entry with empty stacks renames the whole function, with the classes of the variables as given |
| `Mem2regPass.Mem2reg.Run` | src/ir/passes/mem2reg.cpp:193-214 | the promoted variables are those of the definition; no load reads the top of an empty stack if every load comes after a store on some path or nothing promoted is stored at all, where zeros are taken; and whenever none does, the program keeps all its runs that store before they load and no access to a promoted variable is left |
| `AsmProgram.LiveInLeast` | src/backend/passes/liveness.cpp:112-136 | any solution of the dataflow equations, on blocks that no edge leaves, contains every register that is live into a block by way of a path |
| `AsmProgram.UsesExactly` | src/backend/passes/liveness.cpp:47-64 | the use set has exactly the registers that some instruction uses and none before it defines |
| `LivenessPass.LivenessAnalysis.NumberBlock` | src/backend/passes/liveness.cpp:37-67 | numbers the instructions of a block consecutively and collects its use and definition sets exactly |
| `LivenessPass.LivenessAnalysis.DepthFirstNumbering` | src/backend/passes/liveness.cpp:30-73 | numbers everything reachable, each instruction once |
| `LivenessPass.LivenessAnalysis.UnionOfSuccessors` | src/backend/passes/liveness.cpp:111-123 | computes the union of the In sets of the successors |
| `LivenessPass.LivenessAnalysis.Visit` | src/backend/passes/liveness.cpp:102-153 | both sets of the block only grow, stay below the least solution, and a change is reported |
| `LivenessPass.LivenessAnalysis.Sweep` | src/backend/passes/liveness.cpp:87-154 | one sweep from the last block against the edges visits exactly the blocks from which the last one can be reached |
| `LivenessPass.LivenessAnalysis.SolveDataflow` | src/backend/passes/liveness.cpp:80-155 | the fixpoint loop terminates with the least solution on those blocks and nothing on the others; it is the least solution of the function if and only if no register is live into one of the others |
| `Liveness.SolvedIffNothingUnseen` | src/backend/passes/liveness.cpp:90-91 | so for any pair of maps that are the least solution of the part the sweep sees and empty elsewhere |
| `Liveness.EndlessLoopMissed` | src/backend/passes/liveness.cpp:90-91 | a function with an endless loop: what the loop uses is live out of the block before it, and is not found there |
| `LiveRanges.LiveBeforeIsUseAhead` | src/backend/passes/liveness.cpp:178-221 | liveness inside a block is a use ahead with no definition before it |
| `LivenessPass.LivenessAnalysis.ScanDef` | src/backend/passes/liveness.cpp:181-200 | a definition closes the open range of its register, or records one of a single instruction |
| `LivenessPass.LivenessAnalysis.ScanDefs` | src/backend/passes/liveness.cpp:181-200 | for every register at once, the scan of all definitions of an instruction |
| `LivenessPass.LivenessAnalysis.ScanUses` | src/backend/passes/liveness.cpp:202-218 | for every register at once, the scan of all uses of an instruction |
| `LivenessPass.LivenessAnalysis.FlushBuffer` | src/backend/passes/liveness.cpp:223-226 | ranges still open at the top of the block are recorded as they are |
| `LivenessPass.LivenessAnalysis.ScanBlock` | src/backend/passes/liveness.cpp:161-226 | appends for every register exactly the ranges of the block |
| `LivenessPass.LivenessAnalysis.SortAll` | src/backend/passes/liveness.cpp:231-235 | every list is ordered by first instruction and holds the same ranges |
| `LivenessPass.LivenessAnalysis.Analyze` | src/backend/passes/liveness.cpp:75-236 | numbers of every function; the least solution on the blocks from which the last one can be reached, nothing on the others, and of every function the ranges that this gives; they are those of the live registers where none is live into one of the others |
| `LiveRanges.RangesExact` | src/backend/passes/liveness.cpp:169-226 | the ranges of a block cover an instruction exactly if it defines the register or the register is live next to it |
| `LiveRanges.ConflictMeaning` | include/backend/passes/liveness.h:22-26 | ranges conflict exactly if they share an instruction, apart from the last use of one at the definition of the other; the test is symmetric |
| `LiveRanges.LiveTogetherConflict` | include/backend/passes/liveness.h:22-26 | registers live at one point of a block, its ends included, have conflicting ranges there |
| `LiveRanges.DefinedUnderLiveConflict` | include/backend/passes/liveness.h:22-26 | a definition, even a dead one, conflicts with every register live after it |
| `LivenessPass.LiveTogetherInterfere` | src/backend/passes/liveness.cpp:157-229 | two registers live at the same point have some conflicting ranges |
| `LivenessPass.DefinitionInterferes` | src/backend/passes/liveness.cpp:157-229 | a register defined where another is live afterwards, or by the same instruction, has a conflicting range with it |
| `ConflictScan.LowerBound` | src/backend/passes/regalloc.cpp:254 | finds the first stored range that does not precede the given one |
| `ConflictScan.ScanRegister` | src/backend/passes/regalloc.cpp:253-272 | collects the conflicting allocs among the entries from one before the lower bound on |
| `ConflictScan.SkippedIsClear` | src/backend/passes/regalloc.cpp:254-258 | on any disjoint store, an entry skipped by the short scan conflicts with no range of a newcomer without a hidden one-instruction range |
| `ConflictScan.BlockLocalSkippedIsClear` | src/backend/passes/regalloc.cpp:254-258 | nor with one that has such a range, if stored ranges cross no block start and only ranges at a block start begin together |
| `ConflictScan.BlockLocalScanIsFull` | src/backend/passes/regalloc.cpp:253-272 | under the same two conditions the short scan equals the full one, whatever the newcomer |
| `RangeSeparation.BlockRangesTouch` | src/backend/passes/liveness.cpp:178-226 | the ranges of a register in one block lie one behind the other; two touch only where one instruction uses and defines it, and begin together only at the start of the block |
| `RangeSeparation.RangePair` | src/backend/passes/liveness.cpp:157-235 | so do any two ranges of a register in a whole function |
| `RangeSeparation.CodeScanIsFull` | src/backend/passes/regalloc.cpp:253-272 | on every disjoint store of ranges that liveness finds, for every virtual register of the function, however many ranges it has, the short scan equals the full one |
| `RangeSeparation.RangesSeparate` | src/backend/passes/liveness.cpp:157-235 | without an instruction that uses and defines one virtual register, no two ranges of a register share an instruction |
| `RangeSeparation.UpdateMakesTwo` | src/backend/passes/liveness.cpp:178-226 | an instruction that uses and defines a register gives it two ranges |
| `RangeSeparation.OneRangeNoUpdate` | src/backend/passes/liveness.cpp:178-226 | so a function in which every virtual register has one range has no such instruction |
| `ConflictScan.ShortScanIsFull` | src/backend/passes/regalloc.cpp:253-272 | on arbitrary sets of ranges, not only those of a function: the short scan equals the full one on every disjoint store if and only if no one-instruction range of the newcomer hides behind its first |
| `ConflictScan.HiddenRangeMissed` | src/backend/passes/regalloc.cpp:253-272 | on arbitrary sets of ranges, never those of a function: a store on which a hidden range makes the short scan miss an alloc |
| `ConflictScan.Insert` | include/backend/passes/regalloc.h:33-40 | adds exactly the new range in its place, unless one with the same ends is there, which then stays alone |
| `ConflictScan.EraseFirst` | src/backend/passes/regalloc.cpp:341-353 | removes the first stored range of the alloc and no other |
| `ConflictScan.EvictionCompleteIff` | src/backend/passes/regalloc.cpp:341-353 | that removes all its ranges if and only if it has at most one |
| `ConflictScan.StaleRangeHidesNewcomer` | src/backend/passes/regalloc.cpp:341-353 | of a victim with two ranges one stays; a newcomer with an equal range then leaves no entry, and the next alloc with that range is not told of it although both conflict |
| `StaleRanges.SharingReached` | src/backend/passes/regalloc.cpp:336-367 | three iterations of the allocation loop from a state with the invariant: one alloc of two ranges placed, evicted, and evicted again by its stale range; after them two conflicting allocs share a register, and the first is queued twice |
| `RegisterAllocator.GenAllocHint` | src/backend/passes/regalloc.cpp:665-769 | every copy leaves its entries; each entry is what the last copy of its register says; every coalescing target is itself a key |
| `RegisterAllocator.HintChangesNoWeight` | src/backend/passes/regalloc.cpp:144-162 | a hint left for the coalescing partner changes no weight, so weights are fixed after the start |
| `RegisterAllocator.RegAlloc.SpillWeight` | src/backend/passes/regalloc.cpp:144-162 | the loop computes the weight of the ranges, scaled for coalesced and hinted registers |
| `SpillWeights.BlockCounts` | src/backend/passes/liveness.cpp:178-226 | the instruction counts of a register's ranges in a block add up to the number of times the block mentions it |
| `SpillWeights.WeightIsMentions` | src/backend/passes/regalloc.cpp:139-162 | so the weight of a register is its mentions, each as heavy as its block, times three halves if a copy joins it to another virtual register, otherwise times two if one joins it to a register |
| `RegisterAllocator.RegAlloc.SetWeights` | src/backend/passes/regalloc.cpp:17-20 | weights from the block weights and the copies given; the registers with entries are exactly those that some copy joins |
| `RegisterAllocator.RegAlloc.Weigh` | src/backend/passes/regalloc.cpp:311-315 | the total weight of a set of allocs |
| `RegisterAllocator.RegAlloc.ConflictsWithCode` | src/backend/passes/regalloc.cpp:222-241 | true exactly if some range of the alloc conflicts with a range that the code gives an argument or temporary register |
| `RegisterAllocator.RegAlloc.CandidateOrder` | src/backend/passes/regalloc.cpp:192-209 | the candidates are exactly the allocatable registers: the hinted one first if it is one of them, then the others in their order |
| `AllocatorState.ScanFindsConflicts` | src/backend/passes/regalloc.cpp:253-272 | in every reachable state the scan finds exactly the allocs in the way |
| `RegisterAllocator.RegAlloc.CheckRegister` | src/backend/passes/regalloc.cpp:215-279 | whether the code itself takes a register, and if not, exactly the allocs in the way there |
| `RegisterAllocator.RegAlloc.FindRegister` | src/backend/passes/regalloc.cpp:211-279 | the register found is the first in the order that fits; if none fits, each register not excluded by the code is reported with exactly the allocs in the way |
| `RegisterAllocator.RegAlloc.CheapestVictims` | src/backend/passes/regalloc.cpp:302-322 | the set chosen is that of the cheapest candidate register, and it is lighter than the newcomer exactly if some candidate's is |
| `RegisterAllocator.RegAlloc.EvictOne` | src/backend/passes/regalloc.cpp:337-359 | an alloc in the way leaves its register and its first stored range and is queued, nothing else moves, even if it had left before; the invariant is kept if and only if it has one range |
| `AllocatorState.EvictionKeepsIff` | src/backend/passes/regalloc.cpp:337-359 | in every reachable state: evicting an alloc as coded keeps the invariant if and only if the alloc has one range |
| `RegisterAllocator.RegAlloc.Evict` | src/backend/passes/regalloc.cpp:336-359 | all victims leave one after the other, each with its first stored range; the invariant holds if each has one range, otherwise the register still stores a range of one of them |
| `RegisterAllocator.EvictedFits` | src/backend/passes/regalloc.cpp:336-367 | with the victims gone the newcomer fits |
| `RegisterAllocator.RegAlloc.StoreRanges` | src/backend/passes/regalloc.cpp:285-288 | all ranges of the alloc are inserted into the ordered set, one after the other |
| `RegisterAllocator.RegAlloc.Occupy` | src/backend/passes/regalloc.cpp:284-291 | the whole new state: the alloc is in the register, its ranges are inserted in order, each unless one with the same ends is there; if it fitted, the invariant holds again |
| `AllocatorState.PlaceKeeps` | src/backend/passes/regalloc.cpp:281-291 | putting a fitting alloc into a register keeps every part of the invariant |
| `AllocatorState.EvictKeeps` | src/backend/passes/regalloc.cpp:337-359 | and so does taking one out together with all its ranges, however many |
| `AllocatorState.RequeueKeeps` | src/backend/passes/regalloc.cpp:328-333 | and so does queueing the alloc in hand with a lower status |
| `AllocatorState.SpillKeeps` | src/backend/passes/regalloc.cpp:409-425 | and so does moving it to memory |
| `RegisterAllocator.RegAlloc.TakeFree` | src/backend/passes/regalloc.cpp:281-299 | a free register is taken: invariant and progress |
| `RegisterAllocator.RegAlloc.MakeRoom` | src/backend/passes/regalloc.cpp:300-369 | eviction happens only for a strictly heavier newcomer, otherwise the newcomer is marked for splitting; the invariant is kept if and only if every victim has one range, and then there is progress |
| `RegisterAllocator.RegAlloc.TakeOver` | src/backend/passes/regalloc.cpp:334-368 | after eviction the newcomer holds the register; the invariant is kept if and only if every victim has one range, and then the assigned weight has grown |
| `RegisterAllocator.RegAlloc.GiveUp` | src/backend/passes/regalloc.cpp:328-333 | the newcomer is queued to be split and nothing else changes: invariant and progress |
| `RegisterAllocator.RegAlloc.TryAllocate` | src/backend/passes/regalloc.cpp:181-370 | if some register fits, the alloc gets the first that fits and nothing is evicted; otherwise it takes the cheapest candidate over if the allocs in the way weigh less than it, and exactly these are evicted; otherwise it is queued to be split. The invariant is kept if and only if every alloc evicted has one range, and then there is progress |
| `AllocationChoice.OutcomeOfTry` | src/backend/passes/regalloc.cpp:181-370 | the three cases in terms of where the alloc is afterwards: in a register if one fits, and if none does exactly if some candidate holds less weight in its way |
| `AllocationChoice.FewNeighboursFit` | src/backend/passes/regalloc.cpp:211-279 | an alloc that conflicts with fewer others than it has candidates fits some register, whatever is allocated |
| `AllocationChoice.StaysInPlay` | src/backend/passes/regalloc.cpp:636-660 | so no iteration, whatever alloc it pops, gives up on such an alloc |
| `RegisterAllocator.RegAlloc.LeaveHint` | src/backend/passes/regalloc.cpp:293-298 | the coalescing partner, if there is one, is hinted to the register and no other hint changes; no weight changes |
| `RegisterAllocator.RegAlloc.TrySplit` | src/backend/passes/regalloc.cpp:372-378 | the alloc is queued to be spilled: invariant and progress |
| `RegisterAllocator.RegAlloc.CollectMentions` | src/backend/passes/regalloc.cpp:388-407 | the worklists hold exactly the instructions that define and that use the register, once each |
| `RegisterAllocator.RegAlloc.SpillDefs` | src/backend/passes/regalloc.cpp:427-479 | each definition goes to a scratch register that is stored to the slot right after, for small and large offsets |
| `RegisterAllocator.RegAlloc.SpillUses` | src/backend/passes/regalloc.cpp:481-591 | each use is reloaded into an unused scratch register right before, for small and large offsets |
| `SpillCode.RoomLeft` | src/backend/passes/regalloc.cpp:545-569 | with at most two distinct virtual inputs a scratch register is always left |
| `SpillCode.SpillStep` | src/backend/passes/regalloc.cpp:427-591 | the edited instruction reads the slot for every use and writes it for every definition, for any set of registers spilled before |
| `SpillCode.AssignStep` | src/backend/passes/regalloc.cpp:605-618 | putting an assigned register into an instruction keeps it described |
| `SpillCode.NoVirtualLeft` | src/backend/passes/regalloc.cpp:594-623 | an instruction all of whose registers are dealt with mentions no virtual one |
| `RegisterAllocator.RegAlloc.EditSpilled` | src/backend/passes/regalloc.cpp:380-592 | a spill leaves every instruction of the function described by the allocation so far |
| `RegisterAllocator.RegAlloc.SpillAlloc` | src/backend/passes/regalloc.cpp:380-592 | the alloc is in memory once; slots are disjoint and inside the frame |
| `RegisterAllocator.RegAlloc.RewriteAlloc` | src/backend/passes/regalloc.cpp:598-620 | every mention of the register is replaced by the register assigned to it |
| `RegisterAllocator.RegAlloc.RewriteOperands` | src/backend/passes/regalloc.cpp:594-623 | so for all assigned allocs, in any order; every callee-saved register in use is recorded |
| `RegisterAllocator.RegAlloc.CreateAllocs` | src/backend/passes/regalloc.cpp:24-35 | one alloc for every virtual register with ranges |
| `RegisterAllocator.RegAlloc.Init` | src/backend/passes/regalloc.cpp:17-42 | ranges are those of the liveness analysis, every alloc is queued, all registers are empty |
| `RegisterAllocator.RegAlloc.FillQueue` | src/backend/passes/regalloc.cpp:631-634 | every alloc is queued exactly once |
| `RegisterAllocator.RegAlloc.Step` | src/backend/passes/regalloc.cpp:636-660 | one iteration with whatever alloc was popped: tried if new or assigned, marked for spilling if split, moved to a fresh slot if marked; the invariant is kept if and only if every alloc evicted has one range, and then there is progress |
| `RegisterAllocator.RegAlloc.AllocateAll` | src/backend/passes/regalloc.cpp:636-660 | for every pop order the loop reaches an empty queue with the invariant intact, or a first step that evicts an alloc of several ranges and so breaks it; the latter never if every register has one range. Intact, it leaves every alloc with fewer neighbours than candidates in a register |
| `AllocatorRanges.EverythingAllocated` | src/backend/passes/regalloc.cpp:625-660 | then every virtual register the code mentions has a register or a slot |
| `AllocationSimulation.NoSharingCompatible` | src/backend/passes/regalloc.cpp:594-623 | allocs without conflicting ranges in one register never clobber a live value |
| `AllocationSimulation.LiveAcrossEdge` | src/backend/passes/regalloc.cpp:594-623 | what is live into a successor is in its place at the end of the block |
| `AllocationSimulation.AllocationPreservesRuns` | src/backend/passes/regalloc.cpp:594-623 | along every path, whatever instructions mean, the rewritten and spilled program reads the same values, shows the same events and leaves the same world |
| `AllocationSimulation.ReloadRightIff` | src/backend/passes/regalloc.cpp:481-591 | a reload gets what is in its slot, whatever that is, if and only if the stack pointer is where the slots are counted from |
| `AllocationSimulation.SaveRightIff` | src/backend/passes/regalloc.cpp:427-479 | and a spilled result goes into its slot, whatever it is, if and only if it is there |
| `AllocationSimulation.RunHandsOver` | src/ir/codegen.cpp:955-974 | and what the end of a block moves into a physical register, as a return does with its value, is there in both programs |
| `AllocationSimulation.UntouchedIsSteady` | src/backend/passes/regalloc.cpp:430 | the stack pointer is steady in every run in which no instruction defines it |
| `RegisterAllocator.AllocatableExactly` | include/backend/register.h:172-268 | the registers handed out are all but x0 to x8 and f0 to f2; each is either one the code itself uses or one that calls keep |
| `AllocatedClasses.SiteClassed` | src/backend/passes/regalloc.cpp:427-620 | an instruction all of whose registers are dealt with has each in a register of its class; the code around it writes scratch registers only, addresses memory through general registers and needs no immediate beyond twelve bits |
| `RegisterAllocator.RegAlloc.RewriteAll` | src/backend/passes/regalloc.cpp:594-663 | after an intact loop: same runs as before, no virtual register left, every operand in its class, callee-saved registers recorded |
| `RegisterAllocator.RegAlloc.GreedyAllocation` | src/backend/passes/regalloc.cpp:625-663 | the whole pass: ranges and weights are those of the code; if its loop stays intact, as it does where every virtual register has one range: same runs as before, no virtual register left, every operand in its class, slots inside the frame, callee-saved registers recorded, and no register spilled that has fewer neighbours than candidates |
| `RegisterAllocator.AllocateRegisters` | src/ir/codegen.cpp:1127-1133 | the same for a fresh allocator over the registers that the backend allocates |
| `PhiEliminationPass.FindConflicts` | src/backend/passes/phi_elimination.cpp:36-54 | the conflict set is exactly the results that a later phi of the block reads |
| `PhiEliminationPass.PhiElimination.TempFor` | src/backend/passes/phi_elimination.cpp:68-81 | a result in conflict gets a register of its own and of its class that nothing else uses |
| `PhiEliminationPass.PhiElimination.InsertBlock` | src/backend/passes/phi_elimination.cpp:91-144 | the copies go to the predecessor itself if it has no other successor, otherwise to one new block on the edge; the edge lists follow the branches |
| `PhiSimulation.TargetRedirected` | src/backend/passes/phi_elimination.cpp:115-136 | after redirecting the last exit the same branch is taken, and it leads to the new block exactly if it led to the phi block |
| `PhiEliminationPass.PhiElimination.CollectPhi` | src/backend/passes/phi_elimination.cpp:83-263 | one more copy in order for every predecessor |
| `PhiEliminationPass.PhiElimination.CollectAll` | src/backend/passes/phi_elimination.cpp:61-268 | all phis of the block have their copies on all incoming edges |
| `PhiEliminationPass.PhiElimination.AppendInserts` | src/backend/passes/phi_elimination.cpp:270-287 | each collected sequence goes behind the code and before the exits of its block, other blocks are untouched |
| `PhiEliminationPass.PhiElimination.AddHeads` | src/backend/passes/phi_elimination.cpp:289-307 | each temporary is moved to its result at the head of the block |
| `PhiCopies.EdgeIsParallel` | src/backend/passes/phi_elimination.cpp:63-307 | the copies of an edge and the moves at the head leave every result with its operand's old value, swaps and lost copies included, and change no other register |
| `PhiClasses.CopyClassedIff` | src/backend/passes/phi_elimination.cpp:146-263 | the copy of one operand is made of instructions that exist for its registers if and only if the operand fits the class of the result; the address of a global fits no float |
| `PhiClasses.StackOperandCopied` | src/backend/passes/phi_elimination.cpp:164-238 | a stack operand off x8 is loaded, off any other register its address is computed |
| `PhiClasses.EliminationClassedIff` | src/backend/passes/phi_elimination.cpp:27-310 | eliminating the phis of one block leaves well-classed code if and only if it was well-classed and all operands on the edges fit |
| `PhiSimulation.StepSplit` | src/backend/passes/phi_elimination.cpp:91-144 | from a block with a choice the way to the phi block runs the copies, every other way is as before |
| `PhiSimulation.EliminationPreserves` | src/backend/passes/phi_elimination.cpp:25-311 | eliminating the phis of one block preserves every run of every length |
| `PhiEliminationPass.FinishedValid` | src/backend/passes/phi_elimination.cpp:106-142 | afterwards predecessor and successor lists are inverse to each other and match the branches |
| `PhiEliminationPass.PhiElimination.EliminateBlock` | src/backend/passes/phi_elimination.cpp:27-310 | the phis of the block are gone, those of other blocks untouched, the two functions are in the elimination relation, and the code is well-classed exactly if it was and the operands fit |
| `PhiEliminationPass.PhiElimination.Run` | src/backend/passes/phi_elimination.cpp:25-311 | no phi is left, every run is preserved, the edge lists match the branches, and all code is well-classed if and only if it was and every phi operand fits its result |
| `IrGenerator.IrGen.AppendInstruction` | src/ir/builder.cpp:404-428 | the instruction is the next to run if the current block is attached and open; after a terminator it goes to a new detached block |
| `IrGenerator.IrGen.AppendToCurrent` | src/ir/builder.cpp:411-427 | the block grows by the instruction and both edge lists match the branches again |
| `IrGenerator.IrGen.StartBlock` | src/ir/function.cpp:27-33 | the block is attached last before the return block, so an open block before it falls through to it |
| `IrGenerator.IrGen.GenFlag` | src/frontend/irgen.cpp:865-874 | a result block stores its truth value and jumps to the end of the evaluation |
| `IrGenerator.IrGen.GenOperands` | src/frontend/irgen.cpp:847-863 | the right operand is reached exactly on the truth value of the left that does not decide |
| `IrGenerator.IrGen.GenResult` | src/frontend/irgen.cpp:865-895 | both result blocks and the end, where the slot is loaded |
| `IrGenerator.IrGen.GenShort` | src/frontend/irgen.cpp:831-965 | code for `and` and `or` that evaluates the right operand only when the left does not decide |
| `IrGenerator.IrGen.GenExpr` | src/frontend/irgen.cpp:585-965 | code for an expression from the current point on, its result in a new register |
| `IrGenerator.IrGen.GenCondition` | src/frontend/irgen.cpp:444-454 | a condition and the branch on it |
| `IrGenerator.IrGen.GenAssignment` | src/frontend/irgen.cpp:416-424 | code for an assignment |
| `IrGenerator.IrGen.GenReturn` | src/frontend/irgen.cpp:425-436 | the value is stored and control goes to the return block |
| `IrGenerator.IrGen.GenJump` | src/frontend/irgen.cpp:569-576 | `break` and `continue` go to the tail and the condition of the innermost loop |
| `IrGenerator.IrGen.GenBody` | src/frontend/irgen.cpp:460-476 | a body stops after a terminator, what it leaves out would be dead |
| `IrGenerator.IrGen.GenArm` | src/frontend/irgen.cpp:456-483 | a body in its own block goes on to the block after it unless it left another way |
| `IrGenerator.IrGen.GenIf` | src/frontend/irgen.cpp:437-520 | code for `if` without `else` |
| `IrGenerator.IrGen.GenIfElse` | src/frontend/irgen.cpp:437-520 | code for `if` with `else` |
| `IrGenerator.IrGen.EnterLoop` | src/frontend/irgen.cpp:526-530 | the stacks of loop blocks grow by this loop, the block before falls through to its condition |
| `IrGenerator.IrGen.GenWhile` | src/frontend/irgen.cpp:521-568 | code for a loop; the stacks of loop blocks end as they began |
| `IrGenerator.IrGen.GenStmt` | src/frontend/irgen.cpp:410-583 | code for every kind of statement, with every way to leave it going to the right block |
| `IrGenerator.IrGen.GenAll` | src/frontend/irgen.cpp:401-404 | code for a sequence of statements |
| `IrGenerator.IrGen.AddTerminator` | src/ir/function.cpp:39-52 | every attached block has a terminator; each added jump goes where the code expected to fall through |
| `LoweredStatements.LoopRuns` | src/frontend/irgen.cpp:521-568 | from its condition the lowered loop reaches the outcome of the structured loop, for any number of rounds |
| `LoweredStatements.BodyReturns` | src/frontend/irgen.cpp:401-406 | if the structured body ends, the graph returns with the same state and has evaluated the same right operands |
| `LoweredStatements.LoweringPreserves` | src/frontend/irgen.cpp:425-576 | the structured body ends in a state if and only if the graph returns with that state |
| `IrGenerator.IrGen.GenFunction` | src/frontend/irgen.cpp:317-406 | for every program and every machine the generated graph means what the body means, and its edge lists match its terminators |
| `Initialisers.ShapeFixesLength` | src/frontend/type.cpp:123-139 | a tree of the declared shape has exactly as many leaves as the array has elements |
| `Initialisers.FlattenIsRowMajor` | src/ir/codegen.cpp:43-58 | depth-first order puts the leaf at every index at its row-major offset |
| `Initialisers.SizeInBits` | src/frontend/type.cpp:123-139 | the size of an array type is 32 bits for each of its elements |
| `Initialisers.Bits` | src/ir/codegen.cpp:47 | the word of a 32-bit value is congruent to it and unsigned |
| `Initialisers.GlobalData.Push` | src/ir/codegen.cpp:43-58 | pushes the data words of a constant behind those already there, zeros for every element of an all-zero part |
| `Initialisers.GlobalData.Record` | src/ir/codegen.cpp:27-61 | the words or zero bytes recorded for a global are, byte for byte, the data words of its initialiser |
| `Initialisers.DataWordsAreLeaves` | src/frontend/irgen.cpp:1262-1293 | translating a constant tree to a constant keeps its leaves: its data words are theirs in depth-first order |
| `LocalInitialiser.Builder.Clear` | src/frontend/irgen.cpp:103-134 | an integer array of at least eight words, and no other, is all zero before the first store |
| `LocalInitialiser.Builder.Descend` | src/frontend/irgen.cpp:135-152 | one pointer a dimension, each to the first element of the one before, leads to the first element |
| `LocalInitialiser.Builder.PushParts` | src/frontend/irgen.cpp:165-207 | a list puts its parts into the queue, an all-zero list as many all-zero parts as its length |
| `LocalInitialiser.PartsAreTheList` | src/frontend/irgen.cpp:165-207 | the parts have the shape of the elements and together the leaves of the list |
| `LocalInitialiser.ListIsExpanded` | src/frontend/irgen.cpp:158-208 | putting the parts of the front list behind the queue keeps row-major order: the level below always comes first in the array |
| `LocalInitialiser.LeafIsTaken` | src/frontend/irgen.cpp:209-212 | when scalars come to the front no list is left, and they come in row-major order |
| `LocalInitialiser.ZeroIsThere` | src/frontend/irgen.cpp:213-221 | in a cleared array a zero needs no store |
| `LocalInitialiser.Builder.Place` | src/frontend/irgen.cpp:209-247 | after each scalar the array holds one leaf more and the moving pointer plus the pending shift is at the next element |
| `LocalInitialiser.Builder.Initialise` | src/frontend/irgen.cpp:101-250 | whatever was on the stack and whatever the scalars evaluate to, the array holds the leaves of the tree in depth-first order and no access is outside it |
| `LocalInitialiser.LocalEqualsGlobal` | src/ir/codegen.cpp:36-62 | a local and a global array with the same constant tree hold the same words |
| `LocalInitialiser.Builder.Declare` | src/frontend/irgen.cpp:97-250 | a local array declared with a list that the language allows and whose runs close, which is every list that is normalised right for all values, holds the values of the list and zeros in every other place |
| `InitialiserLists.CountElements` | src/frontend/ast.cpp:37-58 | computes the recursive count, with the level taken one further out at each brace in unsigned arithmetic |
| `InitialiserLists.ScalarsCount` | src/frontend/ast.cpp:37-58 | a run of scalars is counted exactly |
| `InitialiserLists.BraceInRunCountedRight` | src/frontend/ast.cpp:49-50 | a brace of scalars on an innermost array inside a run is counted as that array if and only if it holds one scalar |
| `InitialiserLists.SetTrivial` | src/frontend/ast.cpp:77-93 | a list of scalars, and no other, becomes its scalars in order, each as written if it has the element kind and converted otherwise, and zeros up to the capacity |
| `InitialiserLists.SetValueType` | src/frontend/ast.cpp:60-153 | computes the tree defined by taking one item of the list at a time |
| `Normalisation.GroupingIsRight` | src/frontend/ast.cpp:94-150 | from any point of a list whose runs close, the elements made are no more than the array has, have the right shape and, with zeros for the missing ones, hold the leaves so far |
| `Normalisation.NormalisationFillsTheArray` | src/frontend/ast.cpp:60-153 | every list that the language allows and whose runs close becomes a tree of exactly the declared shape whose leaves are the values it denotes, zeros elsewhere |
| `NormalisationExact.OnlyIf` | src/frontend/ast.cpp:60-153 | a list of ones that becomes such a tree without losing or repeating a scalar has runs that close |
| `NormalisationExact.NormalisationRightIff` | src/frontend/ast.cpp:60-153 | of every list that the language allows, for an array of any dimensions: the result has the declared shape and holds what the list denotes, whatever values its scalars have, if and only if every run closes where it should |
| `ScalarPlaces.DenotedIsFilled` | src/frontend/ast.cpp:60-153 | what an allowed list denotes: every scalar in the order written, at the place counted off by what comes before it, as written if it has the element kind and converted otherwise, and zeros elsewhere |
| `ScalarPlaces.TreeIsFilled` | src/frontend/ast.cpp:60-153 | the tree of an allowed list whose runs close holds exactly that |
| `ScalarPlaces.ScalarsStay` | src/frontend/ast.cpp:79-93 | in one dimension scalars of the element kind stay as they are written |
| `ScalarKinds.TypedWithoutLost` | src/frontend/ast.cpp:124 | in a list for an array of arrays, a scalar of another kind than the elements is dropped: the result is that of the list without such scalars |
| `ScalarKinds.IntegersLostInFloats` | src/frontend/parser.y:241-245 | four integers for a two by two array of floats are allowed and mean their conversions, and become an array of zeros |
| `ScalarKinds.RightIffKindsAgree` | src/frontend/ast.cpp:94-150 | of every list whose braces open only elements of their own array: the result is right for all values if and only if every scalar that stands directly in a list for an array of arrays has the element kind |
| `ScalarKinds.BraceAtTheEnd` | src/frontend/ast.cpp:111-121 | two scalars and a brace of two for a two by two by two array: never counted as an element, and right for all values |
| `ScalarKinds.BraceInTheMiddle` | src/frontend/ast.cpp:111-121 | one more scalar behind them: allowed by the language, and the run does not close |
| `ScalarKinds.EarlyButRight` | src/frontend/ast.cpp:111-121 | for a two by four by two array a run is counted as an element two places early and only an empty brace follows: right for all values all the same |
| `InitialiserLists.BraceInsideRunBreaksShape` | src/frontend/ast.cpp:111-121 | two scalars, a brace of two and a scalar for a two by two by two array become a tree of the wrong shape, whatever the values |
| `FrameCode.FunctionFrame.AddSavedRegister` | src/backend/function.cpp:26-33 | adds exactly the register, and only if it is callee-saved; the set stays ordered |
| `FrameCode.FunctionFrame.AddFromSp` | src/ir/codegen.cpp:193-207 | prepends code that adds an amount to the stack pointer, over a scratch register if it is large |
| `FrameCode.FunctionFrame.AddSave` | src/ir/codegen.cpp:214-231 | prepends code that stores a register at an offset |
| `FrameCode.FunctionFrame.AddSaves` | src/ir/codegen.cpp:209-253 | prepends the saves of all registers, one slot below the other |
| `FrameCode.FunctionFrame.EmitPrologue` | src/ir/codegen.cpp:178-288 | the entry block starts with the whole prologue; frame size and alignment are those of the layout |
| `FrameCode.FunctionFrame.InsertRestore` | src/ir/codegen.cpp:307-324 | code that loads a register goes before the last instruction of the exit block |
| `FrameCode.FunctionFrame.EmitEpilogue` | src/ir/codegen.cpp:290-379 | the whole epilogue stands before the last instruction of the exit block |
| `FrameCode.FunctionFrame.EmitFrame` | src/ir/codegen.cpp:166-176 | both ends of the function work on one frame, a multiple of sixteen bytes with the locals below the save area |
| `FrameCode.SlotsAreDisjoint` | src/ir/codegen.cpp:185-209 | save slots lie above the locals and below the return address, do not overlap and are aligned; the frame is the smallest multiple of sixteen with room |
| `FrameCode.LowestSlotAboveLocals` | src/ir/codegen.cpp:185-188 | for any number of saved registers the save area is above the locals |
| `FrameCode.SizeFitsExactlyWhenSmall` | src/ir/codegen.cpp:187 | the size survives its signed 32-bit variable if and only if it is below two gibibytes |
| `FrameCode.PrologueOpens` | src/ir/codegen.cpp:178-288 | the prologue lowers the stack pointer, leaves the old one in the frame pointer, keeps every register but those and the scratch one, and touches only the save area |
| `FrameCode.EpilogueCloses` | src/ir/codegen.cpp:290-379 | the epilogue restores stack pointer, return address and saved registers and keeps everything else, memory included |
| `FrameCode.FrameDiscipline` | src/ir/codegen.cpp:178-379 | prologue, any body that keeps the stack pointer and the save area, epilogue: the caller gets back stack pointer, return address, frame pointer and every saved register |
| `FrameCode.ArgumentsArrive` | src/ir/codegen.cpp:178-288 | for any frame size the prologue changes x2, x7 and x8 only, so x10 to x17 and f10 to f17 hold what the caller passed |
| `FrameCode.ResultsLeave` | src/ir/codegen.cpp:290-379 | for any frame size the epilogue changes x1, x2, x7 and saved registers only, so x10, x11, f10 and f11 hold what the body left |
| `FrameCode.CallKeepsRegisters` | src/ir/codegen.cpp:178-379 | around a body that changes registers which calls keep only where they are recorded, the caller finds x1, x2, x8, x9, x18 to x27, f8, f9 and f18 to f27 as it left them |
| `FrameCode.FrameCodeEncodable` | src/backend/utils.cpp:5-7 | for any frame size no instruction of either needs more than a twelve-bit immediate |

## Left out

- Scanner, parser, type checking, printing, option handling, the driver and the runtime library: input, output and text.
- Concrete arithmetic of instructions and floating point: values are opaque, instructions are arbitrary functions of their inputs and the world, and events record what they read.
- Dead-code passes, unused-store elimination, constant folding and symbol tables: they would only add easy members.
- The backend's own dominator analysis and the loop weights computed from it (`src/backend/passes/cfa.cpp`, `src/backend/passes/regalloc.cpp:44-137`): block weights are given natural numbers.
- Mem2regPass.Mem2reg.Run: the walk is not followed behind a load that reads the top of an empty stack, which is undefined in C++.
- RegisterAllocator.RegAlloc.SpillWeight: weights are natural numbers, doubled so that the factors 1.5 and 2.0 stay whole; rounding of `double` and `float` is not modelled.
- RegisterAllocator.RegAlloc.Step: the alloc popped is any member of the queue, so the priority order is not modelled; every order is covered.
- RegisterAllocator.GenAllocHint: takes the copies already recognised in the code; hints and coalescing pairs only change weights and the order in which registers are tried, and every list of copies is covered. The source takes every immediate instruction with a zero immediate for a copy, because the test at `src/backend/passes/regalloc.cpp:724` is always true.
- RegisterAllocator.RegAlloc.AllocateAll: follows the loop up to the first step that evicts an alloc of several ranges; what the loop does afterwards is shown on one run (`StaleRanges.SharingReached`), not for all.
- RegisterAllocator.RegAlloc.GreedyAllocation: says nothing of a function in which that happened.
- SpillCode.RoomLeft: counts the virtual inputs of both classes together, at most two; `FloatMultiplyAdd`, which has three, has a builder function (`src/backend/builder.cpp:309-323`) that nothing calls.
- LivenessPass.LivenessAnalysis.SortAll: sorting is an insertion sort; the order of ranges that begin at the same instruction is left open.
- AllocationSimulation.AllocationPreservesRuns: spill slots are memory apart from what the program itself addresses, and the stack pointer is where the slots are laid out whenever a spilled register is reloaded or stored; outside are runs that reload a spilled register between a call's lowering and raising of the stack pointer, or spill the result of an instruction that itself moves it; by `ReloadRightIff` and `SaveRightIff` exactly such accesses miss their slot.
- Use lists of operands: instructions carry their operand fields once, not a second copy in a use list.
- PhiEliminationPass.PhiElimination.Run: blocks are visited in their original layout; where a new block goes in the final layout is not modelled.
- IrGenerator.IrGen.GenFunction: local variables and results of `&&` and `||` are slots, so allocations are not emitted; parameters and the load of the return value are folded into the return; block and slot numbers are unbounded; the graph is the one before `remove_unused_block`, whose `has_use` test compares a block with instruction numbers.
- IrGenerator.IrGen.GenOperands: operands of `&&` and `||` are values, as the casts to a truth value that the parser puts there make them, so asking for an address has no effect.
- InitialiserLists.SetValueType: works on values, so that two references to the same list node see each other's rewriting is not captured; a brace met where a scalar is expected has no type yet in the source, which is modelled as no result.
- LocalInitialiser.Builder.Declare: says nothing of a list whose runs do not close; `NormalisationRightIff` says that for some values its tree is not the one declared.
- LocalInitialiser.Builder.Initialise: the code of computed scalars is not interleaved with the stores; each scalar is a constant or a value known by an identity.
- FrameCode.FrameDiscipline: addresses are integers, without wrap-around at 64 bits.
- Conformance to the calling convention of the RISC-V ELF psABI: overflow float arguments go to the stack.
