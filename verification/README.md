# Move bytecode verifier, borrow graph and binary format

A Dafny model of the parts of the Move toolchain that decide whether compiled code may be published: the bytecode
verifier passes over a function body, the borrow graph that its reference analysis works with, the linking and upgrade
checks between modules, and the binary form in which modules are stored.

The model follows the code, branch by branch. Where the code works by updating state (the loop stack of the control-flow
check, the graph traversal, the fixpoint iteration, the borrow graph, the type stack, the reader and writer of binaries)
the model has methods with loops, and classes where there are objects; each is proved against a specification that says
what the result means, and the theorems are about those specifications.

How the parts build on each other:

* **Code units.** `ControlFlow` accepts exactly code with structured jumps, which is reducible. `ControlFlowGraph` builds
  blocks and a traversal order from it. `AbstractInterpreter` runs any analysis of finite height over that order and ends
  with a fixpoint that covers every concrete run, and is no coarser than the joins of the outcomes. `BorrowDomain` shows
  that borrow graphs are such a domain. `StackUsage`, `TypeStacks`, `TypeRules`, `TypeSafety`, `TypedRuns`,
  `TypedMachine`, `VectorSafety` and `ValueAbilities` are about the operand stack. `InstructionMachine` describes the
  instructions once more, straight from the tables; `RuleMeaning` and `InstructionSafety` state with it what the type
  pass accepts and promises. `CodeUnits` chains the passes.
* **Borrow graph.** `BorrowEdges`, `BorrowMeaning`, `BorrowOperations`, `BorrowRemap` and `BorrowGraph`: what a graph
  means is the set of paths by which one reference may derive from another, and every operation is judged by that.
* **Modules together.** `TypeAbilities` and `FieldChecks` (abilities of types, in one module and across a program),
  `CyclicDependencies`, `Dependencies`, `Linker` and `Linkage` (linking), `Programs` (linked modules as a program),
  `Normalized`, `Compatibility`, `Upgrades`, `Dependents` and `Layouts` (upgrades).
* **Binary format.** `Uleb128`, `TypeTrees`, `TokenMachine`, `SignatureTokens` and `TokenLoader` (numbers and types),
  `BinaryItems`, `BinaryInstructions`, `BinaryTables`, `RowParts`, `RowWriter` and `RowLoader` (rows of tables),
  `TableChecks`, `ModuleLayout`, `ModuleWriter`, `ModuleLoader`, `UniqueDecoding`, `UniqueModules`, `FilledModules`,
  `ModuleSpace`, `ModuleLimits` and `BinaryForms` (modules).

`Wrappers`, `Slices`, `Streams`, `Bytecode` and `FileFormat` hold what the others share.
`dafny verify dfyconfig.toml` checks the whole project.

## Model

| member | source | states |
|---|---|---|
| Bytecodes.GetSuccessors | language/move-binary-format/src/file_format.rs:1657-1687 | the result lists exactly the offsets to which control may pass from the instruction, ascending, none twice: none after a return or an abort, the target of a branch, both after a conditional one, and the next instruction otherwise |
| ControlFlow.InstructionLabels | language/move-bytecode-verifier/src/control_flow.rs:74-91 | an offset is labelled as a loop head with end `l` exactly if `l` is the last instruction that jumps back to it |
| ControlFlow.CheckCode | language/move-bytecode-verifier/src/control_flow.rs:106-137 | the stack that the walk maintains is, at every instruction, the loops around it, outermost first; so the walk succeeds exactly if the given check passes on every instruction with the loops around it |
| ControlFlow.CheckContinues | language/move-bytecode-verifier/src/control_flow.rs:144-162 | succeeds exactly if every back jump goes to the head of the innermost loop around it |
| ControlFlow.CheckBreaks | language/move-bytecode-verifier/src/control_flow.rs:164-185 | succeeds exactly if no forward jump leaves any loop further than to the instruction after it, although only the innermost loop is compared |
| ControlFlow.CountLoopDepth | language/move-bytecode-verifier/src/control_flow.rs:220-240 | the depth of an instruction is the number of loops around it |
| ControlFlow.CheckNoLoopSplits | language/move-bytecode-verifier/src/control_flow.rs:187-217 | succeeds exactly if no forward jump enters a loop elsewhere than at its head, although only loop depths are compared |
| ControlFlow.Verify | language/move-bytecode-verifier/src/control_flow.rs:16-39 | accepts exactly the code that is not empty, does not fall through at the end, and obeys the continue, break and split rules; every status names a rule that the code violates, and the earlier rules hold |
| ControlFlow.LoopsNest | language/move-bytecode-verifier/src/control_flow.rs:93-104 | the loops of accepted code are disjoint or strictly nested |
| ControlFlow.HeadDominates | language/move-bytecode-verifier/src/control_flow.rs:97-104 | no path from the entry gets into a loop of accepted code around its head |
| ControlFlow.BackJumpsAreReducible | language/move-bytecode-verifier/src/control_flow.rs:74-240 | on every path from the entry of accepted code to a back jump, the target of the jump comes first |
| ControlFlowGraphs.PostOrder | language/move-binary-format/src/control_flow_graph.rs:136-157 | the walk with an explicit stack ends, lists exactly the blocks that forward edges reach from the entry, each once and after all its forward successors, and the entry last |
| ControlFlowGraphs.New | language/move-binary-format/src/control_flow_graph.rs:79-189 | the blocks cut the code at exactly the branch targets and the offsets after branches, their successors are those of their last instruction, the loop heads map records exactly the back edges, and the next-block map encodes an order that starts at the entry and lists the source of every forward edge before its target |
| ControlFlowGraphs.BlockAt | language/move-binary-format/src/control_flow_graph.rs:84-111 | every instruction lies in exactly one block |
| ControlFlowGraphs.ForwardEdgesSuffice | language/move-binary-format/src/control_flow_graph.rs:113-170 | in accepted code, leaving out the back edges loses no reachable block |
| ControlFlowGraphs.TraversalIsComplete | language/move-binary-format/src/control_flow_graph.rs:113-189 | in accepted code the traversal lists exactly the blocks that some path of forward and back edges reaches |
| ControlFlowGraphs.BackEdgeGoesBack | language/move-binary-format/src/control_flow_graph.rs:136-181 | in accepted code a back edge leads to an earlier block of the traversal or to the block itself |
| AbstractInterpreter.ExecuteBlock | language/move-bytecode-verifier/src/absint.rs:161-174 | executing a block gives the state after all its instructions, or the first error |
| AbstractInterpreter.Propagate | language/move-bytecode-verifier/src/absint.rs:115-156 | the state at the end of the block is joined into every successor, in order, and into nothing else, and the next block is the candidate, or the target of a back edge whose state was raised |
| AbstractInterpreter.AnalyzeFunction | language/move-bytecode-verifier/src/absint.rs:75-159 | the iteration ends on every accepted code unit and every domain of finite height, and its result is a fixpoint: the entry covers the initial state, every recorded block was executed on its final state, and its successors cover the outcome; and nothing else is in it: every recorded state is made of the initial state and outcomes of predecessors by joins alone |
| AbstractInterpreter.RecordedIsInside | language/move-bytecode-verifier/src/absint.rs:75-159 | the upper bound: whatever family of states holds the initial state and is kept by blocks and joins, holds every state of the result |
| AbstractInterpreter.LeastFixpoint | language/move-bytecode-verifier/src/absint.rs:75-174 | with a monotone transfer function and least joins, if any fixpoint exists in which no block fails, then no block fails in the result, and the result is below it |
| AbstractInterpreter.RunsStayInside | language/move-bytecode-verifier/src/absint.rs:75-174 | if the transfer function over-approximates single steps, then at every point of every concrete run the configuration is described by the invariant of its block, as long as the run executes no rejected block |
| BorrowDomain.GraphsHaveFiniteHeight | language/move-borrow-graph/src/graph.rs:345-361 | borrow graphs over the same references, with their join and order, are a domain of finite height, so that every such analysis ends |
| CodeUnits.VerifyCommon | language/move-bytecode-verifier/src/code_unit_verifier.rs:91-96 | succeeds exactly if the code is structured, every block is balanced, and every block is typed, in whatever graph of the code |
| CodeUnits.Analyze | language/move-bytecode-verifier/src/code_unit_verifier.rs:61-89 | the passes composed: code is analysed exactly if its structure is accepted, and then the invariants cover all runs of every machine that the transfer function describes, and are made of outcomes by joins alone |
| StackUsage.VerifyBlock | language/move-bytecode-verifier/src/stack_usage_verifier.rs:44-70 | succeeds exactly if no instruction of the block pops below the height at its start and nothing is left at its end |
| StackUsage.Verify | language/move-bytecode-verifier/src/stack_usage_verifier.rs:27-42 | succeeds exactly if every block is balanced |
| StackUsage.HeightIsLocal | language/move-bytecode-verifier/src/stack_usage_verifier.rs:27-70 | along every path from the entry, through any blocks, the stack is as high as the straight-line count of the current block says |
| StackUsage.StackDiscipline | language/move-bytecode-verifier/src/stack_usage_verifier.rs:27-220 | along every path of accepted code: no instruction pops below the height at entry, every block starts at that height, and a return finds exactly the declared number of values above it |
| TypeStacks.HeightsAgree | language/move-bytecode-verifier/src/type_safety.rs:375-801 | the type stack is as high as the counter of the stack-usage pass at every instruction |
| TypeStacks.TypeSafetyChecker.Verify | language/move-bytecode-verifier/src/type_safety.rs:81-95 | on balanced code the one stack that all blocks share is empty at the start of each, no pop fails, and the pass succeeds exactly if every block is typed on its own |
| TypeRules.EffectsAgree | language/move-bytecode-verifier/src/type_safety.rs:375-801 | for every instruction, the type pass pops and pushes as many operands as the stack-usage pass counts, two tables kept apart in the source |
| TypeSafety.Verify | language/move-bytecode-verifier/src/type_safety.rs:81-95 | succeeds exactly if every instruction of every block finds operand types that its rule accepts |
| TypedMachine.RuleFits | language/move-bytecode-verifier/src/type_safety.rs:375-801 | values of the operand types that a rule accepts meet what the machine demands of the operands |
| TypedMachine.RuleGives | language/move-bytecode-verifier/src/type_safety.rs:98-373 | whatever results the machine gives on such values have the result types of the rule |
| TypedMachine.TypeSafe | language/move-bytecode-verifier/src/type_safety.rs:375-801 | for accepted code whose new vectors are made of operands of their element type: along every run the values on the stack have the types that the pass computed, and no demand of the machine is ever missed |
| ValueAbilities.HasAllTheWay | language/move-bytecode-verifier/src/ability_field_requirements.rs:19-51 | a value of a type with an ability holds no value, at any depth that the module can see, whose type lacks what the ability requires |
| ValueAbilities.AbilitiesAreKept | language/move-bytecode-verifier/src/type_safety.rs:375-801 | along every run of accepted code, no value that is popped, compared or overwritten holds one without Drop, no value that is copied or read holds one without Copy, and no value moved to or from storage holds one without Store, at any depth |
| VectorSafety.VectorSoundIff | language/move-bytecode-verifier/src/type_safety.rs:721-729 | the rule for new vectors is sound exactly on operands that all have the element type |
| VectorSafety.DemandsMetIff | language/move-bytecode-verifier/src/type_safety.rs:721-729 | in accepted code, no typed stack is refused by the machine if and only if every new vector is made of operands of its element type |
| VectorSafety.ElementsAreNotChecked | language/move-bytecode-verifier/src/type_safety.rs:721-729 | a code unit that passes the stack-usage and type passes and has a run that comes to an instruction whose demand is missed |
| VectorSafety.MixedExists | language/move-bytecode-verifier/src/type_safety.rs:721-729 | there is a module for that code unit |
| InstructionMachine.DemandsAgree | language/move-vm/runtime/src/interpreter.rs:753-1213 | for every instruction, the operation that the type pass decodes it to demands of its operands what the instruction itself does, read from the tables of the module |
| InstructionMachine.ResultsAgree | language/move-vm/runtime/src/interpreter.rs:753-1213 | and gives the same results |
| RuleMeaning.AcceptedIff | language/move-bytecode-verifier/src/type_safety.rs:375-801 | for every operation but new vectors: a rule accepts operand types if and only if all values of them are what the machine demands, and the operands and the places have the abilities for it |
| RuleMeaning.InstructionAcceptedIff | language/move-bytecode-verifier/src/type_safety.rs:375-801 | the same for instructions, without the rules and the decoding: exactly what the type pass accepts |
| InstructionSafety.InstructionsAreSafe | language/move-bytecode-verifier/src/type_safety.rs:98-373 | along every run of accepted code no instruction meets operands that it cannot take, whatever struct is borrowed from, looked for in, taken from or put into the storage has Key, whatever local is copied has Copy, and no local that holds a reference is borrowed |
| InstructionSafety.SignersStay | language/move-binary-format/src/file_format.rs:598-622 | along every run of accepted code no value that is copied or read holds a signer, and none that is put into or taken from the storage holds a signer or a reference, at any depth |
| Abilities.PolymorphicHas | language/move-binary-format/src/file_format.rs:668-711 | the fold over required-by sets keeps a declared ability exactly if every argument that is not phantom has what the ability requires |
| TypeAbilities.StructHas | language/move-binary-format/src/binary_views.rs:251-287 | an instantiation has an ability exactly if the struct declares it and every argument that is not phantom has what it requires |
| TypeAbilities.HasIff | language/move-binary-format/src/binary_views.rs:251-287 | which types have which ability, spelled out from the leaves: numbers, truth values and addresses all but Key, signers Drop only, references Copy and Drop, plain structs what they declare |
| TypeAbilities.AbilitiesCommute | language/move-binary-format/src/binary_views.rs:251-287 | the abilities of an instantiated type are those of the open type under the abilities of the arguments |
| TypeAbilities.AbilitiesMonotone | language/move-binary-format/src/binary_views.rs:251-287 | a type has no fewer abilities when its parameters have more |
| TypeAbilities.PhantomsDoNotMatter | language/move-bytecode-verifier/src/signature.rs:219-259 | if phantom parameters occur in phantom positions only, a field type that has an ability when all parameters have all abilities keeps it when only the other parameters do |
| TypeAbilities.ModuleFieldsOk | language/move-bytecode-verifier/src/ability_field_requirements.rs:19-51 | the two checks of a module establish the premise of the theorems below on its table |
| TypeAbilities.NothingHides | language/move-bytecode-verifier/src/ability_field_requirements.rs:19-51 | if a type has an ability, every type reached through fields and vector elements, at any depth, has what that ability requires |
| TypeAbilities.SignersAreNotCopied | language/move-binary-format/src/file_format.rs:598-622 | a type that contains a signer, at any depth, can at most be dropped, and one that contains a reference at most copied and dropped |
| FieldChecks.FieldCheckIff | language/move-bytecode-verifier/src/ability_field_requirements.rs:19-51 | a field passes if and only if it can do, for all type arguments with all abilities, what each declared ability requires |
| FieldChecks.FieldSoundIff | language/move-bytecode-verifier/src/ability_field_requirements.rs:19-51 | where the phantom check passed, a field passes if and only if every instantiation of the struct that has an ability has a field that can do what it requires: no field is refused without need |
| FieldChecks.PhantomCheckIff | language/move-bytecode-verifier/src/signature.rs:219-259 | the phantom check accepts a type if and only if every phantom parameter in it, at any depth, is in the place of a phantom argument |
| FieldChecks.ModuleChecksIff | language/move-bytecode-verifier/src/ability_field_requirements.rs:19-51 | both checks of a module pass exactly if all declared fields are so; native structs are passed over |
| TypeAbilities.LocalViewSound | language/move-bytecode-verifier/src/dependencies.rs:325-396 | an ability that a type has by the handles of a linked module, it has by the definitions |
| TypeAbilities.ProgramFieldsOk | language/move-bytecode-verifier/src/dependencies.rs:194-235 | if every module passes the field check against its own handles, the whole program passes it against the definitions |
| TypeAbilities.NothingHidesInProgram | language/move-bytecode-verifier/src/ability_field_requirements.rs:19-51 | the same law through any chain of modules, each checked alone against its own view of its imports |
| Programs.ModulesAreLinked | language/move-bytecode-verifier/src/dependencies.rs:194-235 | modules that pass the checks on their own structs, and link with each other, make up a program in which every handle leads to the definition with its name, and every view demands no more than the definition gives |
| Programs.NothingHidesInModules | language/move-bytecode-verifier/src/ability_field_requirements.rs:19-51 | the law for any set of compiled modules that passed their own checks and the dependency check against each other |
| BorrowEdges.OverflowIff | language/move-borrow-graph/src/references.rs:88-116 | a set that holds ten edges overflows with the next one, and not before |
| BorrowEdges.InsertedCovers | language/move-borrow-graph/src/references.rs:99-116 | insertion covers every old and every inserted edge, also when the set overflows |
| BorrowEdges.EdgeLeqIff | language/move-borrow-graph/src/references.rs:82-84 | one edge covers another if and only if it stands for all paths that the other stands for |
| BorrowEdges.ComposeIff | language/move-borrow-graph/src/graph.rs:226-277 | the paths that the edge past a released reference stands for |
| BorrowEdges.ComposeIsExactIff | language/move-borrow-graph/src/graph.rs:226-277 | it stands for no more than the two edges spell if and only if the first is strong or the second has no path |
| BorrowMeaning.ValidIff | language/move-borrow-graph/src/graph.rs:367-413 | the pairwise form of the invariant that the proofs use is the one the graph checks of itself, together with the shape of its edge sets |
| BorrowMeaning.GraphLeqContains | language/move-borrow-graph/src/graph.rs:284-286 | a graph that covers another one edge by edge contains all its derivable paths, through any number of references |
| BorrowGraphs.BorrowGraph.NewRef | language/move-borrow-graph/src/graph.rs:35-41 | adds an isolated reference and keeps the invariant |
| BorrowGraphs.BorrowGraph.AddWeakBorrow | language/move-borrow-graph/src/graph.rs:126-153 | adds one weak edge at both ends and keeps the invariant |
| BorrowGraphs.BorrowMeans | language/move-borrow-graph/src/graph.rs:126-153 | a new edge makes derivable what it stands for, and keeps what was |
| BorrowGraphs.BorrowAddsNoMore | language/move-borrow-graph/src/graph.rs:126-153 | and no more than follows from that, unless the edge set overflows |
| BorrowGraphs.BorrowGraph.AddStrongBorrow | language/move-borrow-graph/src/graph.rs:109-111 | gives the graph factored through the fresh child by the empty path |
| BorrowGraphs.BorrowGraph.AddStrongFieldBorrow | language/move-borrow-graph/src/graph.rs:114-122 | gives the graph factored through the fresh child by the field |
| BorrowGraphs.BorrowGraph.FactorEdges | language/move-borrow-graph/src/graph.rs:167-217 | moves exactly the edges through the path to the new reference, with the path taken off, drops emptied entries at both ends, and never makes an edge set lossy |
| BorrowOperations.FactorIsExact | language/move-borrow-graph/src/graph.rs:167-217 | factoring preserves meaning exactly: between old references the same paths are derivable before and after, and the new reference derives by exactly the parent's paths followed by the factored one |
| BorrowGraphs.BorrowGraph.Release | language/move-borrow-graph/src/graph.rs:226-277 | removes the reference at both ends and joins every edge into it with every edge out of it, for all pairs of different parents and children, and keeps the invariant |
| BorrowOperations.ReleaseKeepsAliases | language/move-borrow-graph/src/graph.rs:226-277 | releasing a reference on no cycle of two keeps every derivable path between the others |
| BorrowOperations.ReleaseKeepsAliasesOfAcyclic | language/move-borrow-graph/src/graph.rs:226-277 | in particular, a release from an acyclic graph loses nothing |
| BorrowOperations.ReleaseLosesOnlyCycles | language/move-borrow-graph/src/graph.rs:256-277 | for all graphs, a release loses nothing if and only if every self edge that splicing drops is derivable otherwise |
| BorrowOperations.ReleaseLosesIff | language/move-borrow-graph/src/graph.rs:256-277 | where the only cycles are between the released reference and one other, a release loses nothing if and only if all those cycles stand for the empty path |
| BorrowGraphs.ReachableLoss | language/move-borrow-graph/src/graph.rs:256-277 | a sequence of allowed calls after which a release loses a path |
| BorrowOperations.ReleaseGainsIff | language/move-borrow-graph/src/graph.rs:226-277 | unless an edge set overflows, a release makes nothing new derivable if and only if every edge that it splices in stands for derivable paths only |
| BorrowOperations.ReleaseIsExact | language/move-borrow-graph/src/graph.rs:226-277 | where the edges into the reference are strong, or those out of it have no path, and it is on no cycle of two, exactly the same paths are derivable between the others |
| BorrowOperations.ReleaseAddsNoPair | language/move-borrow-graph/src/graph.rs:226-277 | in all cases, a release makes no reference derive from one that it did not derive from |
| BorrowGraphs.ReachableGain | language/move-borrow-graph/src/graph.rs:226-277 | a sequence of allowed calls after which a release makes a path derivable that was not |
| BorrowGraphs.BorrowGraph.UnmatchedEdges | language/move-borrow-graph/src/graph.rs:288-317 | collects exactly the edges of the other graph that no edge of this one covers |
| BorrowGraphs.BorrowGraph.Covers | language/move-borrow-graph/src/graph.rs:284-286 | holds exactly if every edge of the other graph is covered |
| BorrowGraphs.BorrowGraph.Join | language/move-borrow-graph/src/graph.rs:345-361 | a fresh graph: this one with the unmatched edges of the other inserted |
| BorrowOperations.JoinIsUpperBound | language/move-borrow-graph/src/graph.rs:345-361 | a join covers both sides and contains all their derivable paths, also when edge sets overflow |
| BorrowOperations.JoinIsLeast | language/move-borrow-graph/src/graph.rs:345-361 | unless an edge set overflows, whatever covers both sides covers the join |
| BorrowOperations.FiniteHeight | language/move-borrow-graph/src/graph.rs:345-361 | in any chain of joins over n references the graph changes at most 11 n (n - 1) times |
| BorrowGraphs.BorrowGraph.RemapRefs | language/move-borrow-graph/src/graph.rs:325-336 | renames references, edges and back pointers, and keeps the invariant |
| BorrowRemap.RenamedMeaning | language/move-borrow-graph/src/graph.rs:325-336 | a renamed graph derives the same paths between renamed references |
| BorrowGraphs.ReachedIsValid | language/move-borrow-graph/src/graph.rs:367-413 | whatever sequence of allowed calls, joins with other such graphs included, the graph passes its own check and its edge sets are in order |
| BorrowGraphs.BorrowGraph.Run | language/move-borrow-graph/src/graph.rs:367-413 | the object carries out any such sequence, arriving at a graph that the calls lead to |
| CyclicDependencies.Search | language/move-bytecode-verifier/src/cyclic_dependencies.rs:27-51 | the recursive search finds the target only if it can be reached; if it finds nothing, what it visited is closed under dependencies but for what was visited before |
| CyclicDependencies.CollectAll | language/move-bytecode-verifier/src/cyclic_dependencies.rs:21-65 | succeeds only if the target cannot be reached, with exactly the modules that can |
| CyclicDependencies.VerifyModule | language/move-bytecode-verifier/src/cyclic_dependencies.rs:76-114 | unless a module is missing, succeeds exactly if the module does not depend on itself, is not its own friend through friends, and no friend is among its dependencies; every error names what is the case |
| CyclicDependencies.ImmediateIff | language/move-binary-format/src/access.rs:178-185 | a module depends immediately on exactly those that its handles name, the own handle left out |
| CyclicDependencies.CycleIff | language/move-bytecode-verifier/src/cyclic_dependencies.rs:76-114 | what is refused as a dependency on itself is exactly a cycle through the module |
| Dependencies.CompareIsEquality | language/move-bytecode-verifier/src/dependencies.rs:413-477 | if all instantiations have arguments, types of two modules are accepted as the same exactly if they normalize to the same type |
| Dependencies.CompareIff | language/move-bytecode-verifier/src/dependencies.rs:413-477 | for all types: they are accepted as the same if and only if they normalize to the same type and instantiate the same of their structs |
| Linker.IndexDependencies | language/move-bytecode-verifier/src/dependencies.rs:47-135 | the tables hold exactly the structs, callable functions and visibilities that the dependencies define |
| Linker.Verify | language/move-bytecode-verifier/src/dependencies.rs:146-541 | a module or script is accepted exactly if every handle it imports has a definition whose abilities, type parameters, signature and visibility match, and script functions are called from script functions and scripts only |
| Linker.MapIff | language/move-bytecode-verifier/src/dependencies.rs:47-70 | a dependency is found by its name exactly if it is not the module itself, and of several the last is |
| Linkage.LinkedIff | language/move-bytecode-verifier/src/dependencies.rs:146-541 | what linking demands, spelled out on the tables: which definition serves a handle, which callers may see it, and which calls are refused; a view is linked if and only if all this holds |
| Linkage.ImportsAreVisible | language/move-bytecode-verifier/src/dependencies.rs:82-108 | no linked view imports a private function; one for friends is imported only by a module whose address and name the owner declares, and by no script |
| Linkage.InstantiationsStayLegal | language/move-bytecode-verifier/src/dependencies.rs:334-396 | type arguments that are legal by the handle are legal by the definition |
| Linkage.CallsAreServed | language/move-bytecode-verifier/src/dependencies.rs:237-323 | in modules that passed their checks and link with each other, every call into another module is to a function that the caller may call, with the type that the caller expects |
| Linkage.ScriptsAreNotReached | language/move-bytecode-verifier/src/dependencies.rs:479-541 | through no chain of calls, across any such modules, does a function that is not for scripts reach one that is |
| Compatibilities.Check | language/move-binary-format/src/compatibility.rs:31-149 | linking compatibility holds exactly if whatever dependents could use is still there and demands no more; layout compatibility exactly if no struct that both versions have changed its fields |
| Compatibilities.UpgradesCompose | language/move-binary-format/src/compatibility.rs:26-149 | after any number of fully compatible upgrades every version is fully compatible with every earlier one |
| Compatibilities.LayoutDoesNotCompose | language/move-binary-format/src/compatibility.rs:31-149 | three versions for which layout compatibility alone does not compose |
| Layouts.LayoutStays | language/move-vm/runtime/src/loader.rs:2125-2193 | if every published module is replaced by one that is layout compatible and has all its structs, every type that had a layout has the same layout still, at any depth |
| Layouts.UpgradesKeepLayouts | language/move-binary-format/src/compatibility.rs:9-29 | however often a module was upgraded compatibly, values stored under its first version keep their layout |
| Layouts.LayoutIff | language/move-binary-format/src/normalized.rs:259-288 | layout compatibility of normalized modules means that structs of the same name have fields of the same names and types, in the same order, in the compiled modules |
| Layouts.NormalizedInstance | language/move-binary-format/src/normalized.rs:230-256 | substituting type arguments in a normalized type gives what instantiating before normalizing gives |
| Dependencies.EmptyInstantiationDiffers | language/move-bytecode-verifier/src/dependencies.rs:413-477 | an instantiation without arguments normalizes to the plain struct, and is not accepted for it |
| Upgrades.StaysLinkedIff | language/move-bytecode-verifier/src/dependencies.rs:146-541 | when a dependency is replaced by a version that keeps what others use of it, a linked module or script stays linked if and only if the types of the functions it imports instantiate the same of their structs as before |
| Upgrades.AcceptedIff | language/move-binary-format/src/compatibility.rs:31-149 | the compatibility check accepts a version exactly if it keeps what others use, and moreover keeps script functions for scripts, all friends, and functions for friends that no one is |
| Dependents.DependentsStayIff | language/move-binary-format/src/compatibility.rs:31-149 | the exact condition: everything that is linked with a module is linked with a new version of it if and only if the new version keeps every struct and every function that others can use, and the form of their types; for each thing that is not kept there is a dependent that shows it |
| Upgrades.StaysLinked | language/move-bytecode-verifier/src/dependencies.rs:146-541 | so every dependent stays linked if the new version keeps the form of the types of its exposed functions |
| Upgrades.FilledUpgrade | language/move-binary-format/src/compatibility.rs:31-149 | which it does if no instantiation in either version is without arguments |
| Upgrades.StaysLinkedThrough | language/move-binary-format/src/compatibility.rs:31-149 | and through any chain of such versions |
| Upgrades.UpgradeAcceptedIff | language/move-bytecode-verifier/src/dependencies.rs:146-175 | after one of the modules it was checked against was replaced by such a version, the dependency pass accepts a dependent again if and only if the upgrade is without effect on it or keeps the form of the types it imports |
| Upgrades.UpgradeIsAccepted | language/move-bytecode-verifier/src/dependencies.rs:146-175 | the dependency pass accepts every dependent again after an upgrade that keeps that form |
| Uleb128.Bijection | language/move-binary-format/src/file_format_common.rs:283-353 | encodings are exactly the canonical byte strings, one for each number |
| Uleb128.WriteU64 | language/move-binary-format/src/file_format_common.rs:283-295 | appends the encoding of the number |
| Uleb128.ReadU64 | language/move-binary-format/src/file_format_common.rs:330-353 | succeeds exactly if the encoding of some 64-bit number comes next, gives that number and stops behind it; over-long, too large and truncated forms are refused, and no shift reaches the width of a word |
| TypeTrees.FlattenedIsParsed | language/move-binary-format/src/deserializer.rs:829-965 | recursive descent reads back the preorder nodes of a type, whatever follows, unless it is nested too deeply |
| TypeTrees.ParsedIsFlattened | language/move-binary-format/src/deserializer.rs:829-965 | whatever recursive descent reads has the preorder nodes that were read, an arity of zero counting as one |
| TypeTrees.ZeroArityIsRead | language/move-binary-format/src/deserializer.rs:868-893 | an instantiation given with arity zero is read like one with arity one |
| TokenLoader.EmptyIsWritten | language/move-binary-format/src/serializer.rs:590-654 | an instantiation without arguments is within all limits of the writer |
| TokenLoader.LoadNodes | language/move-binary-format/src/deserializer.rs:829-965 | the loop with an explicit stack of partial types computes what recursive descent reads |
| SignatureTokens.SerializeToken | language/move-binary-format/src/serializer.rs:590-654 | succeeds exactly if nesting and numbers are within the limits, and appends the preorder form of the type |
| BinaryForms.PrintedAs | language/move-binary-format/src/serializer.rs:590-654 | what the printer writes with a stack is the recursive form of the type, byte for byte |
| TokenLoader.LoadToken | language/move-binary-format/src/deserializer.rs:829-965 | every printed type with arguments in all its instantiations comes back, whatever follows, or is refused if nested too deeply; and what is read was printed, up to arities of zero |
| TokenLoader.RoundTrip | language/move-binary-format/src/serializer.rs:642-654 | a type that is written and read comes back if and only if it is within the limits and all its instantiations have arguments |
| BinaryInstructions.WriteInstruction | language/move-binary-format/src/serializer.rs:682-880 | appends the opcode and the operands of the instruction, or fails if a number is too large |
| BinaryInstructions.LoadInstruction | language/move-binary-format/src/deserializer.rs:1269-1403 | reads back any instruction that was written; and whatever is read has the opcode and the operands that were there, in the same number of bytes, within the limits of the writer |
| RowWriter.WriteRows | language/move-binary-format/src/serializer.rs:361-889 | succeeds exactly if everything in the rows is within its limit, and appends their binary form |
| RowLoader.LoadTable | language/move-binary-format/src/deserializer.rs:605-1253 | reads back exactly the rows that were written, for every kind of table; and whatever rows are read, they are within the limits of the writer and would take up as many bytes as were read |
| TableChecks.CheckTables | language/move-binary-format/src/deserializer.rs:348-373 | succeeds exactly if the headers hold every byte of some contents exactly once, no table is empty, no kind is repeated, and the contents are not longer than the binary; gives the length of the contents |
| ModuleLayout.LayoutIsOk | language/move-binary-format/src/serializer.rs:921-1196 | the headers that the writer lays out pass the check of the reader |
| ModuleWriter.Serialize | language/move-binary-format/src/serializer.rs:177-198 | succeeds exactly if all numbers, types and sizes are within their limits, and appends the binary form of the module |
| ModuleLimits.SerializableIff | language/move-binary-format/src/serializer.rs:177-198 | which modules can be written: every limit on every number, size and type in every kind of row, in numbers |
| ModuleLimits.NameIff | language/move-core/types/src/identifier.rs:59-75 | which identifiers are read, spelled out on characters |
| BinaryForms.EmptyModuleForm | language/move-binary-format/src/serializer.rs:177-198 | the bytes of a module without tables: magic number, version, table count and own handle |
| BinaryForms.NativeStructForm | language/move-binary-format/src/serializer.rs:474-486 | the bytes of a native struct definition |
| BinaryForms.NativeFunctionForm | language/move-binary-format/src/serializer.rs:529-548 | the bytes of a native function definition |
| ModuleLoader.Deserialize | language/move-binary-format/src/deserializer.rs:280-304 | a binary that starts with the form of a module gives that module, in the latest version, whatever follows; and whatever module is read, from any binary, is within all limits of the writer and has no instantiation without arguments |
| ModuleLoader.RoundTrip | language/move-binary-format/src/serializer.rs:177-198 | a module that is written and read comes back, whatever follows it, if and only if it is within the limits and all its instantiations have arguments |
| ModuleLoader.Reread | language/move-binary-format/src/deserializer.rs:280-304 | whatever is read from any binary comes back unchanged when it is written and read again |
| ModuleSpace.HeldIsOk | language/move-binary-format/src/deserializer.rs:348-373 | a module whose tables take up no more space than checked headers say is within all limits of the writer |
| UniqueModules.ModuleUnique | language/move-binary-format/src/deserializer.rs:280-304 | no two modules have the same binary form, even as the start of the same longer binary, apart from their versions |
| FilledModules.RegularModuleIff | language/move-binary-format/src/deserializer.rs:868-893 | of the modules that are written, the format can carry exactly those in which all instantiations have arguments |

## Findings

Properties that do not hold of the code, each with an input and the exact condition under which they hold.

* **Releasing a reference can lose a path.** Splicing drops what would be an edge of a reference to itself
  (`language/move-borrow-graph/src/graph.rs:256-277`). `ReachableLoss` is a sequence of allowed calls after which a
  release loses a path; `ReleaseLosesOnlyCycles` is the exact condition for every graph, and `ReleaseLosesIff` one on
  the graph before the call, for graphs whose only cycles pass the released reference and one other.
  `ReleaseKeepsAliases` and `ReleaseKeepsAliasesOfAcyclic` say where nothing is lost.
* **Releasing a reference can also add paths.** The edge that replaces two edges past the released reference is weak and
  drops the second path if the first edge is weak. `ReachableGain` is a sequence of allowed calls after which a release
  makes a path derivable that was not; `ComposeIsExactIff` and `ReleaseGainsIff` are the exact conditions, and
  `ReleaseIsExact` says where derivability is just the same. No new pair of references is ever related
  (`ReleaseAddsNoPair`).
* **The elements of a new vector are not checked.** `VecPack` pops its operands without looking at their types
  (`language/move-bytecode-verifier/src/type_safety.rs:721-729`). `ElementsAreNotChecked` has a code unit that passes and
  a run of it on which an operand is not what the machine demands. `VectorSoundIff` and `DemandsMetIff` say that these
  operands are the only cause.
* **Instantiations without arguments do not survive a round trip.** The writer accepts them (`EmptyIsWritten`), the
  reader takes an arity of zero for one (`ZeroArityIsRead`). `TokenLoader.RoundTrip` and `ModuleLoader.RoundTrip` say
  that this is the only reason for which something that was written does not come back. What was read once does come
  back (`Reread`).
* **An instantiation without arguments is not accepted for the plain struct**, although both normalize to the same type
  (`EmptyInstantiationDiffers`); `CompareIff` is the exact condition. So an upgrade that the compatibility check accepts
  may still unlink a dependent; `StaysLinkedIff` and `UpgradeAcceptedIff` say exactly when.
* **The compatibility check asks for more than dependents need.** `AcceptedIff` says what it asks for, and
  `DependentsStayIff` what dependents need. A function for scripts may become public, a friend may be dropped for which
  no function is left, and functions for friends may change where there are none; the check refuses each, and nothing
  that was linked would be unlinked.
* **Layout compatibility does not compose.** A struct that is dropped and returns with other fields passes every single
  upgrade (`LayoutDoesNotCompose`). As a remark, `LayoutComposesIff` says that this is the only cause. Full
  compatibility does compose (`UpgradesCompose`), because linking compatibility does not let a struct be dropped.

## Left out

- ControlFlowGraphs.New: demands code that is not empty, because the constructor reads the first block unconditionally; the control-flow pass runs first and refuses empty code.
- TypedMachine.TypeSafe: assumes that new vectors are made of operands of their element type, because the pass does not check it; `DemandsMetIff` shows that this is exactly what is missing.
- RuleMeaning.AcceptedIff: leaves out new vectors, for which `VectorSoundIff` is the exact condition, and assumes that the operand types have values.
- RuleMeaning.InstructionAcceptedIff: leaves out new vectors, for which `VectorSoundIff` is the exact condition, and assumes that the operand types have values.
- InstructionSafety.InstructionsAreSafe: assumes that new vectors are made of operands of their element type, because the pass does not check it.
- BorrowOperations.ReleaseGainsIff: only where no edge set overflows, because an overflow replaces all edges by the one that covers everything.
- BorrowOperations.ReleaseIsExact: only where no edge set overflows, because an overflow replaces all edges by the one that covers everything.
- BorrowGraphs.BorrowAddsNoMore: only where no edge set overflows, because an overflow replaces all edges by the one that covers everything.
- Dependents.DependentsStayIff: is for versions with the same address and name; under another one the new module is not found by dependents at all.
- Layouts.LayoutStays: the layouts carry the names of fields, which those of the machine do not; caching of layouts is left out.
- VectorSafety.DemandsMetIff: assumes that the types on the stacks have values, because an operand of a type without values is never there.
- BorrowOperations.JoinIsLeast: only where no edge set overflows, because an overflow replaces all edges by the one that covers everything.
- BorrowOperations.ReleaseLosesIff: only for graphs whose cycles all pass the released reference and one other, because other cycles may cover what is lost; `ReleaseLosesOnlyCycles` is for all graphs.
- BorrowGraphs.BorrowGraph.RemapRefs: demands that new names are not in use and differ from each other; overlapping sources and targets, where the result depends on the order of the map, are not modelled.
- BorrowGraphs.BorrowGraph.FactorEdges: demands an intermediate reference without edges. With edges of its own, the parent would be given new derivable paths through them, and factoring would not be exact.
- BorrowGraphs.BorrowGraph.AddStrongBorrow: demands a child without edges, because it factors the edges of the parent through it.
- BorrowGraphs.BorrowGraph.AddStrongFieldBorrow: demands a child without edges, because it factors the edges of the parent through it.
- ModuleLoader.ReadVersion: versions 1 to 4 of the format, with their own flags and ability encodings, are not modelled; the model reads what the writer writes, which is the latest version.
- ModuleWriter.Serialize: the limit on the total size of the buffer is that of the offsets in the headers; the separate limit of the growing buffer is not modelled.
- Scripts: their binary form is left out, and so are their code units; linking covers them.
- Bounds and duplication checks: their results are preconditions (indices and branch offsets in range, code of at most 65534 instructions, names defined once); the bounds check that follows reading a module is left out.
- Errors: the order in which errors are reported and their status codes are modelled where a contract names them; elsewhere there is one error, and locations, offsets and messages are left out. Edges of the borrow graph carry no location.
- The transfer functions of the locals and reference safety passes are left out; they are arguments of the abstract interpreter.
- The machine is abstract: it has values, references to typed places, and the demands that the interpreter makes of its operands; memory, gas, and the effects of calls beyond their result types are left out.
- Indices and constants are natural numbers, with the width of their type as a condition where it matters; the counter of the stack-usage pass is not bounded by 64 bits.
- Maps and sets of the source are unordered here, so that the proofs hold for every order of iteration.
- The passes over instantiation loops, recursive struct definitions, constants, friend declarations, acquires lists, instruction consistency and the well-formedness of signatures are left out.
- Normalizing a native struct gives it no fields; the source does not normalize modules with native structs at all, it stops.
- CodeUnits.VerifyCommon: ends with the type pass; the locals and reference safety passes that follow in the source are not modelled.
- CodeUnits.Analyze: is for any analysis, because the transfer functions of the locals and reference safety passes are not modelled.
- ValueAbilities.AbilitiesAreKept: sees the fields of structs of the module itself; those of imported structs are covered by `NothingHidesInModules`, on types. What is dropped when a function returns or a local is overwritten is checked by the locals safety pass, which is not modelled.
- Addresses have 16 bytes, the length that they have unless a build feature makes them longer.
