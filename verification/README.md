# The middle end of the Go compiler, verified

The backend under `llvm-gofrontend/` takes the statement and expression trees of the Go front end and makes
LLVM code of them. This project models its five algorithmic cores and some smaller parts in Dafny, and proves
what they are for. Instructions are opaque labelled operations, types are trees of sizes and alignments; no part
of LLVM is assumed.

`dafny verify dfyconfig.toml` checks everything.

## The parts

**Control flow** (`StmtTree`, `Cfg`, `Lowering*`, `CodeGen`, `BodyTail`, `TryFinally`, `TryMeaning`, `TryQuiet`,
`TryLimits`, `DeferLoop`). A statement tree has a
meaning of its own: a run from its start or from a label inside it gives the events (instructions done, calls
that threw) and how it ends. All that depends on data, which branch is taken and which call throws, is answered
by an environment from the events so far. A list of basic blocks has another meaning: single steps of a machine.
The class `GenBlocks` walks the tree as the source does, with its cursor or null, label map, landing-pad stack,
finally block and cached return; each method is proved to do what the function `Lower` says, and about `Lower`
it is proved that the two meanings agree. A run of the tree counts jumps (its fuel), so an endless run is one
that is unfinished for every count.

To a try statement `StmtTree` gives the meaning its code has. `TryMeaning` gives it the usual meaning, of which the code
falls short in two ways, and says exactly which runs end as they are meant to.

The code relies on these conditions, which make up `Body` and `SafeSwitches`: each label is defined once and
each goto has its label; `if` and `switch` are entered in live code; there is at most one default case; the
expression of a return is straight-line and ends in the return instruction; under a finally clause all returns
do the same; try statements are not nested and come last in the function; in a protected region checkdefer does
not throw. `SafeSwitches` says that a switch case ends dead or in the block it began in: `genSwitch` ignores what
the walk of a case gives back.

**C ABI** (`Cabi*`). Classification of types into eightbytes after section 3.2.3 of the System V AMD64 ABI,
counting of registers, signatures, and the two clients: the caller marshalling arguments, the callee spilling
them to its stack. Memory is a sequence of bytes. The main result is that what the one takes apart the other puts
back; `CabiExtension` says that small integers keep their numbers, `CabiClasses` what goes in which registers.

**Tree integrity** (`NodeGraph`, `NodeSharing`, `NodeRepair`, `TreeIntegrity`). Nodes are objects with child
slots that are overwritten in place. A ghost rank says that the graph has no circle. `Snap` is the graph as a
value, `Unfold` the tree seen from a node, with flavor, payload, value and opcodes.

**Placeholder types** (`Placeholders`). Type objects with a flag cleared in place, and a table of who waits for
whom, over pointer, array and struct types that may refer to each other in circles.

**Source locations** (`Uleb128`, `LinemapModel`, `Linemap`). The byte buffer and segment table, as a refinement of
a plain map.

**Smaller parts.** `VarContexts`: address-or-load decisions in chains of operators on a variable. `Composites`:
sparse composite values. `SwitchLayout`: a switch flattened into children. `ExportData`: escaping, read
back by `Assembler`, which knows `.ascii` lines and nothing of the writer.

## Where the code and its comments differ

The model follows the code.

- A switch case that ends in another block than its own leaves that block without terminator
  (`go-llvm.cpp:3272`). `LoweringClosed.ClosedExactly` is the exact condition, `LoweringLimits` an example.
- The struct for two pieces has its second field at byte 8 only if one of them is wider than four bytes
  (`go-llvm-cabi-oracle.cpp:351-363`). `CabiCall.RoundTripExactly` is the exact condition, `CabiLimits` an example.
- For arrays the second eightbyte is sought by the sum of the offsets, not by the offset
  (`go-llvm-cabi-oracle.cpp:285-292`). `CabiRegions.ArrayExactly` says for which arrays it works out.
- An exception thrown by the catch code of a try statement is forgotten once the finally code has run
  (`go-llvm.cpp:3467-3474`), and a return that stands in the body or the catch code is carried out after the finally
  code though it was not taken (`go-llvm.cpp:3485-3494`); the comment has "try { BSTAT; } catch { EXCEPT_STMT; } finally
  { FINALLY_STMT; }" (`go-llvm.cpp:2388-2392`). `TryMeaning.CodeAsMeantExactly` is the exact condition, `TryLimits` has
  an example of each, `TryQuiet` says of which trees it never happens.
- A result returned in two pieces goes through one load and one store of a two-field struct
  (`go-llvm-bfunction.cpp:440-446`, `go-llvm.cpp:2046-2058`). With its padding that struct has sixteen bytes, which is more
  than the slot of, say, an array of three 32-bit integers. The model counts the bytes of the two fields as accessed, and
  not the padding. `CabiCall.AggregateFitsExactly` says when there is none beyond the value,
  `CabiLimits.ThreeIntsAggregate` is that array.
- `get_initial_file` is described as the first file mentioned in a returned location (`go-llvm-linemap.h:61`); it
  gives the first file started. `LinemapModel.InitialFileExactly` is the exact condition,
  `LinemapModel.InitialFileWithoutLocation` an example.

## Model

| member | source | states |
|---|---|---|
| LoweringCorrect.LoweringIsCorrect | llvm-gofrontend/go-llvm.cpp:3500-3570 | For every body meeting the conditions below: the generated blocks, started at the entry, halt in a given way after given events exactly when the statement tree ends in that way after those events; they never run off their blocks; and where the tree goes on for ever the blocks go on for ever too, having done the same. |
| LoweringCorrect.RunSim | llvm-gofrontend/go-llvm.cpp:3500-3645 | The same from any label: entering the code at a label corresponds to entering the tree at that label, so gotos into and out of nested blocks, and code after a return or a goto, are covered. |
| LoweringCorrect.StepsMatch | llvm-gofrontend/go-llvm.cpp:3500-3645 | Every halt of the code after k steps is an ending of the tree, and no number of steps leads off the blocks. |
| LoweringSim.SimNode | llvm-gofrontend/go-llvm.cpp:3500-3570 | For every kind of node, from any reachable state of the walk and any label inside it: falling through, jumping, returning, a delayed return, and throwing in the tree lead the code to the open end of the current block, the block of the label, a return, the finally block, and the innermost landing pad. |
| LoweringSim.ArmIsPick | llvm-gofrontend/go-llvm.cpp:3283-3291 | The branch table of the lowered switch picks the block of the first case that lists the value, otherwise the default case, otherwise the block after the switch. |
| LoweringWalk.FrameNode | llvm-gofrontend/go-llvm.cpp:3500-3570 | Invariant of every step of the walk: blocks only get longer and only those the node may touch do; terminators come last; branches go to blocks of the function; labels have blocks of their own; landing pads and the finally block come out as they went in; the cached return is the first one met; the cursor is null exactly after dead ends. |
| LoweringGrowth.NodeGrows | llvm-gofrontend/go-llvm.cpp:3169-3570 | No step removes or alters code already in a block, a label block or a pad: blocks change by appending only. |
| LoweringClosed.ClosedNode | llvm-gofrontend/go-llvm.cpp:3169-3570 | After any node the only unclosed blocks are the current one, those set aside by the callers, and the blocks of labels not yet defined; this holds as long as switch cases keep to their block, and once one does not, a block stays open. |
| LoweringClosed.ClosedExactly | llvm-gofrontend/go-llvm.cpp:3235-3294 | At the end every block has exactly one terminator, its last instruction, and every branch stays in the function, if and only if every switch case ends dead or in the block it began in, and every goto has its label. |
| LoweringLimits.IfInCaseRunsOffItsBlocks | llvm-gofrontend/go-llvm.cpp:3270-3277 | The other side of that condition: with an if statement as a switch case the tree falls off its end, but the code comes to a block with no terminator. |
| LoweringPads.PadsExactly | llvm-gofrontend/go-llvm.cpp:3339-3498 | For every accepted body: the exception edge of every protected call leads to a block that begins with a landing pad; no other edge, and not the entry, leads to one; and a landing pad is nothing but the first instruction of its block. |
| LoweringPads.PadsAreForThrows | llvm-gofrontend/go-llvm.cpp:3156-3167 | So every step of every run: control comes to a landing pad if and only if in that step a call throws and is caught. |
| LoweringPads.StepNode | llvm-gofrontend/go-llvm.cpp:3500-3570 | What every step of the walk keeps: pads still to be written are empty and on no path but exception edges, and what is or is not a pad stays so. |
| CodeGen.FunctionSetBody | llvm-gofrontend/go-llvm.cpp:3604-3645 | Walking a body into an entry block and closing the last block with a return gives exactly the blocks that the theorems above speak of. |
| CodeGen.GenBlocks.constructor | llvm-gofrontend/go-llvm.cpp:3061-3082 | The walk starts with one empty block, no labels, no landing pads, no finally block and no cached return. |
| CodeGen.GenBlocks.GetBlockForLabel | llvm-gofrontend/go-llvm.cpp:3099-3106 | The block of a label is made on first mention, by goto or by definition, and is the same ever after. |
| CodeGen.GenBlocks.PostProcessInst | llvm-gofrontend/go-llvm.cpp:3156-3167 | A call that is no intrinsic becomes, when there is a landing pad, an invoke with a new block to go on in and the innermost pad; anything else is left as it is. |
| CodeGen.GenBlocks.WalkExpr | llvm-gofrontend/go-llvm.cpp:3169-3191 | Children first, then the instructions, each into the block the one before left off in; in dead code the instructions are dropped. |
| CodeGen.GenBlocks.GenIf | llvm-gofrontend/go-llvm.cpp:3193-3233 | The whole new state after an if statement is the one the lowering function gives: three blocks, both branches closed towards the third unless they ended. |
| CodeGen.GenBlocks.GenSwitch | llvm-gofrontend/go-llvm.cpp:3235-3294 | The whole new state after a switch; the case blocks in order, the default, and the branch table written into the block the value was computed in. |
| CodeGen.GenBlocks.MkCaseBlocks | llvm-gofrontend/go-llvm.cpp:3250-3262 | One block a case in order; the default is the block of the case with no values, if there is one. |
| CodeGen.GenBlocks.CaseArms | llvm-gofrontend/go-llvm.cpp:3284-3291 | The arms list every value of every case with that case's block, in order. |
| CodeGen.GenBlocks.GenBodies | llvm-gofrontend/go-llvm.cpp:3268-3277 | Each case is walked into its own block, and that block, not the one the walk came to, is closed. |
| CodeGen.GenBlocks.GenReturn | llvm-gofrontend/go-llvm.cpp:3312-3337 | A return under a finally clause caches the first return and jumps to the finally block; otherwise its expression is walked; the cursor is null after it. |
| CodeGen.GenBlocks.GenDefer | llvm-gofrontend/go-llvm.cpp:3339-3397 | The whole new state after a defer statement: finish block, pad, catch block, and the jump back. |
| CodeGen.GenBlocks.GenExcep | llvm-gofrontend/go-llvm.cpp:3399-3498 | The whole new state after try/catch/finally: two protected regions, pads, the finally code, the cached return. |
| CodeGen.GenBlocks.FlushReturn | llvm-gofrontend/go-llvm.cpp:3485-3494 | The cached return is walked after the finally code and forgotten. |
| CodeGen.GenBlocks.Walk | llvm-gofrontend/go-llvm.cpp:3500-3570 | Dispatch over all statement kinds: the new state of the object is the value of the lowering function, so that all theorems about that function are about this object. |
| BodyTail.RunLead | llvm-gofrontend/go-llvm.cpp:3500-3570 | A run of a body, gotos apart, is a run of what leads up to its last statement, and, if that falls off its end, a run of that statement from the history then reached. |
| BodyTail.EndsByLast | llvm-gofrontend/go-llvm.cpp:3500-3570 | A body ends some way exactly when what leads up to its last statement ends it, or control reaches that statement with some history from which it ends so. |
| TryFinally.TryInOrder | llvm-gofrontend/go-llvm.cpp:3399-3498 | A run of a body whose last statement, in blocks and after others, is a try statement that no goto enters and whose parts no goto leaves is: what comes before; then the body; the catch code exactly when the body throws; the finally code, once; then the first return, if the statement holds one. |
| TryFinally.TryCodeInOrder | llvm-gofrontend/go-llvm.cpp:3119-3167 | The generated code of such a function halts in a given way after given events exactly when what comes before ends it so, or control reaches the statement with some history and body, catch and finally come to that in this order, the finally code exactly once and before any return. |
| TryMeaning.EndAsMeantExactly | llvm-gofrontend/go-llvm.cpp:2388-2392 | A try statement is meant to raise the exception of its catch code again after the finally code, and to return only by a return that was taken. Its code ends so if and only if the finally code did not complete, or the catch code did not throw and either a return was taken or body and catch hold none. |
| TryMeaning.CodeAsMeantExactly | llvm-gofrontend/go-llvm.cpp:3467-3494 | For every environment: the code of a function that ends in a try statement, which no goto enters and whose parts no goto leaves, ends exactly as its body is meant to, if and only if in its run that condition holds. |
| TryMeaning.CodeMeansExactly | llvm-gofrontend/go-llvm.cpp:3604-3645 | The same for every accepted body that has no try statement, or one that no goto enters and whose parts no goto leaves; without one the code always ends as meant. |
| TryQuiet.QuietIsKept | llvm-gofrontend/go-llvm.cpp:3467-3474 | If no instruction of the catch code may throw, and body and catch hold no return statement, that condition holds in every run. |
| TryQuiet.QuietCodeAsMeant | llvm-gofrontend/go-llvm.cpp:3467-3494 | The code of such a function ends as its body is meant to, in every environment. |
| TryMeaning.OnlyLastIsTry | llvm-gofrontend/go-llvm.cpp:3428-3430 | An accepted body holds no try statement but its last statement, not even inside that one. (Of these the theorems above leave out just those with gotos into the statement or out of a part.) |
| TryLimits.CatchExceptionIsLost | llvm-gofrontend/go-llvm.cpp:3467-3474 | Body and catch code throw: the function is meant to end by the second exception, and its code falls off its end. |
| TryLimits.ReturnNotTaken | llvm-gofrontend/go-llvm.cpp:3485-3494 | A return in a branch that is not taken: the function is meant to fall off its end having done nothing, and its code returns. |
| DeferLoop.DeferRounds | llvm-gofrontend/go-llvm.cpp:2974-2994 | The defer statement ends in a given way exactly when, for some k, undefer throws k times, checkdefer running after each throw, and then the next round ends so. |
| DeferLoop.DeferComesTo | llvm-gofrontend/go-llvm.cpp:3339-3397 | So it does wherever it stands, be it the finally clause of a try statement. |
| DeferLoop.DeferCode | llvm-gofrontend/go-llvm.cpp:3339-3397 | The generated code of a body whose last statement is a defer statement: it ends before control gets there, or control gets there with some history and leaves only after an undefer that succeeds or a checkdefer that throws. |
| CabiTypes.TypeTight | llvm-gofrontend/go-llvm-cabi-oracle.cpp:181-206 | For every type the scalars found by descending come in order, naturally aligned, without overlap, within the type's size, each no further from the one before than alignment asks for. |
| CabiRegions.LeavesSplit | llvm-gofrontend/go-llvm-cabi-oracle.cpp:233-253 | No scalar crosses byte 8; those before it come first, and the first of the rest is at byte 8 exactly. |
| CabiRegions.StructSplits | llvm-gofrontend/go-llvm-cabi-oracle.cpp:322-347 | Every struct of 1 to 16 bytes splits by offset into one or two regions, at 0 and 8, spanning 1 to 8 bytes, for each of which a type of just that many bytes is chosen. |
| CabiRegions.SecondFieldAtEight | llvm-gofrontend/go-llvm-cabi-oracle.cpp:351-363 | The two-field struct made from the chosen types has its second field at byte 8 if and only if one of the regions spans more than four bytes. |
| CabiRegions.PlainIsWide | llvm-gofrontend/go-llvm-cabi-oracle.cpp:233-253 | That is so for every struct without empty members that raise alignment. |
| CabiRegions.ArrayExactly | llvm-gofrontend/go-llvm-cabi-oracle.cpp:277-294 | For which arrays of at most 16 bytes types can be chosen, exactly; where they can, the pieces cover the whole array. |
| CabiClasses.SseExactly | llvm-gofrontend/go-llvm-cabi-oracle.cpp:54-82 | A type is of class SSE if and only if it has scalars and all of them are floating-point; of none if it has no scalars. |
| CabiClasses.SseSlotsExactly | llvm-gofrontend/go-llvm-cabi-oracle.cpp:111-116 | A slot of a parameter passed directly takes an SSE register if and only if the half of the value it carries holds floating-point scalars only. |
| CabiExtension.KeepsNumberExactly | llvm-gofrontend/go-llvm-cabi-oracle.cpp:296-307 | Of an integer of one or two bytes: widened to a register it stands for the number it stood for, whatever its bytes, if and only if it is filled with zeros when unsigned and with copies of the sign bit when signed. |
| CabiExtension.ParameterExtends | llvm-gofrontend/go-llvm-cabi-oracle.cpp:296-307 | The slot of such a parameter carries the attribute that keeps its number. |
| CabiExtension.WiderUnmarked | llvm-gofrontend/go-llvm-cabi-oracle.cpp:296-307 | The slot of any other scalar parameter carries no attribute. |
| CabiExtension.ResultExtends | llvm-gofrontend/go-llvm-cabi-oracle.cpp:296-307 | The same of results. |
| CabiEightByte.AddLeafTypes | llvm-gofrontend/go-llvm-cabi-oracle.cpp:181-206 | The recursive descent appends exactly the scalars of the type with their offsets. |
| CabiEightByte.EightByteInfo.constructor | llvm-gofrontend/go-llvm-cabi-oracle.cpp:165-179 | The regions are those of the split with the chosen types filled in; it fails exactly where no type can be chosen. |
| CabiEightByte.EightByteInfo.ExplodeStruct | llvm-gofrontend/go-llvm-cabi-oracle.cpp:233-253 | The loop over scalars, adding to the current region and opening the second at byte 8, gives the split by offset. |
| CabiEightByte.EightByteInfo.ExplodeArray | llvm-gofrontend/go-llvm-cabi-oracle.cpp:277-294 | The loop over elements opens another region at an element from byte 8 on only while the sum of the offsets so far is below 8, as the source does. |
| CabiEightByte.EightByteInfo.IncorporateScalar | llvm-gofrontend/go-llvm-cabi-oracle.cpp:296-307 | A scalar is one region; small integers get the sign or zero extension attribute. |
| CabiEightByte.EightByteInfo.GetRegisterRequirements | llvm-gofrontend/go-llvm-cabi-oracle.cpp:309-318 | Counts the regions of each class. |
| CabiEightByte.EightByteInfo.DetermineABITypes | llvm-gofrontend/go-llvm-cabi-oracle.cpp:322-347 | Every region gets its chosen type: a float, a double, a vector of two floats, or an integer of the spanned bytes. |
| CabiOracle.PassableExactly | llvm-gofrontend/go-llvm-cabi-oracle.cpp:530-534 | The types the oracle accepts are all but the arrays of at most 16 bytes that do not fit. |
| CabiOracle.ABIState.AddDirectIntArg | llvm-gofrontend/go-llvm-cabi-oracle.cpp:403-407 | Takes one integer register if any is left, and one slot. |
| CabiOracle.ABIState.AddDirectSSEArg | llvm-gofrontend/go-llvm-cabi-oracle.cpp:408-412 | Takes one SSE register if any is left, and one slot. |
| CabiOracle.ABIState.AddIndirectArg | llvm-gofrontend/go-llvm-cabi-oracle.cpp:413-415 | Takes a slot and no register. |
| CabiOracle.ABIState.AddIndirectReturn | llvm-gofrontend/go-llvm-cabi-oracle.cpp:416-420 | Takes a slot and one integer register. |
| CabiOracle.ABIState.AddChainArg | llvm-gofrontend/go-llvm-cabi-oracle.cpp:421-423 | Takes a slot and no counted register. |
| CabiOracle.CABIOracle.AnalyzeABIReturn | llvm-gofrontend/go-llvm-cabi-oracle.cpp:536-573 | Gives the entry of the result and leaves the counters as the specification says, for void, empty, small and large results. |
| CabiOracle.CABIOracle.AnalyzeABIParam | llvm-gofrontend/go-llvm-cabi-oracle.cpp:586-644 | Gives the entry of a parameter, with its slot offset, and leaves the counters as the specification says. |
| CabiOracle.CABIOracle.Analyze | llvm-gofrontend/go-llvm-cabi-oracle.cpp:682-725 | The entries of result, chain and parameters, and the lowered parameter list, result first if it is passed in memory. |
| CabiSignature.LoweredIsSlots | llvm-gofrontend/go-llvm-cabi-oracle.cpp:682-725 | The lowered parameter list is the slots of the entries one after another. |
| CabiSignature.OffsetIsCount | llvm-gofrontend/go-llvm-cabi-oracle.cpp:586-644 | The offset kept with an entry is the number of slots before it. |
| CabiSignature.SlotsPartition | llvm-gofrontend/go-llvm-cabi-oracle.cpp:682-725 | Every lowered parameter belongs to one entry and one only, at its place in that entry. |
| CabiSignature.CountersAgree | llvm-gofrontend/go-llvm-cabi-oracle.cpp:400-432 | At each parameter the counters are 6 less the integer slots so far and 8 less the SSE slots so far, never below zero, and the slot count; an indirect result counts as an integer slot, the chain as none. |
| CabiSignature.DirectExactly | llvm-gofrontend/go-llvm-cabi-oracle.cpp:575-584 | A parameter in two pieces is passed directly if and only if both pieces get registers in the sequential assignment; otherwise the whole of it goes to memory. In one piece it is always direct. |
| CabiCall.MeetAt8Exactly | llvm-gofrontend/go-llvm-cabi-oracle.cpp:351-363 | When two pieces meet at byte 8: exactly when they are not a struct's two narrow regions. |
| CabiCall.RoundTrip | llvm-gofrontend/go-llvm.cpp:1886-2000 | Taking a value apart into its pieces and putting them back into another slot stays inside the slot and carries over every scalar of the type. |
| CabiCall.RoundTripExactly | llvm-gofrontend/go-llvm.cpp:1886-2000 | It does so for all contents if and only if the pieces meet at byte 8. |
| CabiCall.RoundTripLoses | llvm-gofrontend/go-llvm.cpp:1886-2000 | Where they do not, contents that are lost. |
| CabiCall.ValuesMatchSlots | llvm-gofrontend/go-llvm.cpp:1862-2000 | Up to any entry the caller has pushed as many values as the signature has slots. |
| CabiCall.FoundAtOffset | llvm-gofrontend/go-llvm-bfunction.cpp:272-327 | At an entry's offset the argument list holds just the values the caller pushed for it. |
| CabiCall.ParameterArrives | llvm-gofrontend/go-llvm-bfunction.cpp:272-327 | For every signature, all arguments and each parameter: what the callee has after the prolog is the caller's value, or, for a direct parameter, its slot with the pieces of that value put back. |
| CabiCall.CallIsLossless | llvm-gofrontend/go-llvm-bfunction.cpp:272-327 | For a parameter that is ignored, in memory, or direct with pieces that meet at byte 8: every scalar the callee's slot holds after the prolog is the caller's. |
| CabiCall.CallIsLosslessExactly | llvm-gofrontend/go-llvm.cpp:1886-2000 | A parameter is carried over for all arguments and whatever was in its slot if and only if it is not passed directly or its pieces meet at byte 8; so also when registers have run out. |
| CabiCall.ReturnIsLossless | llvm-gofrontend/go-llvm-bfunction.cpp:400-447 | For every result type whose pieces, if it has two, meet at byte 8, and in each of the ways it can be returned: every scalar of what the caller takes out is the callee's, and no field is read or written outside the value. |
| CabiCall.ReturnIsLosslessExactly | llvm-gofrontend/go-llvm.cpp:2046-2058 | A result comes back for all its values and whatever was in the temporary if and only if it is not returned in pieces or its pieces meet at byte 8. |
| CabiCall.AggregateFitsExactly | llvm-gofrontend/go-llvm-bfunction.cpp:440-446 | A result in two pieces is loaded and stored as one struct. With its padding that struct is no larger than the result if and only if the result has sixteen bytes (or the pieces do not meet at byte 8). |
| CabiMarshall.GenCallState.GenCallProlog | llvm-gofrontend/go-llvm.cpp:1862-1884 | Pushes the result address, if the result is in memory, and the chain. |
| CabiMarshall.GenCallState.GenCallMarshallArgs | llvm-gofrontend/go-llvm.cpp:1886-2000 | The argument loop pushes for each parameter what the specification of the call says, in order. |
| CabiMarshall.GenCallState.GenCallAttributes | llvm-gofrontend/go-llvm.cpp:2002-2030 | Writing attributes by the entries' offsets puts on every argument the attribute of its slot, and none elsewhere. |
| CabiMarshall.Bfunction.AbiSetup | llvm-gofrontend/go-llvm-bfunction.cpp:75-138 | Walking with a counter of its own the callee comes to the same places and attributes as the oracle and the caller, and knows result address, chain and parameters by them. |
| CabiMarshall.Bfunction.GenArgSpill | llvm-gofrontend/go-llvm-bfunction.cpp:272-327 | The stores into a parameter's stack slot leave in it what the specification of the call says, and report how many arguments were used. |
| CabiMarshall.Bfunction.GenProlog | llvm-gofrontend/go-llvm-bfunction.cpp:329-358 | Every direct parameter's slot is filled so, the slots of all others are left as they were, and the static chain is stored if a variable was asked for it. |
| CabiMarshall.Bfunction.StaticChainVariable | llvm-gofrontend/go-llvm-bfunction.cpp:189-215 | From then on the prolog spills the static chain. |
| CabiMarshall.ChainArrives | llvm-gofrontend/go-llvm-bfunction.cpp:334-346 | The argument the prolog takes for the static chain is the one the caller pushed. |
| CabiMarshall.SpilledArguments | llvm-gofrontend/go-llvm-bfunction.cpp:329-358 | The caller's pushed arguments always allow this spilling: no missing argument, no store outside a slot. |
| CabiMarshall.ReadIsReceived | llvm-gofrontend/go-llvm-bfunction.cpp:75-138 | Whatever a parameter is found as, an argument or a stack slot: reading through it gives the caller's value if it was passed in memory or is empty, and the caller's scalars if it came in pieces that meet at byte 8. |
| CabiMarshall.ResultAddressArrives | llvm-gofrontend/go-llvm-bfunction.cpp:82-92 | A result in memory finds its address in the first argument. |
| CabiMarshall.EnterFunction | llvm-gofrontend/go-llvm-bfunction.cpp:329-358 | Setting up a function and running its prolog on the arguments a caller has pushed: every parameter is then read so, and the result address and the static chain are where the function looks for them. |
| CabiLimits.ByteArraysFail | llvm-gofrontend/go-llvm-cabi-oracle.cpp:285-292 | Arrays of one- and two-byte integers of 9 to 16 bytes: no type can be chosen, since the split sums the offsets. |
| CabiLimits.ThreeIntsAggregate | llvm-gofrontend/go-llvm-bfunction.cpp:440-446 | An array of three 32-bit integers has twelve bytes, and the struct it is returned as has sixteen. |
| CabiLimits.PaddedByEmptyLoses | llvm-gofrontend/go-llvm-cabi-oracle.cpp:351-363 | A struct with an empty member that raises alignment, whose two narrow pieces do not meet at byte 8, with contents that are lost. |
| NodeGraph.Bnode.ReplaceChild | llvm-gofrontend/go-llvm-bnode.cpp:109-113 | Overwrites one child slot and nothing else. |
| NodeGraph.BelowIsLeast | llvm-gofrontend/go-llvm-tree-integrity.cpp:183-196 | The nodes below a node are the least set that has the node and the children of its members. |
| NodeSharing.TraceIsBelow | llvm-gofrontend/go-llvm-tree-integrity.cpp:183-196 | The walk meets every slot of every node below the root, and every instruction, and nothing else, though shared nodes are walked again. |
| NodeSharing.NotedAll | llvm-gofrontend/go-llvm-tree-integrity.cpp:76-129 | Whatever the sequence of meetings: a child has its last slot noted, a pair is recorded as sharing just when the child was met in another slot too, in the order met, and the counters count what was recorded. |
| NodeRepair.RecordedIsShared | llvm-gofrontend/go-llvm-tree-integrity.cpp:76-106 | A tracked child is recorded as shared if and only if two different slots below the root hold it. |
| NodeRepair.TwoHoldersRecorded | llvm-gofrontend/go-llvm-tree-integrity.cpp:76-106 | Of any two different slots that hold a tracked child one is recorded, so that refilling the recorded ones leaves one at most. |
| NodeRepair.CountsTell | llvm-gofrontend/go-llvm-tree-integrity.cpp:198-211 | The counters of shared statements, expressions and instructions are zero exactly when there are none. |
| NodeRepair.GraftMends | llvm-gofrontend/go-llvm-tree-integrity.cpp:162-181 | Putting a fresh copy of the child that was there first into a recorded slot keeps every tree as it was, and new nodes in one place only, also when the parent is shared or the child was replaced before. |
| NodeRepair.MendedIsUnshared | llvm-gofrontend/go-llvm-tree-integrity.cpp:162-181 | When all recorded slots have been refilled, no tracked node below the root has two parent slots, and no instruction two owners. |
| TreeIntegrity.CloneInstructions | llvm-gofrontend/go-llvm-bnode.cpp:748-765 | New instructions with the same opcodes in the same order. |
| TreeIntegrity.CloneSubtree | llvm-gofrontend/go-llvm-bnode.cpp:729-774 | The copy is all new nodes and instructions, of the five flavors that may be cloned, shares nothing within itself, and unfolds to the same tree. |
| TreeIntegrity.AcceptableExactly | llvm-gofrontend/go-llvm-tree-integrity.cpp:131-160 | A tree may be cloned if and only if every node below its root is a constant, a variable, a conversion, a dereference or a struct field. |
| TreeIntegrity.RepairableSubTree | llvm-gofrontend/go-llvm-tree-integrity.cpp:131-160 | The worklist search says yes if and only if the tree may be cloned. |
| TreeIntegrity.RepairableExactly | llvm-gofrontend/go-llvm-tree-integrity.cpp:198-219 | A graph can be repaired if and only if no instruction and no statement is shared, and below every shared tracked expression there are constants, variables, conversions, dereferences and struct fields only. |
| TreeIntegrity.MendedKeepsOthers | llvm-gofrontend/go-llvm-tree-integrity.cpp:162-181 | Whatever slots have been refilled, the calls, operators, statements and all other nodes that may not be cloned are the same below the root as before. |
| TreeIntegrity.IntegrityVisitor.ShouldBeTracked | llvm-gofrontend/go-llvm-tree-integrity.cpp:52-60 | Says no for expressions with module-scope values and, if variables are ignored, for variables and their conversions; yes otherwise, and of statements always. |
| TreeIntegrity.IntegrityVisitor.SetParent | llvm-gofrontend/go-llvm-tree-integrity.cpp:76-106 | Notes one meeting of a child with a slot. |
| TreeIntegrity.IntegrityVisitor.SetInstParent | llvm-gofrontend/go-llvm-tree-integrity.cpp:108-129 | Notes one meeting of an instruction with its owner. |
| TreeIntegrity.IntegrityVisitor.Visit | llvm-gofrontend/go-llvm-tree-integrity.cpp:183-196 | The recursive walk notes the whole trace below the node, in order. |
| TreeIntegrity.IntegrityVisitor.CloneInto | llvm-gofrontend/go-llvm-tree-integrity.cpp:168-176 | One round of the repair loop: the slot holds a new copy, all else as it was. |
| TreeIntegrity.IntegrityVisitor.Repair | llvm-gofrontend/go-llvm-tree-integrity.cpp:162-181 | Refills the recorded slots in the order recorded; succeeds if and only if every recorded child may be cloned; every tree is kept either way. |
| TreeIntegrity.IntegrityVisitor.Examine | llvm-gofrontend/go-llvm-tree-integrity.cpp:198-219 | Without repair: true if and only if nothing is shared, and nothing is changed. With repair: true if and only if no statement and no instruction is shared and every shared expression may be cloned; then nothing is shared any more. The tree unfolded from every node is the same as before in all cases. |
| TreeIntegrity.CheckTreeIntegrity | llvm-gofrontend/go-llvm.cpp:203-210 | The same for the entry point, which makes a visitor of its own, with the flavors listed one by one; all new nodes are of these five, and the other nodes below the root are those there were. |
| Placeholders.LeastIsUnique | llvm-gofrontend/go-llvm-typemanager.cpp:875-917 | What is resolved is settled by the components given so far: no order of operations or of visits matters. |
| Placeholders.StuckExactly | llvm-gofrontend/go-llvm-typemanager.cpp:875-917 | A type is unresolved if and only if it is in a knot: by pointers and arrays alone it leads to a type not given, or in a circle; a struct on the way unties it. |
| Placeholders.GoneIsLeast | llvm-gofrontend/go-llvm-typemanager.cpp:875-917 | When nothing is left to do, the unflagged types are the least set with "set, and every component resolved or a struct". |
| Placeholders.Cleared | llvm-gofrontend/go-llvm-typemanager.cpp:732-797 | Clearing one flag leaves just the types that refer to it possibly due, and no type is cleared that the rule does not resolve. |
| Placeholders.Given | llvm-gofrontend/go-llvm-typemanager.cpp:1010-1058 | Setting a placeholder leaves it alone possibly due. |
| Placeholders.NewType | llvm-gofrontend/go-llvm-typemanager.cpp:330-366 | A new type flagged by its components keeps all this. |
| Placeholders.TypeManager.Settled | llvm-gofrontend/go-llvm-typemanager.cpp:875-917 | Between operations the resolved types are that least set. |
| Placeholders.TypeManager.AddPlaceholderRefs | llvm-gofrontend/go-llvm-typemanager.cpp:330-366 | Says whether a component must be waited for, structs never, and records the type with exactly those that must. |
| Placeholders.TypeManager.BasicType | llvm-gofrontend/go-llvm-typemanager.cpp:286-305 | A new type with no components is resolved. |
| Placeholders.TypeManager.PlaceholderType | llvm-gofrontend/go-llvm-typemanager.cpp:442-454 | A new placeholder is unresolved and refers to nothing; all else is as before. |
| Placeholders.TypeManager.CompoundType | llvm-gofrontend/go-llvm-typemanager.cpp:475-510 | A new pointer, array or struct type is flagged just when it waits for a component. |
| Placeholders.TypeManager.PostProcessResolvedPlaceholder | llvm-gofrontend/go-llvm-typemanager.cpp:875-917 | Forward chaining from a resolved type comes to an end, each recursive call having fewer flagged types, and leaves nothing due beyond what was due outside. |
| Placeholders.TypeManager.PostProcessResolvedSinglePlaceholder | llvm-gofrontend/go-llvm-typemanager.cpp:732-757 | A pointer or array whose only component got resolved is cleared, and those that wait for it after it. |
| Placeholders.TypeManager.PostProcessResolvedStructPlaceholder | llvm-gofrontend/go-llvm-typemanager.cpp:759-797 | A struct is cleared when none of its fields must be waited for any more, and left alone otherwise. |
| Placeholders.TypeManager.SetPlaceholderPointerType | llvm-gofrontend/go-llvm-typemanager.cpp:921-959 | After it the resolved types are again the least set, with this placeholder given; it may be given again, to the same type. |
| Placeholders.TypeManager.SetPlaceholderStructType | llvm-gofrontend/go-llvm-typemanager.cpp:1010-1058 | The same for structs. |
| Placeholders.TypeManager.SetPlaceholderArrayType | llvm-gofrontend/go-llvm-typemanager.cpp:1060-1101 | The same for arrays. |
| Uleb128.RoundTrip | llvm-gofrontend/go-llvm-linemap.cpp:44-75 | Reading an encoded number back gives the number and its length, whatever bytes follow (DWARF version 4, section 7.6). |
| Uleb128.UlebFormat | llvm-gofrontend/go-llvm-linemap.cpp:44-54 | The top bit is set in all bytes but the last; the other seven bits of each, least significant first, make up the number; no byte is wasted. |
| Uleb128.UlebIsShort | llvm-gofrontend/go-llvm-linemap.cpp:44-54 | A number below 128 to the n takes at most n bytes. |
| Uleb128.U32IsShort | llvm-gofrontend/go-llvm-linemap.cpp:44-54 | Line and column take at most five bytes each, so the buffer of the encoder is large enough. |
| Uleb128.EncodeULEB128 | llvm-gofrontend/go-llvm-linemap.cpp:44-54 | The loop writes the encoding and touches nothing before it. |
| Uleb128.DecodeULEB128 | llvm-gofrontend/go-llvm-linemap.cpp:56-68 | The loop reads what the specification reads. |
| LinemapModel.StepKeeps | llvm-gofrontend/go-llvm-linemap.cpp:77-171 | Every operation keeps the table a refinement of a plain map from handles to file, line and column: segments disjoint and sorted, the open segment after all others, names right. |
| LinemapModel.LowerBoundFinds | llvm-gofrontend/go-llvm-linemap.cpp:69-73 | What the search comes to is the first segment that ends at or after the handle. |
| LinemapModel.FileFound | llvm-gofrontend/go-llvm-linemap.cpp:69-74 | That segment, or the current file if there is none, is the one the handle was issued in. |
| LinemapModel.PlacedDecodes | llvm-gofrontend/go-llvm-linemap.cpp:56-75 | A handle in the map decodes to its file, line and column. |
| LinemapModel.EveryHandleDecodes | llvm-gofrontend/go-llvm-linemap.cpp:77-171 | After every run of operations every handle ever returned decodes to what was current when it was issued. |
| LinemapModel.IssuedDecodes | llvm-gofrontend/go-llvm-linemap.cpp:157-171 | In every run: a location once issued decodes to the file last started and the line last set before it was, and to its own column, whatever comes later. |
| LinemapModel.PredefinedDecode | llvm-gofrontend/go-llvm-linemap.cpp:19-38 | In every run: handle 0 decodes to no file, line 0, column 0, and handle 2 to the built-in file, line 1, column 1. |
| LinemapModel.PlacesStay | llvm-gofrontend/go-llvm-linemap.cpp:159-171 | Handles are new when issued, and their places never change afterwards. |
| LinemapModel.InitialFileIsFirstStarted | llvm-gofrontend/go-llvm-linemap.cpp:173-179 | The initial file is the first one started, whether or not a location in it was ever returned. |
| LinemapModel.InitialFileExactly | llvm-gofrontend/go-llvm-linemap.cpp:173-179 | In every legal run that issues a location, the initial file is the file of the first location issued, which it is described as, if and only if that was issued while the first file started was the current one. |
| LinemapModel.InitialFileWithoutLocation | llvm-gofrontend/go-llvm-linemap.cpp:173-179 | A file started and left at once is the initial file though the first location issued is in another. |
| LinemapModel.BeginRight | llvm-gofrontend/go-llvm-linemap.cpp:19-38 | It holds of the table with its two predefined handles. |
| Linemap.FindSegment | llvm-gofrontend/go-llvm-linemap.cpp:69-73 | The search by halving finds it. |
| Linemap.LlvmLinemap.constructor | llvm-gofrontend/go-llvm-linemap.cpp:19-38 | The table begins with the unknown and the built-in location. |
| Linemap.LlvmLinemap.AddEncodedLocation | llvm-gofrontend/go-llvm-linemap.cpp:44-54 | Appends the two encodings; the handle is where they begin. |
| Linemap.LlvmLinemap.DecodeLocation | llvm-gofrontend/go-llvm-linemap.cpp:56-75 | Every handle of the plain map decodes to its place. |
| Linemap.LlvmLinemap.StartFile | llvm-gofrontend/go-llvm-linemap.cpp:79-101 | File and line change in the plain map, and nothing else: places stay. |
| Linemap.LlvmLinemap.StartLine | llvm-gofrontend/go-llvm-linemap.cpp:151-155 | The line changes. |
| Linemap.LlvmLinemap.GetLocation | llvm-gofrontend/go-llvm-linemap.cpp:159-171 | A handle never returned before, for the current file and line and the column asked for. |
| Linemap.LlvmLinemap.Stop | llvm-gofrontend/go-llvm-linemap.cpp:143-147 | No file is current any more; places stay. |
| Linemap.LlvmLinemap.LocationFile | llvm-gofrontend/go-llvm-linemap.cpp:127-132 | The file of a handle. |
| Linemap.LlvmLinemap.LocationLine | llvm-gofrontend/go-llvm-linemap.cpp:120-125 | The line of a handle. |
| Linemap.LlvmLinemap.LocationColumn | llvm-gofrontend/go-llvm-linemap.cpp:134-139 | The column of a handle. |
| VarContexts.NotPendingActsAtOnce | llvm-gofrontend/go-llvm.cpp:529-556 | For every expression that is not pending, on every machine: its indirection is one load, of the word at its value; a field or an element is an offset from it; neither is pending; resolving it does nothing. |
| VarContexts.LoweredMeans | llvm-gofrontend/go-llvm.cpp:500-604 | For every well-typed chain of address, indirection, field and index operators on a variable, or on a value already computed: the code computes its place, and of an address or on a value already computed its value, and the context says which. |
| VarContexts.ResolvedMeans | llvm-gofrontend/go-llvm.cpp:633-650 | Once resolved, the chain's place where it is written to, and its value where it is read; on a value already computed, its value. |
| VarContexts.GoOnFromResolved | llvm-gofrontend/go-llvm.cpp:529-556 | A pointer resolved and then dereferenced, as the result of a call is, gives what the chain as a whole means. |
| VarContexts.AggregateByAddress | llvm-gofrontend/go-llvm.cpp:633-650 | Resolved for writing, a chain read as an aggregate gives its place. |
| VarContexts.RightUseExactly | llvm-gofrontend/go-llvm.cpp:633-650 | Read in place of its value, the right value comes out on every machine if and only if the variable was marked for reading, or the chain is an address, or stands on no variable. |
| VarContexts.StarAmpersandIsNothing | llvm-gofrontend/go-llvm.cpp:529-604 | Indirection of an address is the expression itself, same code, same context. |
| VarContexts.LoadsAreNeeded | llvm-gofrontend/go-llvm.cpp:500-525 | The loads are the indirections that are not of an address, and one more where a variable's value is read: none is missing or superfluous. |
| VarContexts.VarContext.SetPending | llvm-gofrontend/go-llvm-bexpression.h:90-95 | The context becomes pending with the flag and level given. |
| VarContexts.VarContext.Reset | llvm-gofrontend/go-llvm-bexpression.h:96-96 | The context is no longer pending; flag and level stay. |
| VarContexts.VarExpression | llvm-gofrontend/go-llvm.cpp:875-885 | A variable is its address, pending, with its lvalue flag and no address taken. |
| VarContexts.AddressExpression | llvm-gofrontend/go-llvm.cpp:560-604 | No code; one address taken more. |
| VarContexts.LoadFromExpr | llvm-gofrontend/go-llvm.cpp:500-525 | A load of what the expression points to. |
| VarContexts.IndirectExpression | llvm-gofrontend/go-llvm.cpp:529-556 | An address taken is undone without code; otherwise a load, pending if and only if the operand was. |
| VarContexts.StructFieldExpression | llvm-gofrontend/go-llvm.cpp:1249-1275 | The offset of the field added; the context handed on. |
| VarContexts.ArrayIndexExpression | llvm-gofrontend/go-llvm.cpp:1795-1822 | The offset of the element added; the context handed on. |
| VarContexts.ResolveVarContext | llvm-gofrontend/go-llvm.cpp:633-650 | A load if the variable was marked for reading and no address was taken; the context is not pending after it. |
| VarContexts.BuildChain | llvm-gofrontend/go-llvm.cpp:500-604 | Building a chain operator by operator gives the lowering the theorems speak of. |
| Composites.AllSetExactly | llvm-gofrontend/go-llvm.cpp:1694-1737 | No element is left unset if and only if the counts differ or the indexes are distinct: with as many distinct indexes as elements every element is hit. |
| Composites.DistinctElements | llvm-gofrontend/go-llvm.cpp:1661-1737 | With distinct indexes each element is the value given for it, or zero. |
| Composites.MakeDelayedCompositeExpr | llvm-gofrontend/go-llvm.cpp:1661-1692 | The delayed builder computes these elements; of a repeated index the last value counts. |
| Composites.MakeConstCompositeExpr | llvm-gofrontend/go-llvm.cpp:1694-1737 | So does the constant builder, of the values cast. |
| Composites.ElementTypesExactly | llvm-gofrontend/go-llvm.cpp:1704-1715 | The builder casts by position in the list: the elements have their own types if and only if the type at each index is that at its position. |
| Composites.ConstructorExpression | llvm-gofrontend/go-llvm.cpp:1635-1659 | A constant struct, one value for each field: every field has its value and its own type. |
| Composites.ArrayConstructorExpression | llvm-gofrontend/go-llvm.cpp:1739-1761 | A constant array: whatever is set has the type of the elements, and with distinct indexes each element has its value, or zero. |
| SwitchLayout.LayoutReadsBack | llvm-gofrontend/go-llvm-bnode.cpp:678-710 | Case values and statements are where the descriptors say, empty cases included. |
| SwitchLayout.SwitchDescriptor.constructor | llvm-gofrontend/go-llvm-bnode.cpp:678-690 | The loop computes these descriptors. |
| SwitchLayout.SwitchStmt.constructor | llvm-gofrontend/go-llvm-bnode.cpp:692-710 | The children are the value, all case values, all statements. |
| SwitchLayout.SwitchStmt.NthCase | llvm-gofrontend/go-llvm-bstatement.cpp:133-147 | Reads the Nth list of case values back. |
| SwitchLayout.SwitchStmt.NthStmt | llvm-gofrontend/go-llvm-bstatement.cpp:149-159 | Reads the Nth statement back. |
| ExportData.ReadEscaped | llvm-gofrontend/go-llvm.cpp:3666-3683 | An assembler with escapes of its own (letters, octal numbers) reads the bytes out of the escaped text, whatever text follows the closing quote. |
| ExportData.LineReadsBack | llvm-gofrontend/go-llvm.cpp:3706-3724 | It takes the whole line for an `.ascii` directive with these bytes and stops after it. |
| ExportData.LinesReadBack | llvm-gofrontend/go-llvm.cpp:3706-3724 | However the data is cut into chunks, reading all lines gives all the data. |
| ExportData.EscapedIsTame | llvm-gofrontend/go-llvm.cpp:3666-3683 | The escaped text has no newline and no NUL, an odd number of backslashes before every quote in it, and an even number before the quote that closes it. |
| ExportData.PostProcessExportDataChunk | llvm-gofrontend/go-llvm.cpp:3666-3683 | The loop computes the escaped text. |
| ExportData.Writer.WriteExportData | llvm-gofrontend/go-llvm.cpp:3706-3724 | At any time, reading back what was written gives all the data given so far. |

## Left out

- Driver, command line, archive and object reading, diagnostics, hashing and scripts: input and output.
- Debug metadata, dumps, traces and the tables of builtins: calls into LLVM and lists of constants.
- LLVM itself: folding in the builders, operands of instructions, the verifier, personality functions.
- Constants by GMP and MPFR, floating-point arithmetic, complex and 128-bit types.
- Try statements within try statements.
- TryFinally.TryCodeInOrder: nothing of its own on gotos into a try statement or out of one of its parts; of those only
  `LoweringCorrect.LoweringIsCorrect` speaks, with the meaning `StmtTree` gives them.
- TryMeaning.CodeAsMeantExactly: the same; what is meant is said only of try statements without such gotos.
- TryMeaning.CodeMeansExactly: the same.
- `emitOrphanedCode_`: dead instructions are always dropped in the model.
- Signatures that do not follow the C ABI (`analyzeRaw`).
- Sharing of equal types in `anonTypes_`, named types, function types, circular pointer types, error types, and the
  LLVM types that placeholders stand for.
- Operands of cloned instructions, tags and pending contexts of clones, and the text of the messages about sharing.
- `unsetParent`, `extractChildenAndDestroy` and the explicit deletion of nodes.
- Handles beyond 32 bits, the printing of locations and statistics. Legal runs stop before the buffer is full and ask
  for locations only within a file.
- Addresses of globals and constants, and the spilling of constants to memory.
- The section directives around the export data.
- Placeholders.TypeManager.CompoundType: gives a new type each time, where the source may hand back an equal one from
  `anonTypes_`.
- Placeholders.TypeManager.SetPlaceholderStructType: a placeholder is set once, as the front end does.
- Placeholders.TypeManager.SetPlaceholderArrayType: a placeholder is set once, as the front end does.
- Placeholders.TypeManager.SetPlaceholderPointerType: it may be set again, but to the same type only.
- CabiCall.ReturnIsLossless: the padding of the two-field struct is not counted as accessed, see above.
- CabiMarshall.Bfunction.StaticChainVariable: says that the chain is to be spilled; the making of its stack slot and
  variable is not modelled.
- CabiMarshall.Bfunction.GenProlog: parameters in memory are read from the copy the call made of them, which the model
  does not move about.
- VarContexts.LoweredMeans: no address is taken of an expression that is not pending; the source would mark it pending,
  and what that means is up to its caller.
- Composites.MakeConstCompositeExpr: a cast changes the type of a constant and never fails.
