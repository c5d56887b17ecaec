# Verified passes of a C compiler

A Dafny model of the passes of this C compiler that carry an argument: from structured CminorSel code to an RTL graph,
liveness and graph-colouring register allocation, LTL, the linear code with its argument moves, tunnelling and label
cleanup, the stack frame, and Mach code; and beside that pipeline the expression parser, macro expansion, conditional
inclusion, loops, switch lowering and C type layout.  The passes are written as the source writes them (classes and loops where it changes
state) and proved against specification functions; the theorems are about those functions and the runs of the languages'
machines.

Operators, memory accesses, calls and built-ins are not interpreted: an oracle says what they yield, and every theorem
holds for all oracles (`Values.dfy`).  `dfyconfig.toml` names the project's files, so that `dafny verify dfyconfig.toml`
checks all of it.

| part | modules |
|---|---|
| languages | Values, CminorSel, RTL, LTL, Linear, Mach, Runs (runs and simulations), Syntax |
| graph generation | Gen (the specification), GenGrows, GenExprs, GenStmts, GenFunction, GenCalls, RtlGen (the translators), Numbers |
| register allocation | Liveness, ReadWrite, Interference, Conventions, Coalescing, Params, Coloring, Rounds (one round of the main loop), Progress and Spilling (when it ends), Irc (the allocator), WideFunctions, Moves, RegMoves, RegTransform |
| linear code | Order, CallMoves, Linearize, LinearizeProof, Tunneling, Cleanup, Backend |
| stack frame | Frame, Prolog, Stacking, StackingProof, StackingRuns |
| all of these | Pipeline, Words and OutputWords (which locations compiled code mentions), Compiler, Limits (counterexamples) |
| parser and preprocessor | Parser, ParserProof, Grammar (section 6.5 of ISO/IEC 9899:2011), Conditionals, Macros, MacroProof, MacroArguments, MacroCalls, MacroStrings |
| other lowering | Loops, Switch, Layout, LayoutLaws |

What turned out not to hold in general is stated exactly: `GenExprs.NegationIsRightIff`, `CallMoves.ConvertCall` with
`ScratchArgumentIsLost` and `Limits.PointerParameterIsLost`, `Frame.OwnPlaceIff` with `BuiltinSlotIsMissed`,
`Prolog.SavesEnoughIff` with `BuiltinRegisterIsMissed`, `Prolog.RegistersKeptIffEven`,
`StackingRuns.RestoredCalleeIsLost`, `Stacking.TransformedIff`, `ParserProof.ParsesExactly` with
`AssignmentArgumentFails`, `Grammar.ParsesTheStandard`, `WideFunctions.WideEndsIff`, `MacroCalls.EmptyOperandFails`,
`MacroCalls.SpacedOperandIsExpanded`, `Switch.SwitchPreservesMeaningIff`, and `Loops.ClightMeans` and `BlocksMean`, which say what
a continue in a do loop does instead.

## Model

| member | source | states |
|---|---|---|
| GenExprs.ExprRuns | pkg/rtlgen/expr.go:38-209 | From the entry node of an expression's code, RTL reaches the successor with the expression's value in the destination; memory, trace, the variables and all registers given out elsewhere are unchanged. |
| GenExprs.CodeRuns | pkg/rtlgen/expr.go:213-257 | For every condition, also those that are compiled wrongly, the code branches as `CodeCond` says: short-circuit, with a negated conjunction or disjunction taken to hold. |
| GenExprs.NegationIsRightIff | pkg/rtlgen/expr.go:240-257 | The code of a negation branches as the negation means, for all oracles, environments and memories, if and only if what is negated is a comparison, a constant or a negation of these, or never holds. |
| GenExprs.NegatedConjunctionGoesWrong | pkg/rtlgen/expr.go:252-255 | `!(x == y && x == y)` with 1 in x and y is false, and its code branches as if it were true. |
| GenStmts.StmtRuns | pkg/rtlgen/stmt.go:33-351 | If a statement ends normally, with exit n or with a return, RTL from the node that translating it yields reaches the successor, the n-th exit target or the same return, with the same memory and trace and the variables in their registers. |
| CminorSel.SelectsFirst | pkg/rtlgen/stmt.go:300-339 | The meaning of a switch that the translation is proved against: if the scrutinee is the number n, it is the first case with the value n, or the default if there is none. |
| Numbers.ShiftedOperandMeans | pkg/rtlgen/expr.go:314-371 | With operators that compute in 64-bit two's complement, an addition or subtraction with a shifted operand is that of its product with a power of two, of the quotient rounded down, or of the unsigned quotient. |
| GenFunction.FunctionRuns | pkg/rtlgen/stmt.go:389-432 | If the body of a function ends for some arguments, RTL from the entry, with the arguments in the parameters' registers, ends with the same result, memory and trace. |
| GenCalls.FunctionCalls | pkg/rtlgen/stmt.go:107-165 | A function whose calls are by name and have at most eight arguments becomes an RTL function with only such calls. |
| RtlGen.StmtTranslator.TranslateStmt | pkg/rtlgen/stmt.go:33-351 | The translator that fills the shared graph and pushes and pops exit targets yields exactly the node, code and registers of the specification, and leaves the exit targets as it found them. |
| RtlGen.TranslateFunction | pkg/rtlgen/stmt.go:389-432 | The whole translation yields the function that `FunctionRuns` is about. |
| Liveness.Analyze | pkg/regalloc/liveness.go:170-217 | The fixpoint iteration ends, in every order of the nodes, with a solution of the dataflow equations that is contained in all others. |
| Liveness.LivenessSound | pkg/regalloc/liveness.go:94-217 | Two register files that agree on what is live give the same run, step by step for any number of steps. |
| ReadWrite.UsesAreReads | pkg/regalloc/liveness.go:94-167 | The registers that an instruction uses are exactly those for which two register files that differ nowhere else make it act differently, for some oracle and memory. |
| ReadWrite.DefsAreWrites | pkg/regalloc/liveness.go:94-167 | The registers that it defines are exactly those that it can change; but a move to its own source changes nothing. |
| ReadWrite.SuccessorsAreNext | pkg/rtl/ast.go:426-440 | The successors of an instruction, over which liveness flows, are exactly the nodes that it can be followed by, if it does not compare an integer register with itself. |
| ReadWrite.WrittenMayDiffer | pkg/regalloc/interference.go:126-147 | A register that an instruction writes may then hold another value than any given other one, for some oracle and registers, unless it is moved from there; so all of these edges are needed, and only the source of a move is not. |
| Interference.BuildInterferenceGraph | pkg/regalloc/interference.go:109-188 | There is an edge exactly between registers of which one is defined where the other is live out (the source of a move excepted), a preference exactly between the ends of moves, and the last set holds exactly what is live out of calls. |
| Coalescing.CombineKeepsSound | pkg/regalloc/irc.go:282-316 | Merging two registers keeps the invariant of coalescing: aliases lead downwards, and the representatives of interfering registers are different and adjacent. |
| Irc.Allocator.Combine | pkg/regalloc/irc.go:282-316 | The merge does to graph and aliases what `CombineKeepsSound` starts from, gives u the moves of v, takes v off the freeze and spill worklists, and lists the neighbours whose degree it has made low, and u if it is heavy now. |
| Irc.Allocator.Step | pkg/regalloc/irc.go:93-106 | One round is `IsRound` between the states before and after it: the last register to be simplified is pushed and the neighbours whose degree has become low are listed; else the last candidate move is filed, and its representatives are merged if and only if they differ, do not interfere and have fewer than K neighbours of high degree; else the last register to be frozen is, with its moves; else the first of greatest degree is spilled. The invariant is kept, which says that every register is listed, pushed, merged or precoloured. |
| Irc.Allocator.BuildWorklists | pkg/regalloc/irc.go:115-155 | At first every register that is not precoloured is on the one list its degree and moves call for, and every move between different registers is a candidate once. |
| Irc.Allocator.Rounds | pkg/regalloc/irc.go:93-106 | The loop goes through consecutive such states, and ends when nothing is listed or after the given number of rounds. |
| Progress.SimplifiableEnds | pkg/regalloc/irc.go:93-201 | Without moves, if every set of registers that are not all precoloured has one that is not and has fewer than K neighbours in the set, the loop ends after at most as many rounds as there are registers, and every register has fewer than K neighbours that were not pushed before it. |
| Progress.SmallEnds | pkg/regalloc/irc.go:93-383 | With moves, merging and freezing too, the loop ends if there are at most K registers, after at most two rounds for each register and three for each move. |
| Spilling.CliqueRunsOn | pkg/regalloc/irc.go:184-201 | On more than K registers that all interfere, without moves and precoloured registers, it never ends: once enough registers are pushed, their own degrees are low, and they are listed again. |
| WideFunctions.WideEndsIff | pkg/regalloc/irc.go:184-201 | For every n, the loop ends on the function that makes n constants and passes them all to a call if and only if n is at most 27. |
| Coloring.FewNotSpilled | pkg/regalloc/irc.go:385-428 | A register whose neighbours cannot take all the colours that it may have is not spilled. |
| Coloring.SimplifiedNotSpilled | pkg/regalloc/irc.go:385-428 | If nothing is merged or precoloured, and every register had fewer than K neighbours that were not pushed before it, only registers that are live across calls are spilled. |
| Irc.Allocator.AssignColors | pkg/regalloc/irc.go:385-444 | The registers of the stack are placed in turn, the last one first, each in the first colour it may have that no neighbour has, and in a slot only if there is none; merged registers get the places of their representatives. So registers that interfere and are not precoloured get different places, and those that cross a call no caller-saved register. |
| Irc.AllocateFunction | pkg/regalloc/irc.go:90-113 | There is a result if and only if the loop has ended, as `SimplifiableEnds` and `SmallEnds` promise and as `CliqueRunsOn` excludes. Then every register has a place, which is an allocatable register or a slot for a word, and a register if it has few neighbours; interfering registers that are not precoloured have different places; if parameters that are never read are never written, what is live across a call is in a callee-saved register or a slot; and if `ParamsKeepPlaces` holds, all interfering registers have different places. |
| Conventions.AllocatableIsColor | pkg/regalloc/conventions.go:47-65 | Every register up to X28 but X16 and X17 is a colour. |
| RegMoves.ResolveParallelMoves | pkg/regalloc/transform.go:252-322 | If no destination occurs twice, X8 to X15 do not occur and at most eight sources are destinations too, as it always is for parameters, the sequence has the effect of doing all moves at once, cycles included; equal lists need no moves. |
| RegTransform.TransformFunction | pkg/regalloc/transform.go:11-61 | There is a result if and only if allocation ends. It is one block per node under a total allocation, with the moves of the parameters before the entry; with `ParamsKeepPlaces` the allocation and the moves are as `AllocationPreservesMeaning` needs them. |
| RegTransform.AllocationPreservesMeaning | pkg/regalloc/transform.go:74-216 | For any allocation that separates interfering registers and keeps call-crossing ones out of caller-saved registers, k RTL steps and k LTL blocks lead to states that agree on everything live, on memory and on the trace, whatever calls leave in caller-saved registers. |
| Order.ComputeOrder | pkg/linearize/linearize.go:123-160 | The depth-first order lists exactly the reachable nodes, each once, the entry first, and every edge goes forward unless it closes a cycle. |
| CallMoves.StuckMovesPermute | pkg/linearize/linearize.go:360-423 | When no register move is possible, the pending moves permute their destinations. |
| CallMoves.PlaceArguments | pkg/linearize/linearize.go:274-423 | For every order in which moves are picked: only X8 and the argument places are written; all arguments arrive, from every state, if and only if none is read from X8 or an outgoing slot after an overflow argument has gone through it; and X8 is then kept if and only if overflow arguments are in registers and the needed register moves have no cycle; with a cycle it ends up with what one of the moved registers held. |
| CallMoves.CalleeKeptIff | pkg/linearize/linearize.go:274-423 | Once the arguments arrive, any location, X8 included, still holds what it held if and only if it is no place of another argument and, for X8, that is not needed. |
| CallMoves.ConvertCall | pkg/linearize/linearize.go:274-423 | The code for a call does what the call does, from every state and for every oracle, if and only if the operands are safe: the signature counts the arguments, the arguments arrive, and the callee is kept. |
| CallMoves.ScratchArgumentIsLost | pkg/linearize/linearize.go:274-423 | With nine arguments, the first in X8 and the ninth in a slot, what arrives in X0 is the ninth argument. |
| CallMoves.PointerInArgumentRegister | pkg/linearize/linearize.go:274-423 | A call through X0 whose argument is in X1 calls the argument, whatever the order of moves. |
| CallMoves.PointerInNeededScratch | pkg/linearize/linearize.go:360-423 | When two arguments exchange places, a call through X8 calls one of the arguments, from every state. |
| Linearize.LinearizeFunction | pkg/linearize/linearize.go:81-119 | What is emitted is the order's blocks one after the other, each with its label, its instructions and a terminator that falls through where it may. |
| Linearize.FallsThrough | pkg/linearize/linearize.go:438-487 | No jump in it leads to the label that follows it. |
| LinearizeProof.LinearRuns | pkg/linearize/linearize.go:199-487 | After any number of blocks the Linear machine has gone at least as many steps and stands at the label of the same block with the same state, or has ended in the same way. |
| Tunneling.ResolveLabel | pkg/linearize/tunneling.go:60-78 | Following jumps always ends, also on cycles, at a label that jumps alone lead to and that leads no further unless on a cycle. |
| Tunneling.Tunnel | pkg/linearize/tunneling.go:10-110 | Exactly the labels of jumps and branches are replaced, each by its resolution. |
| Tunneling.NoDetours | pkg/linearize/tunneling.go:10-110 | Every jump and branch leads where jumps alone led before, and no longer to a jump unless that is on a cycle of jumps. |
| Tunneling.TunnelRuns | pkg/linearize/tunneling.go:10-110 | Any run of the tunnelled code, of any length, is a run of the original with the same states and visible instructions that takes at least as many steps. |
| Tunneling.TargetsAreJumps | pkg/linearize/cleanup.go:44-62 | The labels that an instruction is taken to jump to are exactly those that it does jump to in some state, if its condition ever holds. |
| Cleanup.CleanupLabels | pkg/linearize/cleanup.go:9-62 | Exactly the labels that nothing jumps to are dropped, but not the first. |
| Cleanup.CleanRuns | pkg/linearize/cleanup.go:9-62 | Any run of the cleaned code matches a run of the original with the same visible instructions. |
| Backend.TunnelCleanShows | pkg/linearize/linearize.go:71-77 | Tunnelling and then cleaning up changes nothing about which sequences of visible instructions are shown, on runs that end, get stuck or go on forever. |
| Backend.TransformPreservesMeaning | pkg/linearize/linearize.go:71-77 | LTL and the finished Linear code have the same ends, for every oracle and start, if the reachable calls have safe operands. |
| Backend.TransformPreservesTraces | pkg/linearize/linearize.go:71-77 | A run of the LTL function that never gets stuck, also one that never ends, emits the same calls and built-ins as the Linear code. |
| Pipeline.CompilationPreservesMeaning | pkg/regalloc/transform.go:11-216 | RTL and the Linear code made from it end alike, in both directions, and unless RTL gets stuck their traces agree forever. |
| Pipeline.CompilerPreservesMeaning | pkg/rtlgen/stmt.go:389-432 | If a CminorSel function ends for some arguments, the Linear code made from it, started with the arguments in their places, ends with the same result, memory and trace. |
| Pipeline.CompilerPreservesCallsByName | pkg/rtlgen/stmt.go:389-432 | The same with nothing asked about where the operands of calls are, for code whose calls are by name with at most eight arguments. |
| OutputWords.CompiledWords | pkg/regalloc/transform.go:11-61 | The compiled Linear code mentions no other locations than the allocatable registers, without X16, X17, X29 and X30, and slots of eight bytes at multiples of eight. |
| Compiler.Compile | pkg/stacking/transform.go:51-92 | From CminorSel to Mach: all the passes, with what `CompilerKeepsConventions` needs of them. There is code if and only if allocation ends and no instruction makes the last translation panic. |
| Compiler.CompilerKeepsConventions | pkg/stacking/transform.go:51-157 | If a CminorSel function ends for some arguments, the Mach code made from it, entered with the arguments in X0 to X7 and above the frame, ends with the same result in X0, the same memory and trace, and the caller's callee-saved registers; asked are the conditions of `CompilerPreservesMeaning`, and of the Linear code that its slots fit, that enough registers are saved and that tail calls do not go through these. |
| Limits.PointerParameterIsLost | pkg/linearize/linearize.go:274-423 | For the function that applies its first parameter to its second, every good allocation puts the pointer where the argument goes, so that the call is not safe; and there is a good allocation. |
| Limits.EntryMovesAreRepeated | pkg/regalloc/transform.go:39-56 | For the function that goes on calling f with its parameter, with a good allocation and all other conditions met, the entry moves are made again and the second call passes the result of the first. |
| Parser.Parser.ParseExprPrec | pkg/parser/parser.go:2348-2363 | The parser that consumes tokens yields the tree of the specification and leaves its remaining tokens. |
| ParserProof.ParsesExactly | pkg/parser/parser.go:2348-2742 | Parsing yields e and stops before rest if and only if e has enough parentheses, the tokens are its printed ones and then rest, and rest does not go on with an operator. |
| ParserProof.RoundTrip | pkg/cabs/printer.go:360-462 | Printing and parsing gives back a tree, with no tokens left, if and only if it has enough parentheses. |
| ParserProof.PrintingIsUnambiguous | pkg/cabs/printer.go:360-462 | Trees with enough parentheses have different tokens. |
| ParserProof.AssignmentArgumentFails | pkg/parser/parser.go:2711-2742 | A bare assignment as the argument of a call is not parsed, unlike in section 6.5.2 of ISO/IEC 9899:2011. |
| Grammar.WrappedIsGrammar | pkg/parser/parser.go:2831-2868 | The trees with enough parentheses are those of a grammar of 16 nonterminals, from primary expressions to comma expressions, with the operators and tokens of each layer listed. |
| Grammar.ParsesTheGrammar | pkg/parser/parser.go:2348-2868 | Exactly what this grammar derives is parsed, to the same tree. |
| Grammar.ParsesTheStandard | pkg/parser/parser.go:2348-2868 | What the grammar of section 6.5 of ISO/IEC 9899:2011 derives is parsed to the same tree if and only if no argument is an assignment without parentheses; what is parsed is derived by it if and only if nothing is assigned to a binary operation or a conditional without parentheses. |
| Conditionals.ConditionalProcessor.Process | pkg/cpp/conditional.go:40-189 | The processor with its stack keeps the lines, evaluates the conditions and reports the errors that the specification says. |
| Conditionals.NestedGroupsMean | pkg/cpp/conditional.go:40-176 | On nested groups the stack keeps exactly the lines of the groups included, evaluates exactly the conditions that decide which those are, in order, and fails exactly where one of these has no value. |
| Conditionals.AcceptsExactly | pkg/cpp/conditional.go:40-189 | If conditions have values, exactly the well-nested files are accepted. |
| Macros.Expander.ExpandTokens | pkg/cpp/expand.go:38-124 | Expansion ends for every table and token list; it yields what the specification says, and leaves the hide set as it was, also on errors. |
| Macros.Expander.ExpandFunctionMacro | pkg/cpp/expand.go:171-262 | A call is expanded with its name hidden, and the hide set is restored. |
| MacroArguments.ArgumentsIff | pkg/cpp/expand.go:266-315 | The arguments of a call are exactly the pieces between the commas that are not in inner parentheses, up to the closing parenthesis, without the white space at their ends, if there are as many as the macro takes; nothing at all is no argument. |
| MacroArguments.BindsArguments | pkg/cpp/expand.go:176-191 | Each of different parameters stands for its own argument. |
| MacroArguments.VariadicPassesOn | pkg/cpp/expand.go:336-352 | What __VA_ARGS__ stands for, between parentheses, is read as the further arguments again. |
| MacroCalls.CallReplaces | pkg/cpp/expand.go:193-262 | Without #, a call becomes the replacement list with each parameter replaced by what its argument expands to, or directly next to ## by the argument itself, position by position; then ## is carried out, and the result scanned again. |
| MacroCalls.PlainCall | pkg/cpp/expand.go:171-262 | Without ## and macro names in arguments, a call becomes the rescanned replacement list with each parameter replaced by its argument. |
| MacroCalls.CallFails | pkg/cpp/expand.go:237-240 | A call fails with the first argument that does not expand. |
| MacroCalls.CallAt | pkg/cpp/expand.go:90-118 | Among other tokens, a name with a parenthesis after it is called with what is in the parentheses, and the expansion goes on behind them. |
| MacroCalls.NotCalledAt | pkg/cpp/expand.go:90-100 | A name of a function-like macro without a parenthesis after it stays. |
| MacroCalls.CallStringifies | pkg/cpp/expand.go:200-217 | # and a parameter, with white space between them, become the string of the argument. |
| MacroStrings.StringifySpells | pkg/cpp/expand.go:355-392 | That string is the words of the argument with one blank between every two and none at the ends, if no token ends in a blank. |
| MacroStrings.HasWords | pkg/cpp/expand.go:355-392 | Every argument consists of such words. |
| MacroStrings.EscapeIsRead | pkg/cpp/expand.go:374-381 | In it, string literals and character constants are escaped so that no quote ends the string and reading it gives back their text. |
| MacroCalls.FirstPaste | pkg/cpp/expand.go:395-478 | The first ## takes its operands, with the white space around it, and leaves what their spellings are read as; then comes the next one. |
| MacroCalls.PasteFails | pkg/cpp/expand.go:404-429 | It is an error if there is only white space before it or after it. |
| MacroCalls.EmptyOperandFails | pkg/cpp/expand.go:221-245 | For `a##b` and all arguments: it is an error if one of them is empty, which section 6.10.3.3 of ISO/IEC 9899:2011 allows, and only then. |
| MacroCalls.SpacedOperandIsExpanded | pkg/cpp/expand.go:221-245 | With a blank before ##, an argument that is a macro name is expanded before it is pasted, which section 6.10.3.1 forbids. |
| MacroProof.LeftoversAreOnCycles | pkg/cpp/expand.go:38-262 | With function-like macros too, an object-like name can only be left over if its macro leads back to it. |
| MacroProof.NamesVanishIffAcyclic | pkg/cpp/expand.go:38-168 | For object-like macros, every token list is expanded to one without macro names if and only if no macro leads back to itself. |
| MacroProof.ExpandingAgain | pkg/cpp/expand.go:38-168 | Then expanding again changes nothing. |
| Loops.ClightMeans | pkg/clightgen/stmt.go:42-213 | Clight code does, for every fuel, what C says, but that continue in a do loop goes on with the body. |
| Loops.SharpMeans | pkg/cshmgen/stmt.go:197-287 | The nested blocks and exits do, at any nesting, what loop, break and continue mean, if no break or continue stands in the part where a loop continues. |
| Loops.BlocksMean | pkg/cshmgen/stmt.go:197-287 | For every statement the blocks do what C says, but for continue in a do loop. |
| Loops.BlocksMeanC | pkg/clightgen/stmt.go:42-213 | Without continue in a do loop they do exactly what C says. |
| Loops.ContinueInDoRunsOn | pkg/clightgen/stmt.go:42-213 | A do loop whose body is continue and whose condition is false ends in C; its code never does. |
| Loops.BreakInPartGoesWrong | pkg/cshmgen/stmt.go:236-280 | A break in the part where a loop continues leaves one block more than it should. |
| Switch.TransformSwitchLinear | pkg/cminorgen/switch.go:110-129 | The cascade takes the exit of the first matching case. |
| Switch.BinaryImplements | pkg/cminorgen/switch.go:133-173 | The tree of comparisons takes the exit of the first matching case, for every scrutinee in range. |
| Switch.TransformSwitchJumpTable | pkg/cminorgen/switch.go:178-221 | The table does so too, whatever wraps around in subtracting the least case. |
| Switch.AnalyzeSwitch | pkg/cminorgen/switch.go:26-92 | The cases are sorted; at most four are compared one by one, more make a table if that has at most two places for each, else a tree of comparisons. |
| Switch.TransformSwitch | pkg/cminorgen/switch.go:224-238 | The exit is that of the first matching case, and up to 2^k cases take at most k + 1 comparisons, or one each if there are at most four. |
| Switch.SwitchPreservesMeaningIff | pkg/cminorgen/switch.go:96-106 | The lowered switch ends as the source switch for every scrutinee if and only if every body ends with the exit that is extracted from it. |
| Layout.SizeofStruct | pkg/cshmgen/expr.go:368-378 | The loop over the fields computes the specified end, rounded up to the greatest alignment. |
| Layout.ComputeFieldOffset | pkg/cshmgen/expr.go:418-434 | The offset is that of the first field of the name, and 0 where there is none. |
| LayoutLaws.FirstIsAtStart | pkg/cshmgen/expr.go:418-434 | The first member of a struct is at offset 0, as section 6.7.2.1 of ISO/IEC 9899:2011 says. |
| LayoutLaws.NextIsNear | pkg/cshmgen/expr.go:418-434 | Every other is at the least multiple of its alignment that is not below the end of the one before. |
| LayoutLaws.StructIsTight | pkg/cshmgen/expr.go:368-391 | The size is the least multiple of the greatest alignment that is not below the last end. |
| LayoutLaws.OursIsPlacement | pkg/cshmgen/expr.go:368-434 | The offsets are a layout of the members in order, aligned and without overlap. |
| LayoutLaws.NoneIsLower | pkg/cshmgen/expr.go:368-434 | No aligned layout of the members in order without overlap has a member at a lower offset. |
| LayoutLaws.NoneIsSmaller | pkg/cshmgen/expr.go:368-434 | Nor is any such layout smaller. |
| LayoutLaws.UnionIsTight | pkg/cshmgen/expr.go:393-415 | The size of a union is the least multiple of its alignment in which every member fits. |
| LayoutLaws.AlignmentIsGreatest | pkg/cshmgen/expr.go:381-415 | The alignment is that of the most aligned member. |
| LayoutLaws.OffsetIsOfFirst | pkg/cshmgen/expr.go:418-434 | The offset that is found for a name is that of the first member of the name. |
| LayoutLaws.BasicTypes | pkg/cshmgen/expr.go:299-365 | The sizes and alignments of the basic types. |
| Layout.SizeIsAligned | pkg/cshmgen/expr.go:299-415 | The size of every type is a multiple of its alignment. |
| Layout.ChainIsInside | pkg/cshmgen/expr.go:299-434 | What any chain of members leads to lies in the whole and is aligned if the whole is. |
| Layout.ChainsApart | pkg/cshmgen/expr.go:368-434 | Chains that part at a struct lead to disjoint places. |
| Frame.ComputeLayout | pkg/stacking/layout.go:46-95 | Each area is as large as all that the scan sees of it, rounded up to its alignment, and the frame to 16; the scan leaves out calls, built-ins, conditions and jump tables. |
| Frame.OwnPlaceIff | pkg/stacking/layout.go:46-118 | A local or outgoing slot is inside the frame and overlaps no saved register, FP, LR or slot of the other kind if and only if it ends within the area of its kind; the number of saved registers is even. |
| Frame.ScannedFits | pkg/stacking/layout.go:128-217 | What the scan sees does so. |
| Frame.BuiltinSlotIsMissed | pkg/stacking/layout.go:128-196 | For every even number of saved registers, the slot of a built-in's result that is used nowhere else is where the last of them is saved, or FP if there is none. |
| Frame.PlacesApart | pkg/stacking/layout.go:98-118 | If all slots that the code uses, in any operand, fit, no two of saved registers, FP, LR and slots overlap, if slots of one kind do not to start with. |
| Frame.FrameHoldsAll | pkg/stacking/layout.go:46-118 | Then everything but incoming slots is inside the frame, which is a multiple of 16, and outgoing slot k is k above the stack pointer. |
| Prolog.FindUsedCalleeSaveRegs | pkg/stacking/calleesave.go:37-113 | The registers are exactly the callee-saved ones among the operands collected, each once, in order. |
| Prolog.SavesEnoughIff | pkg/stacking/calleesave.go:58-102 | All callee-saved registers that the code writes are saved if and only if those of built-ins' results occur elsewhere too. |
| Prolog.BuiltinRegisterIsMissed | pkg/stacking/calleesave.go:58-102 | A built-in whose result is in X19, and nothing else: X19 is written and not saved. |
| Prolog.SaveRegisters | pkg/stacking/prolog.go:21-82 | The prologue's loop puts all registers of an even list, or all but the last of an odd one, into their places, and changes no register and nothing else on the stack. |
| Prolog.RestoreRegisters | pkg/stacking/prolog.go:90-136 | The epilogue's loop loads all registers from their places but, if their number is odd, the first, and changes nothing else. |
| Prolog.RegistersKeptIffEven | pkg/stacking/prolog.go:21-136 | After the epilogue the registers hold what they held before the prologue, whatever happened in between outside the save area, if and only if their number is even. |
| Prolog.PaddedRegistersAreKept | pkg/stacking/calleesave.go:142-148 | Padding makes that so without saving another register. |
| Stacking.TransformedIff | pkg/stacking/transform.go:100-439 | An instruction makes the translation panic if and only if its operands in slots do not get by with X16 and X17, a callee is in a slot, or a location is missing. |
| Stacking.Transform | pkg/stacking/transform.go:51-92 | The code is the saving of registers and the pieces of the instructions, for the frame and the registers found; there is none exactly if some instruction makes the translation panic. |
| StackingProof.StraightDoes | pkg/stacking/transform.go:100-439 | The piece of an instruction that goes on with the next one does what it does on registers, slots, memory and trace, or gets stuck with it; what is saved stays. |
| StackingRuns.StackedRuns | pkg/stacking/transform.go:51-157 | After any number of steps of the Linear code, the Mach code has gone at least as many and stands at the piece of the same instruction in a corresponding state, or has ended in the same way. |
| StackingRuns.StackedEnds | pkg/stacking/transform.go:51-157 | However the Linear code ends from what the caller left in registers and on the stack, the Mach code ends so, with the callee-saved registers restored. |
| StackingRuns.EndsBefore | pkg/stacking/transform.go:51-157 | And it ends in no other way. |
| StackingRuns.StackedEmits | pkg/stacking/transform.go:51-157 | Unless the Linear code gets stuck, both emit the same calls and built-ins, be it forever. |
| StackingRuns.RestoredCalleeIsLost | pkg/stacking/prolog.go:139-146 | A tail call through a register that is restored calls what the caller had in it. |

## Left out

What the theorems assume, and what of the modelled passes is not in the model:

- Irc.AllocateFunction: the main loop need not end (`WideFunctions.WideEndsIff`), so it is run for a given number of rounds; nothing is claimed about whether it ends on a function with moves and more than 27 registers, or on one without moves that has registers to spill but others than a clique.
- Irc.AllocateFunction: parameters keep their places only under `ParamsKeepPlaces`: they are distinct, not written if they are never read, at most 26, and those among the first eight that are live across a call come after those that are not; a parameter that is popped like any other register may otherwise be recoloured while its place stays (pkg/regalloc/irc.go:403-463).
- RegTransform.AllocationPreservesMeaning: the entry node must not be a branch target if parameters are moved, because the moves are put into its block and would be repeated (pkg/regalloc/transform.go:51-56; `Limits.EntryMovesAreRepeated`).
- Pipeline.CompilerPreservesMeaning: no variable may be read before it is written, because the other registers hold anything at the start; integer constants must be the numbers they show; runs that do not end, and tail calls without results, are related from RTL on only (`Pipeline.CompilationPreservesMeaning`), because the meaning of CminorSel statements is bounded by fuel.
- Loops.ClightMeans: the fuel bounds the iterations of loops; runs agree for every fuel, so that runs that do not end agree on not ending.
- GenExprs.ExprRuns: conditions inside expressions and statements negate only what `NegationIsRightIff` allows whatever the values; `CodeRuns` says what the code does otherwise. Case values of a 32-bit switch are in its range.
- LTL: a built-in clobbers no caller-saved register, and spill slots share no memory with the variables on the stack, without the passes establishing that; a slot with another type is another location, but compiled code has slots of one type only (`OutputWords.CompiledWords`).
- RTL: tail calls end a run; their arguments are not placed by the linearisation (pkg/linearize/linearize.go:438-487).
- RTL: `Elet` and its variables (the binder is translated with itself already pushed, pkg/rtlgen/expr.go:259-290), goto and labels, and the size of the stack area.
- CallMoves.ConvertCall: the convention for variadic calls on Darwin (pkg/linearize/linearize.go:257-265), and floating-point argument registers.
- RegMoves.ResolveParallelMoves: nothing is claimed for moves that need more than eight temporaries or touch them; the moves of parameters, its only use, never do.
- Linear: the offset of a symbol that is called directly is ignored.
- Values: operators are shared between the languages instead of being translated by tables; floating-point arithmetic is not interpreted.
- Parser: the grammar is that of the expressions without casts, compound literals and sizeof of a type; typedef names, casts, sizeof of a type, the text of literals, error recovery, statements and declarations; printing is at token level, so a minus before a negative number is two tokens, where the text would lex as one.
- Conditionals: conditions and what defines names are not evaluated but given.
- Macros: source locations, the text of built-in macros, and the lexer; what pasted text lexes to is given. `LeftoversAreOnCycles` is without `##`; `FirstPaste` does not say what a ## does that pasting has made.
- Loops: switch, goto and labels, and the nesting counters, which are never read; expressions are their side effects and a test.
- Loops.BlocksMeanC: the condition is sufficient only, because a continue that is never reached does no harm; `BlocksMean` says exactly what happens without it. `SharpMeans` asks that no break stands in the part where a loop continues, as in `BreakInPartGoesWrong`; generated code has none (`CodeIsOk`).
- Switch.TransformSwitch: case values are distinct and in the range of the scrutinee, as C demands; how many cases make a table is compared in whole numbers, which agrees with the source's division unless there are more than 2^52 cases.
- Layout: sizes do not overflow 64 bits; bit-fields are not in the source either.
- Frame.PlacesApart: slots do not have negative offsets.
- Mach: FP and LR are saved and restored, and the stack pointer is moved, by instructions that are recognised by their position in later passes (pkg/stacking/prolog.go:27-62) and are not part of this model; places on the stack are cells, of which a store destroys those it overlaps; after a call the arguments on the stack are lost.
- Stacking.Transform: no code is needed for parameters, which are where they arrive (pkg/regalloc/transform.go:20-22); the general case (pkg/stacking/prolog.go:176-277) is not modelled.
- Compiler.CompilerKeepsConventions: that slots fit, enough registers are saved and tail calls are not through restored registers can be checked on the Linear code; `Frame.OwnPlaceIff`, `Prolog.SavesEnoughIff` and `StackingRuns.RestoredCalleeIsLost` say what goes wrong otherwise.

Other parts of the repository: instruction selection, expression simplification, assembly generation, declarations and types in the parser, printers, include search and the command line.
