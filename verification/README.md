# A verified model of the MiniCC compiler and its editor example

MiniCC translates C to LLVM IR in one walk over the syntax tree that prints
labels, branches, stack slots and temporaries while it updates counters, a
flag, loop labels and a scoped symbol table.  This project models that walk and
its neighbours in Dafny and proves what they are for.

**The compiler.**  `Ast` is the tree of the `int` fragment, `Source` a C
semantics of it with fuel for loops and calls (ISO/IEC 9899:1999 sections 6.5
and 6.8; operands left to right), `Ir` the printed instructions with a strict
small-step machine: it faults on an unset or ill-typed temporary, on falling
into a label, on running off a block and on an unknown label.  `Codegen` says
what is printed as functions of the state, and `CodeGenerator` is the generator
itself, a class whose methods update the state step by step and are proved to
leave what those functions say.  `Relation`, `Linking`, `ExprSimulation`,
`StmtSimulation` and `Simulation` prove that the code of every expression,
statement and function does what C says; `Correctness` turns this into
equivalences in both directions.  `Definitions`, `Statements`, `Targets`,
`Blocks`, `Completion`, `Types` and `Functions` prove the static discipline:
unique definitions, well-formed blocks, exact flag, predicted types;
`Dominance`, `Availability` and `StmtAvailability` that every use of a temporary
or slot is dominated by a definition of the type it is used at, and `FlowMeaning`
what that means on the machine.  `SourceLaws` and `FragmentShape` tell the
operators of C and the fragment without their definitions.  `Programs`,
`Checker`, `Agreement` and `WholeProgram` bring in the passes over a whole
program and the semantic checker; `Acceptance` says which programs the checker
accepts; `Messages` counts what the generator reports
by a check of names on the source.  `Headers`, `References`, `FileScope` and
`Reader` say which printed modules LLVM reads.  All of it leads up to the
end-to-end theorem `ProgramCorrectness.CompilationCorrect`.  `Disagreements`
holds accepted programs that are not compiled, which is why the theorem asks for
what it asks.

**The symbol table.**  `Scopes` is the stack of maps that both the generator
and a running program use; `SymbolTable` is the linked scopes with hash buckets
that implement it; `Names`, `NameShapes` and `PrintedNames` prove that printed
names do not clash over a whole compilation.

**The rest.**  `Layout` is the struct and union layout with its mask trick,
`Width` the casts between integer widths, `Strings` the lexer's escape decoder
and the printer of string constants, `LiteralRoundTrip` what the escapes stand
for, `Editor` and `EditorRows` the text editor's row buffer as one flat text and
as parallel arrays, and `EditorKeys` what each key does to that text.

## What the code does that C or its own comments do not say

- The flag `in_return_block` survives a function that always returns, so a
  variable declared right after it is dropped without a message (src/codegen.c
  line 1786), and a later use of it is reported as undefined.
  `WholeProgram.GlobalsEmittedExactly` has the exact condition.
- A file-scope initializer that is not a literal is printed as 0 (src/codegen.c
  lines 1806 to 1822).  `WholeProgram.InitializerPrinted` has the exact condition.
- The checker puts a bare declaration in a branch into the scope around it, the
  generator into a scope of its own.  `Messages.ReportsExactly` has the exact
  number of errors that this and a dropped variable lead to.
- The checker accepts a function's name where a variable is needed.  `Checker`
  counts such uses apart from errors; `WholeProgram.NamesResolveExactly` has the
  exact condition and `Disagreements.FunctionNameMisused` the effect.
- A function with a prototype and a definition, or with two of either, is
  accepted and printed with two headers for one name, a `declare` and a `define`
  for a function that is called before its definition (src/codegen.c lines 2637
  to 2699).  LLVM refuses such a module.  add_symbol complains about the second
  one (src/symbol_table.c lines 531 to 535), and the generator goes on.
- A parameter called `t` or like a label prefix, with a number behind, can print
  as a temporary or label of its function does.
  `PrintedNames.ParametersClashExactly` has the exact condition.  LLVM refuses
  such a module too.
- `Reader.ReadsExactly` has the exact condition for a readable module, with these
  cases and the function's name used as a variable, and the theorem about whole
  programs asks for it.
- `\?` in a string is decoded to two bytes, where C has a question mark:
  `LiteralRoundTrip.OthersStay` has the exact set of escapes that stay.
- Backspaces do not take back what was typed on the editor's virtual row:
  `Editor.UndoNeedsRow` has the exact condition.
- The size of an array of pointers, structs, unions or enums is computed as one
  element (src/symbol_table.c lines 298 to 336).
- The editor's cursor can be in its window and behind the status lines, because
  scrolling uses two more lines than drawing does.  `Editor.CursorBehindBars` has
  the exact condition.

## Model

| member | source | states |
|---|---|---|
| ProgramCorrectness.CompilationCorrect | src/codegen.c:2601-2699 | for an accepted int program that declares each function once, with names that fit the buffer and no parameter named like something its function generates, LLVM reads the printed module, and the module agrees with the program on every call of every function, from the program's initial memory: one returns v exactly when the other does, one fails exactly when the other does and for the same reason, one runs forever exactly when the other does, and when both have returned v the file-scope variables agree |
| ProgramCorrectness.CompiledRunsAreDisciplined | src/codegen.c:423-1284 | on no run of a compiled program is a temporary read unset or at another type, a label fallen into, a block left by running off its end, an unknown label jumped to or an unknown slot used |
| ProgramCorrectness.CompiledUsesAreDominated | src/codegen.c:423-1284 | on every path through the flow graph of a printed function, taken by a run or not, each temporary and each slot that a line uses was set by an earlier line of the path, with the type at which the line uses it |
| ProgramCorrectness.ProgramLinks | src/codegen.c:2601-2699 | every routine of the printed module was generated from its function in a sound state, with unique labels and resolved names |
| ProgramCorrectness.MemoryBefore | src/codegen.c:1806-1831 | the printed file-scope variables hold what C says they start with |
| Correctness.ReturnsAlike | src/codegen.c:2518-2598 | a compiled function returns v exactly when its source does, recursion between generated functions included |
| Correctness.FailsAlike | src/codegen.c:2518-2598 | the machine stops at a fault exactly when the source meets the error of that kind |
| Correctness.DivergesAlike | src/codegen.c:2518-2598 | the machine runs forever exactly when the source does |
| Correctness.ResultsAgree | src/codegen.c:2518-2598 | when both are done the file-scope variables agree |
| Correctness.DisciplineHolds | src/codegen.c:423-1284 | the strict machine faults only for division, oversized shift, uninitialised read or a call outside the program |
| Correctness.Verdict | src/codegen.c:2518-2598 | what the source does within its fuel the machine does in finitely many steps, at least as many as the fuel when the source is not done |
| Simulation.SimExpr | src/codegen.c:423-1284 | running an expression's code ends with its C value in the returned literal or temporary, with the side effects of exactly the operands that C evaluates, each once and left to right |
| Simulation.SimLogical | src/codegen.c:503-583 | `&&` and `||` run the right operand only when the left one does not decide |
| Simulation.SimOperator | src/codegen.c:585-892 | arithmetic, bitwise, shift and comparison operators on promoted operands give C's value or C's error, which the laws in `SourceLaws` fix for each operator |
| Simulation.SimAssign | src/codegen.c:895-952 | assignment stores the right side's value in the innermost variable's slot and yields it |
| Simulation.SimUnary | src/codegen.c:1168-1191 | `-` and `~` give the wrapped negative and the complement |
| Simulation.SimCond | src/codegen.c:1193-1284 | `?:` runs only the chosen branch |
| Simulation.SimCall | src/codegen.c:1679-1775 | a call evaluates its arguments in order, runs the callee's routine and resumes with its value and its effects on file-scope variables |
| Simulation.SimStmt | src/codegen.c:1784-2451 | a statement's code gets to its end, to the innermost loop's end label, to its continue label or to `ret v` exactly as the statement completes, breaks, continues or returns v, with every visible variable's slot equal to its source value |
| Simulation.SimIf | src/codegen.c:2090-2148 | the same for `if`, with and without `else`, including branches that end their block |
| Simulation.SimWhile | src/codegen.c:2150-2192 | the same for `while` |
| Simulation.SimDoWhile | src/codegen.c:2267-2309 | the same for `do` |
| Simulation.SimFor | src/codegen.c:2194-2265 | the same for `for`, with missing parts |
| Simulation.SimDecl | src/codegen.c:1795-1864 | a declaration gives the variable a slot of its own, unset or with its initializer's value |
| Simulation.SimParams | src/codegen.c:2560-2577 | every parameter's slot holds its argument when the body starts |
| Simulation.SimInvoke | src/codegen.c:2518-2598 | a compiled function simulates the call of its source; falling off the end returns 0 |
| Simulation.NoStrayJumps | src/codegen.c:2360-2378 | outside a loop no statement ends by break or continue |
| ExprSimulation.UnarySim | src/codegen.c:1176-1184 | `sub 0, x` and `xor x, -1` compute -x and ~x in 32 bits |
| ExprSimulation.StepSim | src/codegen.c:1090-1166 | `++` and `--` load once, store once and yield the new or the old value |
| StmtAvailability.UsesAreDominated | src/codegen.c:2518-2598 | the same for any function of the fragment whose names resolve, in any state of the generator |
| StmtAvailability.UsesAreDefined | src/codegen.c:2518-2598 | in unreachable blocks too, an earlier line of the code sets what a line uses, with that type |
| FlowMeaning.ReadyLineRuns | src/codegen.c:423-1284 | on the machine, a line whose used temporaries, slots, parameters, callee and branch targets are there at their types fails for arithmetic or an uninitialised variable alone |
| FlowMeaning.StepSets | src/codegen.c:423-1284 | a machine step inside a function makes what its line sets and keeps everything else, with its type |
| FlowMeaning.StepFollows | src/codegen.c:423-1284 | a machine step inside a function goes where a path of the flow graph may go |
| Availability.ExprPasses | src/codegen.c:423-1284 | behind an expression's code, whichever arms of `&&`, `||` and `?:` were taken, its value is set with the predicted type and everything set before it is set |
| Dominance.PathSets | src/codegen.c:423-1284 | what one pass over the lines, meeting the branches to each label, takes to be set was set by the lines of every path |
| Dominance.UsedAreDefined | src/codegen.c:423-1284 | code that the pass accepts uses in no line, reachable or not, what no earlier line sets |
| Relation.FindMatches | src/symbol_table.c:565-579 | the slot the table names holds the value the C program sees, under shadowing |
| Relation.StoreMatches | src/codegen.c:917-948 | storing into that slot is what assignment does, and disturbs no other variable |
| Relation.DeclareMatches | src/codegen.c:1836-1838 | a new slot never overlaps a visible one |
| Relation.MatchNewGlobals | src/codegen.c:1679-1775 | a call changes file-scope variables only |
| Int32.DivisionLaw | src/codegen.c:850-855 | quotient and remainder truncate toward zero and satisfy C's law, and the quotient fits 32 bits |
| Int32.XorMinusOne | src/codegen.c:1182-1184 | exclusive-or with -1 is the complement |
| Int32.GatesAdd | src/codegen.c:856-864 | of any two patterns, or and and together are the sum, and so are exclusive-or and twice and |
| Int32.BitwiseBits | src/codegen.c:856-864 | each of the 32 bits of `&`, `|` and `^` is the and, the or and the difference of the two bits in its place |
| Int32.ShiftsInWidth | src/codegen.c:865-870 | a shift is defined if and only if it is by a number of bits whose power of two is below the modulus |
| SourceLaws.ArithmeticMeans | src/codegen.c:841-849 | `+`, `-` and `*` are right modulo 2^32 on all values |
| SourceLaws.DivisionMeans | src/codegen.c:850-855 | `/` and `%` fail for 0 and for the one quotient that does not fit, and otherwise make up the dividend with a remainder smaller than the divisor and of the dividend's sign |
| SourceLaws.ComparisonMeans | src/codegen.c:773-831 | each comparison is 1 or 0 by the order of the values |
| SourceLaws.BitwiseMeans | src/codegen.c:856-864 | the bits of `&`, `|` and `^` on all values |
| SourceLaws.BitwiseSums | src/codegen.c:856-864 | `(a | b) + (a & b)` and `(a ^ b) + 2 * (a & b)` are `a + b` on all values |
| SourceLaws.ShiftMeans | src/codegen.c:865-870 | shifts fail outside 0 to 31; `<<` multiplies by the power of two modulo 2^32 and `>>` divides by it, rounding down |
| SourceLaws.BitInstructions | src/codegen.c:856-870 | the machine's and, or, xor, shl and ashr are C's operators of those names; `SourceLaws.ArithmeticInstructions` has the others |
| SourceLaws.AndIsChoice | src/codegen.c:503-583 | `a && b` means what `a ? b != 0 : 0` means, for any operands and fuel |
| SourceLaws.OrIsChoice | src/codegen.c:503-583 | `a || b` means what `a ? 1 : b != 0` means |
| SourceLaws.StepIsAssignment | src/codegen.c:1090-1166 | `++x` and `--x` mean what `x = x + 1` and `x = x - 1` mean |
| SourceLaws.PostStepYieldsOld | src/codegen.c:1090-1166 | `x++` and `x--` do the same and yield what x was |
| SourceLaws.NegIsDifference | src/codegen.c:1176-1179 | `-a` means what `0 - a` means |
| SourceLaws.ComplementIsXor | src/codegen.c:1182-1184 | `~a` means what `a ^ -1` means |
| SourceLaws.ArgumentAt | src/codegen.c:1679-1740 | argument i has the value of expression i, evaluated behind the ones before it |
| SourceLaws.EndReturnsZero | src/codegen.c:2580-2587 | falling off the end of a function's block is `return 0;` there |
| SourceLaws.IfIsChoice | src/codegen.c:2090-2148 | `if (c) return m; else return n;` means what `return c ? m : n;` means, for literals m and n |
| SourceLaws.LoopsTest | src/codegen.c:2150-2309 | `while` tests first and `do` runs its body first |
| Int32.Wrap | src/codegen.c:841-849 | the one 32-bit value congruent to its argument |
| Functions.ControlFlowWellFormed | src/codegen.c:2518-2598 | in every generated function a label comes right after a terminator and nothing else does, the code starts without a label and ends with a terminator, and every branch names a label defined exactly once in that function |
| Functions.FunctionDefinesOnce | src/codegen.c:117-131 | every label, temporary and slot of a function is defined once, with a number handed out in that function |
| Functions.FunctionShape | src/codegen.c:2580-2587 | after a function the flag says whether control could fall off its end, and the emitted code is closed |
| Functions.FunctionRestores | src/codegen.c:2518-2598 | a function leaves the file scope with its own name added and the loop labels as they were |
| Blocks.StmtShape | src/codegen.c:1784-2451 | the flag is set after a statement exactly when control cannot complete it, and exactly then the last line is a terminator |
| Blocks.ExprStraight | src/codegen.c:423-1284 | an expression's code starts and ends in an open block |
| Blocks.ScanMeans | src/codegen.c:503-583 | the line-by-line scan accepts exactly the code whose labels follow terminators, whose terminators are followed by labels and whose last line is a terminator |
| Targets.StmtLands | src/codegen.c:2090-2378 | a statement's branches go to labels of its own code or to the innermost loop's two labels |
| Targets.ExprLands | src/codegen.c:503-583 | an expression's branches go to labels of its own code |
| Completion.NeverCompletes | src/codegen.c:1786 | a statement that sets the flag never completes normally, whatever the program does |
| Completion.SkippedIsDead | src/codegen.c:2508-2515 | the statements skipped in a block change neither the code nor the program's behaviour |
| Completion.EndlessLoopKeepsFlag | src/codegen.c:2150-2192 | the converse fails: `while (1);` never completes and leaves the flag clear |
| Definitions.ExprDefinesOnce | src/codegen.c:117-131 | an expression's labels, temporaries and result slots are each defined once, with numbers handed out in that expression |
| Statements.StmtDefinesOnce | src/codegen.c:1784-2451 | the same for statements, with the numbers of variables |
| Statements.StmtRestores | src/codegen.c:2106-2136 | scopes, depth and loop labels after a statement are those before it, but for one declared name |
| Types.PredictedType | src/symbol_table.c:742-936 | get_expression_type gives i1 exactly for comparisons and i32 for every other expression of the fragment |
| FragmentShape.FragmentExactly | src/codegen.c:423-1284 | an expression is in the fragment if and only if no part of it is a `!`, a step of no variable, a nested assignment of a literal, or a comparison that is negated, complemented, assigned, chosen or passed |
| FragmentShape.StmtFragmentExactly | src/codegen.c:1784-2451 | a statement is in the fragment, or without bare declarations, if and only if each statement in it is allowed where it stands |
| Types.ResultHasPredictedType | src/codegen.c:773-892 | the returned temporary is defined exactly once, by a line of the predicted type |
| Programs.CompilationDefinesOnce | src/codegen.c:117-131 | over a whole compilation no label, temporary or slot is defined twice |
| Programs.StateOk | src/codegen.c:2601-2699 | between declarations no scope is open and the file-scope symbols only grow |
| Reader.ReadsExactly | src/codegen.c:2601-2705 | LLVM reads the module printed for an accepted program, whose names fit the buffer, if and only if no function is declared twice, no function's name is used as a variable where code is printed, and no parameter has the name of a temporary or label that its function defines; the reader refuses two equal printed names, a slot or callee that the module has no header for, wrong types or numbers of arguments, a use that its definition does not dominate and a block that is not closed |
| Reader.SilentReadsExactly | src/codegen.c:2601-2705 | the same, with file-scope variables left out or not, for every accepted program that the generator reports nothing about: its module is read if and only if no function is declared twice, every name looked up as a variable is one and no parameter clashes |
| Reader.RoutineReadsExactly | src/codegen.c:2518-2598 | the same for each function: it is read if and only if its names resolve to variables and no parameter clashes |
| Disagreements.ParameterNameUnreadable | src/codegen.c:2544-2547 | `int f(int t1) { return t1; }` is accepted and declares each function once, and its module cannot be read |
| References.FunctionRefers | src/codegen.c:423-1284 | a function whose names are in scope refers only to variables of the module, to functions with as many parameters as it passes arguments and to its own parameters, if and only if every name it uses as a variable is one |
| FileScope.EntryFits | src/symbol_table.c:505-521 | the names printed for the module's variables are those of the generator's variable symbols, and no function's symbol has one of them, however long its name is |
| FileScope.BodyCalls | src/ast.c:1223-1260 | every function that an accepted function calls has a header with as many parameters; `Acceptance.AcceptedExactly` says which calls are accepted |
| Acceptance.AcceptedExactly | src/ast.c:1690-1698 | the checker accepts a program, in the fragment or not, if and only if every name used has a declaration in scope before it, no scope declares a name or parameter twice, and every called name is first declared as a function with as many parameters as the call has arguments |
| Acceptance.StmtExactly | src/ast.c:1569-1589 | the same for every statement at every place of a program, with the names it leaves in the scope around it |
| Headers.HeadersDistinctExactly | src/codegen.c:2637-2699 | no file-scope name has two headers if and only if no function is declared twice, by prototypes or definitions |
| Headers.PassesPrintEachOnce | src/codegen.c:2637-2699 | the two passes print one header for every declaration of a function, `declare` for a prototype and `define` for a definition |
| Disagreements.ForwardDeclarationUnreadable | src/codegen.c:2637-2699 | `int g(); int g() { }` is accepted, and its module has two headers for g and cannot be read |
| WholeProgram.GlobalsEmittedExactly | src/codegen.c:1786-1786 | every accepted variable at file scope is printed if and only if none is declared right after a function that cannot fall off its end |
| WholeProgram.FlagAtFileScope | src/codegen.c:2601-2699 | the flag left over between declarations tells whether the last function can fall off its end |
| WholeProgram.InitializerPrinted | src/codegen.c:1806-1822 | the printed initial value is C's if and only if the initializer is missing, a literal or a constant expression that comes to 0 |
| WholeProgram.NegativeInitializerLost | src/codegen.c:1806-1822 | `int x = -1;` is printed as 0 |
| WholeProgram.AcceptedCompilesSilently | src/ast.c:1690-1698 | the generator finds every name and fails to add no variable of an accepted program in which no branch is a declaration and no file-scope variable is left out |
| Messages.ReportsExactly | src/codegen.c:448-453 | for every program of fragment bodies, accepted or not, the errors the generator reports are as many as the names out of scope and the declarations repeated in the source, by C's scopes, with branches and loop bodies as blocks, without the file-scope variables that are left out, in the statements that are compiled |
| Messages.StmtReports | src/codegen.c:1784-2451 | the same for every statement, in any state whose scopes hold the same names |
| Messages.AcceptedInScope | src/ast.c:1690-1698 | a program the checker accepts, without declarations as branches and with its variables all printed, has no name out of scope by C's rules, although the checker opens fewer scopes; `Acceptance.AcceptedExactly` has both directions of acceptance |
| Messages.FunctionsAddedExactly | src/symbol_table.c:531-535 | add_symbol itself complains about a function's name, declared or defined, if and only if a function is declared twice |
| Disagreements.DroppedVariableUndefined | src/codegen.c:1786-1786 | `int f() { return 1; } int x; int g() { return x; }` is accepted, and the generator reports x as undefined |
| WholeProgram.FunctionAgrees | src/ast.c:986-1035 | an accepted function compiles without a message, and its names resolve to variables if and only if no function's name is used as one |
| WholeProgram.NamesResolveExactly | src/ast.c:1177-1191 | in an accepted program whose file-scope variables are all printed, all names the generator looks up as variables are variables if and only if the checker let no use of a function's name pass in the statements that are compiled |
| Disagreements.FunctionNameMisused | src/ast.c:1177-1191 | `int f() { return f; }` is accepted with one such use; LLVM refuses its module, and the machine faults at an unknown slot in its first step |
| Disagreements.StoredComparisonRuns | src/codegen.c:396-399 | running the cast of a comparison on its way into an int gives -1 where C has 1 |
| Agreement.StmtAgrees | src/ast.c:1569-1589 | an accepted statement compiles without a message, although the generator opens more scopes than the checker, and its names resolve exactly when no function's name is misused |
| Agreement.ExprAgrees | src/codegen.c:448-453 | an accepted expression meets no undefined name in the generator |
| Agreement.ExprResolves | src/ast.c:1177-1191 | the names of an accepted expression are variables for the generator if and only if the checker sees no function's name among them |
| Agreement.DeclAgrees | src/codegen.c:1795-1801 | an accepted declaration is never a failed add, although the checker looks at the initializer first |
| Agreement.CheckRestores | src/ast.c:1037-1047 | the checker's scopes after a statement are those before it, but for one declared name |
| WholeProgram.ParamsDistinct | src/ast.c:1020-1026 | accepted parameters have different names |
| Disagreements.VariableDropped | src/codegen.c:1786-1786 | `int f() { return 1; } int x;` is accepted and x is not printed |
| Disagreements.BareDeclarationLost | src/codegen.c:2105-2117 | a declaration as the branch of an `if` is accepted and its later use is reported as undefined by the generator; Messages.ReportsExactly counts these for all programs |
| CodeGenerators.CodeGenerator.GenerateExpression | src/codegen.c:423-1284 | the walk leaves the counters, the output and the returned int that the specification gives; SimExpr says what they mean |
| CodeGenerators.CodeGenerator.GenerateLogical | src/codegen.c:503-583 | `&&` and `||`: output, counters and result are the specification's |
| CodeGenerators.CodeGenerator.GenerateOperator | src/codegen.c:592-892 | the other binary operators: output, counters and result are the specification's |
| CodeGenerators.CodeGenerator.GenerateAssignment | src/codegen.c:895-952 | assignment: output, counters and result are the specification's |
| CodeGenerators.CodeGenerator.GenerateStep | src/codegen.c:1090-1166 | `++` and `--`: output, counters and result are the specification's |
| CodeGenerators.CodeGenerator.GenerateUnary | src/codegen.c:1168-1191 | `-` and `~`: output, counters and result are the specification's |
| CodeGenerators.CodeGenerator.GenerateConditional | src/codegen.c:1193-1284 | `?:`: output, counters and result are the specification's |
| CodeGenerators.CodeGenerator.GenerateCall | src/codegen.c:1679-1775 | calls; the argument loop is proved with its invariant: output, counters and result are the specification's |
| CodeGenerators.CodeGenerator.ConvertToBoolean | src/codegen.c:333-365 | conversion to i1: output, counters and result are the specification's |
| CodeGenerators.CodeGenerator.CastValue | src/codegen.c:367-402 | casts to int: output, counters and result are the specification's |
| CodeGenerators.CodeGenerator.GenerateLabel | src/codegen.c:122-131 | label names: output, counters and result are the specification's |
| CodeGenerators.CodeGenerator.GetNextTemp | src/codegen.c:117-120 | temporaries: output, counters and result are the specification's |
| CodeGenerators.CodeGenerator.GenerateStatement | src/codegen.c:1784-2451 | the walk leaves the output, table, flag, labels and counters that the specification gives; SimStmt says what they mean |
| CodeGenerators.CodeGenerator.GenerateDeclaration | src/codegen.c:1795-1864 | declarations: the whole new state is the specification's |
| CodeGenerators.CodeGenerator.GenerateIf | src/codegen.c:2090-2148 | `if` without `else`: the whole new state is the specification's |
| CodeGenerators.CodeGenerator.GenerateIfElse | src/codegen.c:2090-2148 | `if` with `else`: the whole new state is the specification's |
| CodeGenerators.CodeGenerator.GenerateWhile | src/codegen.c:2150-2192 | `while`: the whole new state is the specification's |
| CodeGenerators.CodeGenerator.GenerateFor | src/codegen.c:2194-2265 | `for`: the whole new state is the specification's |
| CodeGenerators.CodeGenerator.GenerateDoWhile | src/codegen.c:2267-2309 | `do`: the whole new state is the specification's |
| CodeGenerators.CodeGenerator.GenerateJump | src/codegen.c:2360-2378 | `break` and `continue`: the whole new state is the specification's |
| CodeGenerators.CodeGenerator.GenerateReturn | src/codegen.c:2411-2440 | `return`: the whole new state is the specification's |
| CodeGenerators.CodeGenerator.GenerateCompoundStatement | src/codegen.c:2508-2515 | blocks; the loop stops once the flag is set: the whole new state is the specification's |
| CodeGenerators.CodeGenerator.GenerateParameters | src/codegen.c:2560-2577 | parameters: the whole new state is the specification's |
| CodeGenerators.CodeGenerator.GenerateFunction | src/codegen.c:2518-2598 | a function's lines become one item and the state is the specification's |
| CodeGenerators.CodeGenerator.GenerateGlobal | src/codegen.c:1803-1831 | a file-scope variable is printed, or dropped when the flag is set |
| CodeGenerators.CodeGenerator.GeneratePrototypes | src/codegen.c:2637-2688 | the pass over the prototypes adds their names first |
| CodeGenerators.CodeGenerator.GenerateTops | src/codegen.c:2692-2705 | the pass over definitions and variables, in order |
| CodeGenerators.CodeGenerator.GenerateLlvmIr | src/codegen.c:2601-2705 | from a fresh state the passes print exactly the items that CompilationCorrect is about |
| SymbolTables.SymbolTable.EnterScope | src/symbol_table.c:202-207 | entering pushes an empty map; the linked scopes, their levels and their storage stay sound, for any hash function |
| SymbolTables.SymbolTable.ExitScope | src/symbol_table.c:209-221 | leaving restores the previous maps; the file scope is never left |
| SymbolTables.SymbolTable.AddSymbol | src/symbol_table.c:524-562 | adding fails exactly when the innermost scope has the name, and otherwise binds it there and nowhere else |
| SymbolTables.SymbolTable.FindSymbol | src/symbol_table.c:565-579 | following the parent links finds the innermost binding, or none when there is none |
| SymbolTables.Scope.FindSymbolInScope | src/symbol_table.c:582-595 | walking one chain decides whether the scope has the name |
| SymbolTables.SymbolTable.GenerateUniqueName | src/symbol_table.c:505-521 | the name carries the function, the level and a number not used before |
| SymbolTables.SymbolTable.SetCurrentFunction | src/symbol_table.c:659-663 | only the current function changes |
| SymbolTables.BlockRestoresView | src/symbol_table.c:202-221 | whatever is entered, left and added inside a block, leaving it restores the view before it |
| SymbolTables.OuterUntouched | src/symbol_table.c:202-221 | a run inside a scope leaves everything below that scope as it was |
| SymbolTables.LevelIsDepth | src/symbol_table.c:202-221 | after any run the level counter is the depth |
| SymbolTables.NamesStayDistinct | src/symbol_table.c:505-521 | after any run no two symbols in view share a number |
| Names.LocalsPrintDistinct | src/symbol_table.c:505-521 | two different temporaries, labels, slots or parameters never print the same, when identifiers fit the buffer and no parameter is `t` or a label prefix followed by a positive number |
| Names.GlobalsPrintDistinct | src/symbol_table.c:513-518 | two different file-scope names never print the same |
| PrintedNames.CompilationNamesDistinct | src/codegen.c:117-131 | over a whole compilation no two lines, in the same function or not, define the same printed temporary, label or slot, whatever the source's identifiers are as long as they fit the buffer |
| PrintedNames.ParametersClashExactly | src/codegen.c:2544-2547 | an incoming parameter prints as a name that its function defines if and only if it looks like a temporary or label and the function defines that very one |
| PrintedNames.FileNamesPrintDistinct | src/symbol_table.c:513-518 | the names printed at file scope, of functions and variables, are pairwise different if and only if no function is declared twice |
| NameShapes.FunctionNamed | src/codegen.c:122-131 | whatever a function's code defines is a temporary, a label with one of the generator's own prefixes or a slot named after the function and one of its parameters or variables |
| Names.ShortNameGood | src/symbol_table.c:507-518 | a name whose identifiers have at most 232 bytes together and whose numbers fit an int is not cut |
| Names.ParameterClashes | src/codegen.c:2544-2547 | an identifier prints as a generated name if and only if it is `t` or a label prefix and a positive number without leading zeros, and then as that name alone |
| Names.DecimalRoundTrip | src/codegen.c:129 | a printed number reads back as itself |
| Names.RoomIsLargest | src/symbol_table.c:507-518 | with 233 bytes of identifiers the largest numbers do not fit |
| Names.PrintedForms | src/symbol_table.c:505-521 | a local, a parameter's slot, a file-scope variable, a temporary, a result slot and a label, as they are printed |
| Names.ParameterMayClash | src/codegen.c:2544-2547 | a parameter called t1 prints as the first temporary does |
| Names.CutNamesClash | src/symbol_table.c:507-518 | two different names print the same if and only if both have 255 bytes or more and agree in the first 255 |
| Names.LongNamesMayClash | src/symbol_table.c:507-518 | two variables x of a function whose name has 256 bytes or more print the same |
| EditorKeys.EnterKey | examples/text_editor.c:512-515 | the Enter key puts a newline into the saved text at the cursor's offset and goes behind it, everywhere |
| EditorKeys.BackspaceKey | examples/text_editor.c:517-520 | the Backspace key takes the byte before the cursor and goes back by one, and does nothing at the start and at the end of the text |
| EditorKeys.CharKey | examples/text_editor.c:534-536 | a byte from 32 to 126 goes into the text at the cursor, with a newline at the end of the text; any other byte changes nothing |
| EditorKeys.DirtyExactly | examples/text_editor.c:494-537 | a key marks the document as changed if and only if it changes the rows |
| EditorKeys.UpMoves | examples/text_editor.c:461-464 | Up leaves the text and goes to the line above, counted by newlines, unless there is none, in the same column or at that line's end |
| EditorKeys.DownMoves | examples/text_editor.c:465-468 | Down goes to the line below, at last to the empty one behind the last newline, in the same column or at that line's end |
| EditorKeys.PagesMove | examples/text_editor.c:475-482 | PageUp goes to the window's first line, PageDown to its last one or behind the text, in the same column or at that line's end |
| EditorKeys.HomeMoves | examples/text_editor.c:469-470 | Home goes right behind the previous newline, or to the start of the text |
| EditorKeys.EndMoves | examples/text_editor.c:471-474 | End goes right before the next newline, and stays behind the last one |
| EditorKeys.CursorInText | examples/text_editor.c:329-357 | the cursor's row and column and the length of every row can be told from the saved text and the cursor's offset |
| Editor.InsertCharText | examples/text_editor.c:187-194 | a printable key inserts its byte at the cursor's offset in the saved text; on the virtual row it also starts a row |
| Editor.NewlineText | examples/text_editor.c:196-244 | Enter inserts a newline at the cursor's offset, everywhere |
| Editor.BackspaceText | examples/text_editor.c:246-287 | Backspace removes the byte before the cursor when the cursor is on a row and not at the start, and otherwise does nothing |
| Editor.DeleteText | examples/text_editor.c:517-521 | Del removes the byte at the cursor, except at the last newline, where it only moves |
| Editor.LeftMoves | examples/text_editor.c:445-451 | Left moves the offset back by one, clamped at 0 |
| Editor.RightMoves | examples/text_editor.c:452-458 | Right moves the offset on by one, clamped at the end of the text |
| Editor.MovesKeepText | examples/text_editor.c:438-492 | movement keys leave the rows alone and the cursor within its row |
| Editor.RunKeepsInvariant | examples/text_editor.c:706-709 | after any sequence of keys the cursor is in its row, no row holds a newline and the cursor is in the window |
| Editor.ScrollShowsCursor | examples/text_editor.c:422-436 | scrolling moves the window by the least amount that shows the cursor, and not at all when it is shown |
| Editor.CursorBehindBars | examples/text_editor.c:619-619 | after scrolling, the cursor is on one of the two lines that the bars take if and only if there are at most two lines or it was at or below the first of the two before |
| Editor.UndoRestores | examples/text_editor.c:187-287 | from a real row, n insertions of characters and newlines followed by n Backspaces restore the rows and the cursor |
| Editor.BackspaceUndoesOne | examples/text_editor.c:246-287 | one Backspace takes one insertion back exactly |
| Editor.UndoNeedsRow | examples/text_editor.c:187-287 | any insertions followed by as many Backspaces restore the rows and the cursor if and only if the cursor was on a row; from the virtual row the text ends up longer |
| Editor.SaveAfterLoad | examples/text_editor.c:289-327 | saving what was loaded gives the file back if and only if every read ended at the end of a line |
| Editor.KeypressValid | examples/text_editor.c:494-537 | every key keeps the cursor and the rows sound, after a scroll |
| EditorRows.TextEditor.AppendRow | examples/text_editor.c:117-141 | a row with its own buffer and NUL is added at the end |
| EditorRows.TextEditor.RowInsertChar | examples/text_editor.c:143-169 | the row's new buffer has the byte inserted; a bad position means the end |
| EditorRows.TextEditor.RowDelChar | examples/text_editor.c:171-185 | the byte is removed by a shift within the buffer, NUL included |
| EditorRows.TextEditor.InsertChar | examples/text_editor.c:187-194 | the new state is the value model's, with sizes, NULs and separate buffers intact |
| EditorRows.TextEditor.InsertNewline | examples/text_editor.c:196-244 | the arrays grow, rows shift down and the cut row ends in a NUL in place; the new state is the value model's |
| EditorRows.TextEditor.DelChar | examples/text_editor.c:246-287 | a byte is removed or two rows are joined and the rest shift up; the new state is the value model's |
| EditorRows.TextEditor.ScrollToCursor | examples/text_editor.c:422-436 | the offsets are the value model's |
| EditorRows.TextEditor.MoveCursor | examples/text_editor.c:438-492 | the cursor is the one that LeftMoves, RightMoves and the lemmas of EditorKeys place in the text |
| EditorRows.TextEditor.ProcessKeypress | examples/text_editor.c:494-537 | the dispatch reaches the state whose text and offset EnterKey, BackspaceKey, CharKey, DeleteText and the movement lemmas give for each key |
| EditorRows.TextEditor.EditKeys | examples/text_editor.c:704-707 | the main loop over any keys keeps separate NUL-terminated buffers and reaches the value model's state |
| EditorRows.TextEditor.Save | examples/text_editor.c:329-357 | the bytes written are the flat text and the count is their number |
| EditorRows.TextEditor.LoadChunk | examples/text_editor.c:301-323 | one read adds its complete lines and its unfinished one |
| StringLiterals.ProcessStringLiteral | src/lexer.l:89-159 | the single pass with its step-backs terminates, never writes outside its buffer and gives the bytes, and a final 0, that LiteralRoundTrip is about |
| LiteralRoundTrip.DecodeWritten | src/lexer.l:89-159 | every sequence of bytes, written as a literal with C's escape letters and two-digit hex escapes, is decoded to itself |
| LiteralRoundTrip.LetterDecodes | src/lexer.l:131-144 | each of C's escape letters stands for its byte, whatever follows |
| LiteralRoundTrip.NulDecodes | src/lexer.l:144-144 | `\0` is a NUL, and digits behind it stand for themselves |
| LiteralRoundTrip.OthersStay | src/lexer.l:145-150 | a backslash in front of any byte but the escape letters, `x` and `0` stays |
| LiteralRoundTrip.QuestionMarkStays | src/lexer.l:145-150 | `\?` is decoded to two bytes, where C has a question mark |
| LiteralRoundTrip.HexDigitMeans | src/lexer.l:107-115 | the hex digits are those of base 16 in either case, each with its own value |
| LiteralRoundTrip.HexPlaceValue | src/lexer.l:110-118 | a run of hex digits is a number by place value |
| LiteralRoundTrip.HexByteMeans | src/lexer.l:116-119 | a hex escape is the low byte of its number, and 255 when the number does not fit a long |
| LiteralRoundTrip.LiteralReachesModule | src/codegen.c:269-331 | from the source to the module: LLVM reads the bytes of a literal before its first NUL, and a final NUL |
| StringLiterals.DecodeShrinks | src/lexer.l:90-92 | a decoded literal is never longer than its source |
| StringLiterals.PlainText | src/lexer.l:153-155 | text without a backslash stands for itself, whatever follows |
| StringLiterals.HexEscapeIsGreedy | src/lexer.l:110-114 | a hex escape takes the whole run of digits that follows it, or the first 31 of a longer run, into one byte; the other digits and the text behind stand for themselves |
| StringLiterals.ScanHex | src/lexer.l:107-115 | the inner scan stops at the first byte that is no hex digit, at the closing quote or when its buffer is full |
| StringConstants.BodyRoundTrip | src/codegen.c:290-331 | reading a printed body by LLVM's rule gives the string and a final 0, which is the declared length |
| StringConstants.BodyInjective | src/codegen.c:290-331 | different strings print differently |
| StringConstants.NoRawQuote | src/codegen.c:300-330 | no quote ends the body early |
| StringConstants.PrintBody | src/codegen.c:301-329 | the loop over the bytes prints the body |
| StringConstants.StringTable.PrintAll | src/codegen.c:290-331 | one line per string, with its id, its length with the 0 and its body |
| StringConstants.StringTable.Store | src/codegen.c:269-288 | the id is the content's place among those seen, a new one when it was not seen |
| StringConstants.InterningIsExact | src/codegen.c:269-288 | two stores give the same id exactly when the contents are the same |
| StringConstants.StoresShareExactly | src/codegen.c:272-276 | two stored strings share an id exactly when their parts before the first 0 are equal |
| Layout.MaskRoundsUp | src/symbol_table.c:85-88 | the mask rounds up to a multiple for every power of two when the sum does not wrap |
| Layout.MaskNeedsPowerOfTwo | src/symbol_table.c:85-88 | over all sizes the mask rounds up if and only if the alignment is a power of two, for every alignment below 2^64 |
| Layout.OffsetsAreLeast | src/symbol_table.c:372-412 | offsets are aligned, come after every earlier member and are each the least such |
| Layout.StructSizeIsLeast | src/symbol_table.c:402-412 | the size is the least multiple of the largest alignment that covers all members |
| Layout.AddingKeepsOffsets | src/symbol_table.c:598-616 | adding a member never moves earlier ones |
| Layout.StructsNest | src/symbol_table.c:298-304 | a struct as a member: its alignment is a power of two that every member's divides, and its size is a multiple of it |
| Layout.UnionSizeIsLeast | src/symbol_table.c:414-453 | a union is the least multiple of its alignment that holds its largest member |
| Layout.StructSymbol.CalculateStructSize | src/symbol_table.c:372-412 | the pass that sets offsets as it goes leaves exactly the least layout |
| Layout.StructSymbol.CalculateUnionSize | src/symbol_table.c:414-453 | the pass leaves exactly the union layout |
| Layout.StructSymbol.AddMember | src/symbol_table.c:598-616 | the new member is laid out and no earlier offset changes |
| Layout.TypeSizeRight | src/symbol_table.c:290-340 | the computed size is C's if and only if the type is no array of pointers, structs, unions or enums, up to arrays as large as one element |
| Width.SizesHoldWidths | src/codegen.c:178-206 | the size of each basic type is the least number of bytes that hold the bits of the LLVM type it is printed as |
| Width.IntIsModulus | src/codegen.c:178-206 | an int has the 32 bits of the arithmetic, an enum as many, a pointer 64, and no basic type is larger than a pointer |
| Width.CastReduces | src/codegen.c:367-402 | a trunc or sext gives the value reduced modulo 2^n into the signed range |
| Width.WidenNarrow | src/codegen.c:367-402 | widening and narrowing again is the identity |
| Width.ChainReducesToNarrowest | src/codegen.c:907-948 | through any chain of loads, casts and stores the value is reduced to the narrowest type it went through |
| Width.StoredComparison | src/codegen.c:396-399 | a comparison stored at any wider type is -1 where C has 1, and C's value if and only if it is 0 |
| Width.UnsignedWidened | src/codegen.c:396-399 | a widened unsigned value keeps its bits if and only if its top bit is clear |

## Left out

- `switch`, `case` and `default`: printed without dispatch, and the flag is not restored.
- `goto` and labels in the source: the flag's guard runs before a label is printed.
- `!`, and a comparison that is stored, returned, passed, negated or chosen by `?:`: the generator sign-extends an i1 there; `Width.StoredComparison` shows the effect.
- Compound assignment, `sizeof`, enum constants and a nested assignment of a literal: no code, or a literal printed as a temporary.
- Character and string literals as expressions, pointers, arrays, variable-length arrays, member access, casts, floats and unsigned types in the generator.
- `char`, `short` and `long` inside arithmetic: `Width` covers their conversions only.
- Variadic functions and `void` functions.
- The case of generate_statement for an assignment outside an expression statement: the grammar wraps every assignment statement.
- The scope of a `for` body: C99 gives it one of its own, the source semantics lets it share the one of the initialization; the two agree because the body is never a bare declaration.
- Unspecified order of evaluation: operands and arguments go left to right on both sides.
- Calls of functions outside the program: an error on both sides.
- Overflow of the label, temporary and symbol counters: they are unbounded numbers here, `int` in the program.
- PrintedNames.CompilationNamesDistinct: asks for identifiers that leave room in the 256-byte buffer and for symbol numbers and depths that an int holds; `Names.LongNamesMayClash` shows why.
- Programs whose module LLVM refuses: `ProgramCorrectness.ProgramLinks` holds for each of their routines, but the module as a whole has no meaning.
- Reader.ReadsExactly: asks for identifiers that leave room in the 256-byte buffer, and, in `Reader.SilentReadsExactly`, for a program the generator reports no error about; a name that it does not find is printed as temporary -1 or not at all, depending on where it stands.
- PrintedNames.ParametersClashExactly: says which parameters clash by what the function's code defines; the numbers of labels and temporaries are not restated on the source.
- What LLVM reads besides: the text of the lines, attributes, string constants; `Reader.ReadModule` is about names, types, headers, blocks and dominance.
- SymbolTables.SymbolTable.AddSymbol: takes the parameter mark as an argument, where the generator sets it on the symbol right after adding it; chains are immutable lists inside an array of buckets, so freeing a scope is not modelled.
- EditorRows.TextEditor.AppendRow: allocates new arrays where the program calls realloc, which may reuse the old ones.
- Layout.StructSymbol.CalculateStructSize: asks that no sum on the way exceeds 2^64.
- StringLiterals.ProcessStringLiteral: asks for the two quotes around the text; prefixed literals are not modelled.
- Octal escapes: the decoder knows `\0` only, and the model follows it.
- The types in the symbols, the other symbol kinds and the type conversions of the checker: every variable is an `int`.
- The bison grammar, its flattening of blocks (src/parser.y lines 990 to 1036), the lexer's other rules, the AST constructors and printers, src/main.c and the Makefile.
- The editor's terminal input and output, key decoding, drawing and status lines; opening and closing files.
- Allocation failures and freeing of memory.
