# A verified model of seriald's macro language, capture boundary, session ownership and setup draft

This project models, in Dafny, the parts of the repository whose behaviour is decided by logic rather
than by I/O, and proves what they are for.

**Macro Script v1** (`crates/serial-macro`). The lexer and the precedence-climbing parser, the one-pass
type-checking compiler that patches its jumps, and the stack machine that suspends at effects. Each of
the four is there twice: as functions (`MacroLexer`, `MacroParser`, `MacroCompile`, `MacroMachine` and
`MacroVm`) and as the object with fields that its methods update (`MacroLexerObject`,
`MacroParserObject`, `MacroCompiler`, `MacroVmObject`), whose methods are proved equal to the functions.
Against them stands an independent big-step semantics of the syntax tree (`MacroSemantics`), which
charges instructions, issues effects and consumes the driver's answers and the marks and stops that
arrive between instructions. The theorems: compilation
preserves meaning (`MacroPreservation`, `MacroStatements`, `MacroPrograms`), compiled programs are type
sound, assign before they use, never overflow the operand stack and have it empty between statements
(`MacroSoundness`, `MacroFits`, `MacroHeights`, `MacroBoundaries`), what
every operator, call and effect does is said in integers and texts, without the definitions tree and
machine share (`MacroOperators`, `MacroPrimitives`, `Utf8`), the accepted programs are exactly those of
typing rules of their own (`MacroTyping`), CPU slicing cannot be
observed (`MacroVm`), the effect protocol holds over every run (`MacroProtocol`), watchers are numbered by
creation (`MacroWatchers`), any calls of the API amount to one run (`MacroRequests`), strings stay within
their limit and static text checks agree with execution (`MacroStrings`), lexer and parser accept
exactly what a lexical grammar (`MacroLexical`) and a grammar (`MacroGrammar`, `MacroPhrases`,
`MacroSentences`, `MacroSpelled`) write and return what it stands for (`MacroParsed`, `MacroFrontEnd`),
parsing undoes printing down to source text (`MacroRoundTrip`, `MacroRender`), and all of it together
from source text to the last effect (`MacroEndToEnd`, and on the objects `MacroRunner`).

**Command capture** (`crates/serial-mcp/src/capture.rs`). The banded edit-distance test against edit
scripts (`EditDistance`), echo matching with terminal hard wraps as the search for a unique reading
(`EchoMatch`), the view of output whose echo is incomplete (`EchoFallback`), and the tracker that
withholds, trims or releases events without losing or inventing a byte (`BoundaryTracker`).

**Run ownership** (`crates/serial-mcp/src/session.rs`). The session actor's leases, owned Runs, pins and
renewals against an arbitrary script of network and daemon answers (`SessionOwnership`).

**Setup and rendering** (`crates/serial-setup/src/lib.rs`, `crates/serial-mcp/src/render.rs`). Saving one
port into a configuration draft (`SetupDraft`) and collapsing repeated lines (`RenderCollapse`).

How the original's terms appear: a string is a sequence of Unicode scalar values with a UTF-8 length, a
byte sequence is a sequence of numbers below 256, identities and instants are naturals, an error is its
code, and `IndexPanic` stands for an index panic of the original, so that the absence of panics is a
theorem. Daemon replies, network failures, clocks, random handles and caller disconnects are parameters
that may take any value. `dafny verify dfyconfig.toml` checks everything.

## Model

| member | source | states |
|---|---|---|
| `MacroEndToEnd.ScriptRuns` | crates/serial-macro/src/vm.rs:143-360 | every source text that parses and compiles, started with arguments the VM accepts, through any calls of the API in any order with any CPU slice (marks and interrupts between slices included): what it has done is what its syntax tree means under some answers and deliveries, with the same effects in order, the same failure, the same waiting or the same end, and it fails only with a budget, value or driver code |
| `MacroEndToEnd.ClosedRun` | crates/serial-macro/src/compiler.rs:515-575 | for any answers and deliveries, the compiled machine and the syntax tree of the same source end in the same result, and no accepted source breaks an invariant of the machine |
| `MacroEndToEnd.ScriptServed` | crates/serial-macro/src/vm.rs:143-251 | driven by answers alone, with any CPU slice, the API gives exactly the meaning of the tree |
| `MacroRequests.RequestsTraced` | crates/serial-macro/src/vm.rs:143-360 | any sequence of API calls amounts to one uninterrupted run with marks and stops delivered before certain instructions: nothing a driver can do between slices is outside what is proved of such runs |
| `MacroEndToEnd.ScriptStringsStayShort` | crates/serial-macro/src/lib.rs:189-205 | on such a machine, after any sequence of API calls, every string is within `max_string_bytes` and no command is refused for its length |
| `MacroEndToEnd.ScriptStackEmpty` | crates/serial-macro/src/vm.rs:157-251 | whenever such a machine, under any calls, is about to begin a statement or is at its end, its operand stack is empty |
| `MacroEndToEnd.SourceIsWellFormed` | crates/serial-macro/src/syntax.rs:744-771 | whatever the source, an accepted tree has braced bodies, simple `for` clauses, bounded height and short literals: the shape every theorem below asks for |
| `MacroEndToEnd.BudgetOnlyStops` | crates/serial-macro/src/vm.rs:157-176 | the instruction budget is only a reason to stop: a run it does not end is the same run under any larger budget |
| `MacroRunner.RunScript` | crates/serial-macro/src/compiler.rs:515-575 | the four objects together, under any calls: a script is refused with the first of the checks it does not pass, and exactly when it does not pass one; otherwise its effects so far, its failure and its waiting are those its syntax tree means |
| `MacroRunner.HandleEach` | crates/serial-macro/src/vm.rs:143-360 | any sequence of calls on the object is the same sequence on the functions |
| `MacroRunner.CompileSource` | crates/serial-macro/src/compiler.rs:515-575 | limits and parameter names first, then syntax, then types; the first fault is reported; and a program comes out exactly when the limits and names are admissible and the source is written by the grammars for a well typed program within the variable limit |
| `MacroFrontEnd.CompiledIs` | crates/serial-macro/src/compiler.rs:515-575 | the same without the object, in both directions: acceptance of a source is said by the lexical grammar, the grammar and the typing rules alone |
| `MacroFrontEnd.SourceIsExpressed` | crates/serial-macro/src/syntax.rs:744-771 | lexer and parser together accept exactly the sources the two grammars write, each as its one program |
| `MacroRunner.Drive` | crates/serial-macro/src/vm.rs:143-155 | a driver that advances, marks and acknowledges on the object sees the effects and the outcome of the closed run |
| `MacroPrograms.ProgramPreserved` | crates/serial-macro/src/compiler.rs:515-575 | the compiled program, under any answers and any marks and stops between instructions, equals a big-step evaluation of the tree: same effects in the same order, same counters, same leftover answers, same outcome, even when the budget runs out |
| `MacroPrograms.StatementPreserved` | crates/serial-macro/src/compiler.rs:112-246 | each statement lands where its signal says (next address, break target, continue target) with the operand stack empty and the slots agreeing with the scopes |
| `MacroPrograms.AllPreserved` | crates/serial-macro/src/compiler.rs:106-111 | the same for statement lists, whose scopes grow as they go |
| `MacroPrograms.BlockPreserved` | crates/serial-macro/src/compiler.rs:160-164 | a block leaves the outer scopes agreeing, on every way out |
| `MacroPrograms.IfPreserved` | crates/serial-macro/src/compiler.rs:165-178 | both branches join behind the `if`, with and without an alternative |
| `MacroPrograms.WhilePreserved` | crates/serial-macro/src/compiler.rs:179-190 | `while` with `break` and `continue` at any nesting |
| `MacroPrograms.ForPreserved` | crates/serial-macro/src/compiler.rs:191-224 | `for` with each clause present or missing; `continue` goes to the step, `break` behind the loop |
| `MacroPrograms.IteratePreserved` | crates/serial-macro/src/compiler.rs:179-224 | one turn of a loop, by induction on the remaining instruction budget |
| `MacroPrograms.NoEscapeAll` | crates/serial-macro/src/compiler.rs:225-241 | no accepted program ends a statement list outside a loop with a break or a continue |
| `MacroPreservation.ExpressionPreserved` | crates/serial-macro/src/compiler.rs:256-346 | an expression leaves exactly its value on top of whatever was on the stack, or stops the run as the tree does |
| `MacroPreservation.ShortCircuitPreserved` | crates/serial-macro/src/compiler.rs:302-311 | the short-circuit operators skip their right operand exactly when the tree does |
| `MacroPreservation.TwoArgumentsPreserved` | crates/serial-macro/src/compiler.rs:348-481 | `wait` and `expect` evaluate watcher, then duration, and issue one effect |
| `MacroPreservation.NeedWithinDepth` | crates/serial-macro/src/vm.rs:239-248 | evaluating a tree of height d needs at most d operand slots |
| `MacroPreservation.EffectStep` | crates/serial-macro/src/vm.rs:233-237 | an effect instruction suspends once and resumes with the acknowledged value or none |
| `MacroCompiler.CompileTree` | crates/serial-macro/src/compiler.rs:515-575 | the one-pass compiler with patched jumps returns the verdict that `MacroTyping.AcceptsWellTyped` characterises by the typing rules, and the code of the layout whose jumps are right from the start |
| `MacroTyping.AcceptsWellTyped` | crates/serial-macro/src/compiler.rs:106-246 | the compiler accepts exactly the programs that typing rules of their own admit (operator signatures, calls, scopes, loop context, static text checks) and that declare no more variables than allowed; the number of slots is the number of declarations |
| `MacroTyping.TypedIsTypeOf` | crates/serial-macro/src/compiler.rs:256-346 | an expression is given a type exactly when the rules give it one, and that one |
| `MacroTyping.SignatureIsVerdict` | crates/serial-macro/src/compiler.rs:302-344 | each operator takes exactly the operand types of its signature, equality any two scalars of one type |
| `MacroTyping.StaticChecks` | crates/serial-macro/src/compiler.rs:448-513 | the texts known at compile time are checked exactly as said: length, control characters, emptiness |
| `MacroTyping.StatementAgrees` | crates/serial-macro/src/compiler.rs:112-246 | a statement is accepted exactly when the rules admit it, and leaves the scopes they say |
| `MacroCompiler.Compiler.CompileStatement` | crates/serial-macro/src/compiler.rs:112-246 | emitting, patching and scope keeping produce the laid-out code, record exactly the open breaks and continues, and collect the prompts |
| `MacroCompiler.Compiler.CompileExpression` | crates/serial-macro/src/compiler.rs:256-346 | same errors in the same order as the type checker, same code |
| `MacroCompiler.Compiler.CompileLet` | crates/serial-macro/src/compiler.rs:115-148 | fresh slot per declaration; a redeclared name in the same scope is refused |
| `MacroCompiler.Compiler.CompileBlock` | crates/serial-macro/src/compiler.rs:160-164 | the scope that is pushed is popped |
| `MacroCompiler.Compiler.CompileIf` | crates/serial-macro/src/compiler.rs:165-178 | both forward jumps are patched to their targets |
| `MacroCompiler.Compiler.CompileWhile` | crates/serial-macro/src/compiler.rs:179-190 | the loop's own breaks and continues are patched, the enclosing ones left alone |
| `MacroCompiler.Compiler.CompileFor` | crates/serial-macro/src/compiler.rs:191-224 | the same with init, bound and step in place |
| `MacroCompiler.Compiler.FinishLoop` | crates/serial-macro/src/compiler.rs:247-255 | all breaks of the innermost loop, and no other jump, go to its end, and all continues to the given address |
| `MacroCompiler.Compiler.PatchAll` | crates/serial-macro/src/compiler.rs:79-86 | patching a list of positions changes those jumps and nothing else |
| `MacroCompiler.Compiler.CompileCall` | crates/serial-macro/src/compiler.rs:348-481 | arity, argument types and static text checks as the type function has them |
| `MacroCompiler.GenResolves` | crates/serial-macro/src/compiler.rs:79-86 | code laid out with known targets is the code laid out without them whose recorded jumps are then patched |
| `MacroCompiler.PatchedIsResolve` | crates/serial-macro/src/compiler.rs:79-86 | patching one jump after another is resolving all of them at once |
| `MacroCompiler.LoopFinished` | crates/serial-macro/src/compiler.rs:247-255 | finishing a loop resolves every jump it recorded |
| `MacroCompiler.RecordedLoops` | crates/serial-macro/src/compiler.rs:225-241 | a statement leaves the outer loop records unchanged and extends the innermost one, by addresses within its own code only |
| `MacroFits.CompiledCodeFits` | crates/serial-macro/src/compiler.rs:79-94 | every branch target is at most the code length, every slot below the variable count, every argument and prompt declared, every literal short |
| `MacroFits.StatementFits` | crates/serial-macro/src/compiler.rs:112-246 | the same for a statement in place, with the exits it was given |
| `MacroSoundness.ProgramSound` | crates/serial-macro/src/vm.rs:157-251 | under any answers, marks and stops between instructions, no run of a compiled program fails with `vm_invariant`, `unknown_watcher` or `stack_limit`, reads an unassigned variable, or indexes a missing argument, prompt or slot |
| `MacroSoundness.MeaningSound` | crates/serial-macro/src/compiler.rs:95-105 | the tree evaluation of an accepted program has only budget, value and driver failures |
| `MacroSoundness.ExpressionSound` | crates/serial-macro/src/compiler.rs:256-346 | an expression evaluates to a value of its static type whose watcher exists |
| `MacroSoundness.StatementSound` | crates/serial-macro/src/compiler.rs:112-246 | after a statement every declared variable has a value of its type, also after `break` and `continue` |
| `MacroSoundness.IterateSound` | crates/serial-macro/src/compiler.rs:179-224 | the typing of outer variables survives every turn of a loop |
| `MacroSoundness.IssueSound` | crates/serial-macro/src/vm.rs:369-423 | operands of the right type are never refused for their type |
| `MacroStatements.StoreAssigns` | crates/serial-macro/src/compiler.rs:149-154 | distinct slots for distinct declarations: a store changes one variable of one scope |
| `MacroStatements.CheckExtends` | crates/serial-macro/src/compiler.rs:112-246 | checking a statement only adds declarations to the innermost scope |
| `MacroBoundaries.StackEmptyAtStatements` | crates/serial-macro/src/vm.rs:157-251 | in every state any calls reach, an unfailed machine has exactly the operands its address calls for, the value a pending effect will give included, and none where a statement begins or the program ends |
| `MacroHeights.StatementFlows` | crates/serial-macro/src/compiler.rs:112-246 | a statement's code finds its operands at every instruction, arrives at one stack height whichever way it gets to an address, and starts and ends at height zero |
| `MacroHeights.ExpressionFlows` | crates/serial-macro/src/compiler.rs:256-346 | the same for the code of an expression on any number of operands |
| `MacroHeights.LoopFlows` | crates/serial-macro/src/compiler.rs:179-224 | the jumps of a loop, `break` and `continue` included, arrive at height zero |
| `MacroVm.SlicingTransparent` | crates/serial-macro/src/vm.rs:143-176 | for any positive slice, advancing until it stops yielding gives the same step and the same machine, after at most budget/slice yields |
| `MacroVm.SlicingIndependent` | crates/serial-macro/src/vm.rs:143-176 | two slice sizes are indistinguishable to the caller |
| `MacroVm.ServeIsRun` | crates/serial-macro/src/vm.rs:143-155 | driving the VM through `advance`, `mark_matched` and `resume` is one closed run |
| `MacroVmObject.Vm.Advance` | crates/serial-macro/src/vm.rs:143-155 | the object's call is the transition, pending effects and failures included |
| `MacroVmObject.Vm.AdvanceInner` | crates/serial-macro/src/vm.rs:157-251 | the bounded loop executes a slice of transitions |
| `MacroVmObject.Vm.Execute` | crates/serial-macro/src/vm.rs:177-238 | the in-place stack, slots and program counter change as the instruction says, whose results `MacroOperators` gives in integers and strings; when it fails, exactly the operands it had popped by then are gone from the stack, and slots and program counter are as they were |
| `MacroVmObject.Vm.Call` | crates/serial-macro/src/vm.rs:369-423 | popped operands, counters and the issued effect, or the first error |
| `MacroVmObject.Vm.ResumeInner` | crates/serial-macro/src/vm.rs:265-314 | the acknowledged effect must be the pending one and of the right kind; a strict wait answered false fails after marking nothing |
| `MacroVmObject.Vm.Resume` | crates/serial-macro/src/vm.rs:255-264 | a failed acknowledgement is remembered as the failure |
| `MacroVmObject.Vm.FailEffect` | crates/serial-macro/src/vm.rs:316-336 | the first failure wins |
| `MacroVmObject.Vm.Interrupt` | crates/serial-macro/src/vm.rs:337-347 | the first failure wins |
| `MacroVmObject.Vm.MarkMatched` | crates/serial-macro/src/vm.rs:348-360 | only an existing flag of a live machine changes, and only to true |
| `MacroVmObject.Start` | crates/serial-macro/src/vm.rs:37-120 | a machine exists exactly when every declared parameter has a short argument of its type, no other argument is given and every referenced prompt is there, non-empty and short; otherwise the first fault in key order is reported |
| `MacroVmObject.StartFailsOneWay` | crates/serial-macro/src/vm.rs:38-102 | which code that is, is determined by the program, the arguments and the prompts |
| `MacroOperators.ArithmeticIsExact` | crates/serial-macro/src/vm.rs:523-549 | on the machine `+`, `-` and `*` give exactly the sum, difference and product, or the overflow exactly when that is no 64-bit integer |
| `MacroOperators.ComparisonsCompare` | crates/serial-macro/src/vm.rs:535-544 | `<`, `<=`, `>` and `>=` give the comparison of the integers, each its own at equality |
| `MacroOperators.DivisionTruncates` | crates/serial-macro/src/vm.rs:528-535 | `/` and `%` give the one pair of quotient and remainder that truncates toward zero, fail for zero and for the one overflow |
| `MacroOperators.EqualityIsIdentity` | crates/serial-macro/src/vm.rs:511-512 | `==` and `!=` give identity and its negation on strings, integers and booleans |
| `MacroOperators.ConcatenationJoins` | crates/serial-macro/src/vm.rs:513-522 | `+` on strings gives the joined text, or fails exactly when its UTF-8 length is over the limit |
| `MacroOperators.NegationIsExact` | crates/serial-macro/src/vm.rs:497-504 | unary minus is exact and fails for the least integer only |
| `MacroOperators.NotNegates` | crates/serial-macro/src/vm.rs:493-496 | `!` gives the other boolean |
| `MacroOperators.MixedOperandsFault` | crates/serial-macro/src/vm.rs:507-552 | every other pair of operand types is refused |
| `MacroOperators.TextOfInteger` | crates/serial-macro/src/vm.rs:203-210 | `str` gives the one decimal numeral of the integer, or fails exactly on length |
| `MacroOperators.NumeralExists` | crates/serial-macro/src/vm.rs:203-210 | every integer has such a numeral |
| `MacroOperators.InputsAreGiven` | crates/serial-macro/src/vm.rs:182-188 | the machine pushes the argument and the prompt of that name |
| `MacroOperators.FlagIsRead` | crates/serial-macro/src/vm.rs:198-202 | the machine replaces a watcher by its flag, and refuses one that does not exist |
| `MacroOperators.TextInTree` | crates/serial-macro/src/compiler.rs:348-361 | `str(e)` in the tree is the numeral of what `e` gives |
| `MacroOperators.OperatorInTree` | crates/serial-macro/src/compiler.rs:292-344 | the meaning of an operator in the tree is what the machine gives for it, operands left to right |
| `MacroOperators.InnermostIsRead` | crates/serial-macro/src/compiler.rs:87-94 | a name reads the innermost declaration |
| `MacroOperators.InputsInTree` | crates/serial-macro/src/compiler.rs:268-404 | `args.x` and `prompt("p")` are the argument and the prompt of that name |
| `MacroOperators.FlagInTree` | crates/serial-macro/src/vm.rs:198-202 | `.matched` reads the flag of the watcher its operand is |
| `MacroOperators.CommandsSend` | crates/serial-macro/src/compiler.rs:362-452 | `cmd(t)` issues the command with its echo verified and `cmd(t, "send_only")` without; or nothing is issued and the run fails with the first reason there is: length, a control character, the byte budget, the IDs |
| `MacroOperators.WatchCreates` | crates/serial-macro/src/compiler.rs:407-462 | `watch` creates the next watcher for its pattern, or fails for an empty pattern, the number of watchers or the IDs |
| `MacroOperators.DelayDelays` | crates/serial-macro/src/compiler.rs:422-477 | `delay` issues a delay of exactly that many milliseconds, or fails for the limit or the IDs |
| `MacroOperators.WaitsWait` | crates/serial-macro/src/compiler.rs:412-421 | `wait` issues an ordinary and `expect` a strict wait for the watcher of the first operand and the duration of the second, or both fail for the limit or the IDs |
| `Utf8.LengthOfEncoding` | crates/serial-macro/src/lib.rs:189-195 | the length every limit counts is that of the UTF-8 encoding |
| `Utf8.EncodingIsUnique` | crates/serial-macro/src/lib.rs:189-195 | different texts have different encodings |
| `SortedKeys.First` | crates/serial-macro/src/vm.rs:42-79 | the key a sorted map is iterated from |
| `SortedKeys.BeforeIsDictionary` | crates/serial-macro/src/vm.rs:42-79 | the order is that of a dictionary: a key comes before those it begins, and otherwise the first difference decides |
| `MacroProtocol.EffectProtocolHolds` | crates/serial-macro/src/vm.rs:143-155 | after any sequence of API calls: IDs are 1, 2, 3, ..., the pending effect is the last issued, effects <= instructions <= budget, command bytes equal the running total and are within budget |
| `MacroProtocol.EffectIdsSuffice` | crates/serial-macro/src/vm.rs:412-423 | under a budget below the ID space the IDs never run out and the byte total is exact |
| `MacroProtocol.CountedButNotIssued` | crates/serial-macro/src/vm.rs:369-423 | an admissible command is counted but not issued exactly when the ID space is exhausted |
| `MacroProtocol.FailureIsFinal` | crates/serial-macro/src/vm.rs:316-347 | after any failure no call changes the machine or issues an effect |
| `MacroProtocol.StrictTimeoutFails` | crates/serial-macro/src/vm.rs:265-314 | a strict wait answered false ends the issuing of effects |
| `MacroProtocol.PendingIsRepeated` | crates/serial-macro/src/vm.rs:143-155 | until it is acknowledged the pending effect is re-reported unchanged and no other is issued |
| `MacroProtocol.WatchersMonotone` | crates/serial-macro/src/vm.rs:348-360 | flags only go from false to true and watchers are never removed |
| `MacroPrimitives.TruncatedDivision` | crates/serial-macro/src/vm.rs:528-535 | division truncates toward zero: quotient and remainder give back the dividend, the remainder has its sign and is smaller than the divisor |
| `MacroPrimitives.DivisionFailsExactly` | crates/serial-macro/src/vm.rs:528-549 | `/` and `%` fail for a zero divisor and for the one quotient out of range, and for nothing else |
| `MacroPrimitives.DecimalReads` | crates/serial-macro/src/vm.rs:203-210 | `str` of every 64-bit integer can be read back |
| `MacroPrimitives.AcceptedExactly` | crates/serial-macro/src/vm.rs:265-314 | a reply is accepted exactly when it is a result of the pending effect, of its kind, and not a strict wait's false |
| `MacroPrimitives.AcceptedGives` | crates/serial-macro/src/vm.rs:265-314 | what each accepted reply pushes, and the one flag it may set |
| `MacroPrimitives.CommandIssuedExactly` | crates/serial-macro/src/vm.rs:369-398 | a command is issued exactly when its text is admissible, the byte budget has room and an ID is left |
| `MacroWatchers.WatchersAreNumbered` | crates/serial-macro/src/vm.rs:233-423 | over every sequence of calls, whatever the code: the n-th watch is watcher n, a wait never names a watcher that was not created before it, there are as many flags as issued watches unless IDs ran out, and no run fails for an unknown watcher |
| `MacroWatchers.HandleAllWatched` | crates/serial-macro/src/vm.rs:143-360 | the same from any orderly state: watcher values on the stack, in variables and in the pending effect stay those of issued watches |
| `MacroWatchers.OpWatched` | crates/serial-macro/src/vm.rs:157-232 | no instruction makes up a watcher |
| `MacroWatchers.FlagsSayWhatHappened` | crates/serial-macro/src/vm.rs:265-360 | over every sequence of calls a flag is set exactly when its watcher was marked, or a wait for it answered true, while the machine was live and knew it |
| `MacroStrings.StringsStayShort` | crates/serial-macro/src/vm.rs:507-522 | in every state the API can reach, each string on the stack or in a variable is within the limit |
| `MacroStrings.ConstantStringAgrees` | crates/serial-macro/src/compiler.rs:490-513 | a text the compiler computed is the text evaluation yields, and an overflow it reports is one evaluation cannot get past |
| `MacroStrings.ConstantCommandIssues` | crates/serial-macro/src/compiler.rs:448-462 | an accepted constant command is never refused for its text at run time |
| `MacroStrings.ConstantPatternWatches` | crates/serial-macro/src/compiler.rs:373-375 | an accepted constant pattern is never refused as empty |
| `MacroStrings.CompiledInputsSmall` | crates/serial-macro/src/syntax.rs:149-240 | literals, arguments and prompts of a compiled program start within the limit |
| `MacroSpelled.ParserReadsGrammar` | crates/serial-macro/src/syntax.rs:473-771 | the parser accepts exactly the token lists the grammar writes (redundant parentheses, short assignments, missing clauses and `else` chains included, semicolons and braces where they must be) within the nesting and height limits, and returns the tree that is written |
| `MacroSpelled.GrammarIsUnambiguous` | crates/serial-macro/src/syntax.rs:493-740 | no token list stands for two programs |
| `MacroSpelled.StatementSpelled` | crates/serial-macro/src/syntax.rs:493-561 | whatever tokens a statement was read from spell it, from the first to the last |
| `MacroSpelled.ExpressionSpelled` | crates/serial-macro/src/syntax.rs:622-640 | the same for an expression, which ends where no operator of its precedence follows |
| `MacroSentences.GrammarRead` | crates/serial-macro/src/syntax.rs:473-482 | whatever is written by the grammar is read as what it stands for |
| `MacroRoundTrip.RoundTrip` | crates/serial-macro/src/syntax.rs:493-701 | parse undoes print: every program within the limits, printed with only the parentheses its precedences need, parses to itself |
| `MacroRoundTrip.CompoundRead` | crates/serial-macro/src/syntax.rs:562-620 | `x op= e` parses as `x = x op (e)` with all of `e` as one operand |
| `MacroRoundTrip.BumpRead` | crates/serial-macro/src/syntax.rs:578-595 | `x++` and `x--` add and subtract one |
| `MacroSentences.SentenceRead` | crates/serial-macro/src/syntax.rs:493-561 | each sentence is read back, with nothing that follows taken into it but an `else` behind an open `if` |
| `MacroSentences.SimpleRead` | crates/serial-macro/src/syntax.rs:562-620 | an expression statement is never taken for an assignment |
| `MacroPhrases.OperandRead` | crates/serial-macro/src/syntax.rs:622-640 | an operand is read whole: the parser goes on behind it with its tree in hand |
| `MacroPhrases.BinaryRead` | crates/serial-macro/src/syntax.rs:622-640 | binary operators associate to the left and bind by their levels |
| `MacroPhrases.UnaryRead` | crates/serial-macro/src/syntax.rs:666-673 | a unary operator binds tighter than every binary one |
| `MacroPhrases.CallRead` | crates/serial-macro/src/syntax.rs:649-665 | calls with any number of arguments |
| `MacroPhrases.ParenthesesRead` | crates/serial-macro/src/syntax.rs:674-678 | parentheses, needed or not, leave the tree inside |
| `MacroRender.SourceRoundTrip` | crates/serial-macro/src/syntax.rs:744-771 | a program written as source text, strings escaped, is read as itself |
| `MacroRender.LexerReadsRendered` | crates/serial-macro/src/syntax.rs:242-375 | lexing undoes writing tokens, for names, signless integers, strings and every symbol |
| `MacroRender.EscapedRead` | crates/serial-macro/src/syntax.rs:149-240 | every text, control characters included, survives escaping and reading |
| `MacroRender.LexedTokensAreShort` | crates/serial-macro/src/syntax.rs:232-238 | no string token exceeds the limit, whatever the source |
| `MacroLexical.LexerReadsWritten` | crates/serial-macro/src/syntax.rs:149-375 | the lexer accepts exactly the sources that a lexical grammar of its own writes (gaps, comments, names, numbers, every escape form, longest symbols), with exactly the tokens they spell |
| `MacroLexical.CommentInFront` | crates/serial-macro/src/syntax.rs:249-254 | a comment ends at its line feed: for every comment text and every rest, the tokens or the error are those of the rest |
| `MacroLexical.GapInFront` | crates/serial-macro/src/syntax.rs:244-255 | blanks and comments in front of a source change neither its tokens nor its error |
| `MacroLexical.EscapeRecognised` | crates/serial-macro/src/syntax.rs:161-223 | each escape form, `\n`, `\r`, `\t`, `\0`, four hexadecimal digits or one to six in braces included, reads as the character it names |
| `MacroLexical.StringRecognised` | crates/serial-macro/src/syntax.rs:149-240 | a quoted text reads as its characters and escapes in turn |
| `MacroParsed.ParsedProgram` | crates/serial-macro/src/syntax.rs:493-561 | whatever the tokens, an accepted program is well formed and its literals are short |
| `MacroParsed.ParsedSimple` | crates/serial-macro/src/syntax.rs:596-607 | a simple statement is at most one level higher than the limit |
| `MacroParser.ParseExpression` | crates/serial-macro/src/syntax.rs:622-640 | total on all token lists: success strictly advances the index and the tree is within the height limit |
| `MacroParser.ParseStatements` | crates/serial-macro/src/syntax.rs:473-482 | total on all token lists; a block consumes its brace |
| `MacroParser.ParseStatement` | crates/serial-macro/src/syntax.rs:493-561 | success strictly advances; only a brace begins a block |
| `MacroParserObject.Parser.ReadExpression` | crates/serial-macro/src/syntax.rs:622-640 | the loop with the mutable index builds the same tree, leaves the index behind it and restores the depth, which never exceeds the limit on the way |
| `MacroParserObject.Parser.ReadStatement` | crates/serial-macro/src/syntax.rs:493-561 | the same for statements |
| `MacroParserObject.Parser.ReadStatements` | crates/serial-macro/src/syntax.rs:473-482 | the same for the statement vector |
| `MacroParserObject.Parser.ReadPrimary` | crates/serial-macro/src/syntax.rs:641-701 | field accesses are wrapped one by one, each checked for height |
| `MacroParserObject.Parser.ReadSimple` | crates/serial-macro/src/syntax.rs:562-620 | the lookahead for an assignment consumes nothing when there is none |
| `MacroParserObject.Parser.ReadFor` | crates/serial-macro/src/syntax.rs:518-538 | missing clauses are recognised by the token behind them |
| `MacroParserObject.Parser.ReadIf` | crates/serial-macro/src/syntax.rs:500-517 | `else if` chains through a statement, `else` through a block |
| `MacroParserObject.CheckExpressionDepth` | crates/serial-macro/src/syntax.rs:388-415 | the work-list traversal accepts exactly the trees whose height is within the limit |
| `MacroParserObject.Parse` | crates/serial-macro/src/syntax.rs:758-771 | the object's verdict and tree |
| `MacroLexer.TokensFrom` | crates/serial-macro/src/syntax.rs:242-375 | a lexed source ends with the end token, no other token is one, and there is at most a token for each character besides |
| `MacroLexer.StringFrom` | crates/serial-macro/src/syntax.rs:149-240 | a string literal is closed by a quote, is within the limit and is no longer than what was written |
| `MacroLexerObject.Lexer.ReadString` | crates/serial-macro/src/syntax.rs:149-240 | the loop with the mutable offset reads the same text or reports the same first error |
| `MacroLexerObject.Lexer.ReadUnicode` | crates/serial-macro/src/syntax.rs:175-215 | one to six digits in braces, or exactly four |
| `MacroLexerObject.Lexer.ReadTokens` | crates/serial-macro/src/syntax.rs:242-375 | the token vector or the first error, the function `MacroLexical.LexerReadsWritten` characterises |
| `MacroLexerObject.ParseText` | crates/serial-macro/src/syntax.rs:744-771 | size check, tokens, statements: the function `MacroFrontEnd.SourceIsExpressed` characterises by the grammars |
| `EditDistance.EditDistanceWithin` | crates/serial-mcp/src/capture.rs:986-1030 | with two reused rows of which only the band and its edges are written, the answer is true exactly when some edit script of at most `max_edits` edits turns one side into the other |
| `EditDistance.NextRow` | crates/serial-mcp/src/capture.rs:1003-1028 | row invariant: on the band widened by one, a cell and the true distance agree up to max_edits + 1 |
| `EditDistance.FirstRow` | crates/serial-mcp/src/capture.rs:990-1001 | the first row starts that invariant |
| `EditDistance.DistanceIsCheapest` | crates/serial-mcp/src/capture.rs:984-1030 | the recurrence is the cost of the cheapest edit script |
| `EditDistance.ScriptReaches` | crates/serial-mcp/src/capture.rs:1009-1021 | some script has exactly that cost |
| `EditDistance.ScriptPays` | crates/serial-mcp/src/capture.rs:1009-1021 | no script is cheaper |
| `EditDistance.DistanceAtLeastGap` | crates/serial-mcp/src/capture.rs:987-989 | the early exit on lengths is safe |
| `EchoMatch.FindEchoEnd` | crates/serial-mcp/src/capture.rs:805-879 | the earliest start from which the command can be read, or none when there is no such start |
| `EchoMatch.MatchFrom` | crates/serial-mcp/src/capture.rs:813-875 | from one start: a match exactly when a reading exists, with its end and its ambiguity |
| `EchoMatch.ScanFindsReading` | crates/serial-mcp/src/capture.rs:826-857 | a reading is unique, and going forward greedily finds it |
| `EchoMatch.EchoIsSound` | crates/serial-mcp/src/capture.rs:805-879 | a match marks a slice which, with the terminal's additions and the line ending of a transmitted CR erased, is the command, and nothing of that line ending is left behind it; unless flagged ambiguous no plain CRLF was erased |
| `EchoMatch.WrapsAreAdmissible` | crates/serial-mcp/src/capture.rs:844-855 | every erased plain CRLF stands at column 32 or later, and no wrap replaces a line ending of the command |
| `EchoMatch.ReadableIsFound` | crates/serial-mcp/src/capture.rs:813-876 | completeness: a start with any admissible reading is found or preceded |
| `EchoMatch.VerbatimIsFound` | crates/serial-mcp/src/capture.rs:813-876 | a verbatim echo is found or preceded |
| `EchoMatch.PresentedIsFound` | crates/serial-mcp/src/capture.rs:813-876 | a command as a terminal may present it, with CRs in front of its LFs and CR CR LF wraps anywhere, is found or preceded |
| `EchoMatch.PlainWrappedIsFound` | crates/serial-mcp/src/capture.rs:844-855 | so is one wrapped by a plain CRLF at column 32 or later |
| `EchoMatch.ReadingErases` | crates/serial-mcp/src/capture.rs:826-857 | a reading accounts for every raw byte |
| `EchoFallback.FallbackAfterIncompleteEcho` | crates/serial-mcp/src/capture.rs:897-939 | the view is everything unless an examined line part is a damaged echo, and then what follows the logical line of the first such part |
| `EchoFallback.LooksLikeDamagedEcho` | crates/serial-mcp/src/capture.rs:965-982 | prefix either way, or within the edit bound for commands of more than four bytes |
| `EchoFallback.LogicalEchoLine` | crates/serial-mcp/src/capture.rs:941-959 | CR CR LF continues a line, any other line ending ends it |
| `EchoFallback.ExamineLine` | crates/serial-mcp/src/capture.rs:913-930 | at most 128 candidates of a line are examined, first to last |
| `EchoFallback.ViewIsSuffix` | crates/serial-mcp/src/capture.rs:897-939 | the view is always a suffix of the pending bytes |
| `EchoFallback.EchoedPrefixWithheld` | crates/serial-mcp/src/capture.rs:889-939 | where the text from an examined position begins the command, or begins with it, and nothing earlier looks damaged, nothing of that position's whole logical line is shown |
| `EchoFallback.UnfinishedEchoWithheld` | crates/serial-mcp/src/capture.rs:889-939 | while an echo is still being received, nothing from its line on is shown |
| `EchoFallback.OneLineEnd` | crates/serial-mcp/src/capture.rs:941-959 | wherever text begins on a logical line, reading from there ends where the line ends |
| `EchoFallback.WrappedLine` | crates/serial-mcp/src/capture.rs:941-959 | a line wrapped any number of times is read as the line it is, up to its ending and no further |
| `EchoFallback.BareIsText` | crates/serial-mcp/src/capture.rs:902-906 | the command is compared without its line ending, whichever of the three it is sent with |
| `EchoFallback.OneWrongByteIsDamaged` | crates/serial-mcp/src/capture.rs:965-982 | one wrong byte of a command of more than four counts as damage, of a shorter one not |
| `EchoFallback.DamagedExactly` | crates/serial-mcp/src/capture.rs:965-982 | a command of more than four bytes is damaged within one edit, or one in four bytes up to 16, and no further |
| `EchoFallback.PromptEchoWithheld` | crates/serial-mcp/src/capture.rs:897-963 | a damaged echo among the first 128 bytes of its line is withheld with all of the line when what is in front of it ends as one of the seven prompts does |
| `BoundaryTracker.Capture` | crates/serial-mcp/src/capture.rs:587-768 | for any sequence of events: the received bytes after the command are those dropped, those stripped and those handed out, in order; the discarded count is exact; nothing at or before the command's event is handed out; offsets stay consistent; and the completion matcher's rolling view is exactly the bytes behind the echo, or all bytes behind the command when no echo is expected, or, without an echo, the fallback view of what was held |
| `BoundaryTracker.CommandBoundaryTracker.Accept` | crates/serial-mcp/src/capture.rs:611-690 | the state and the answer after one event in every case: an event handed out at once shows the matcher exactly its data and counts as quiet activity exactly when it is received output; one that waits is decided on with all that waits |
| `BoundaryTracker.CommandBoundaryTracker.Decide` | crates/serial-mcp/src/capture.rs:658-690 | without an echo everything stays pending; with one, both outcomes show the matcher exactly what follows it |
| `BoundaryTracker.CommandBoundaryTracker.ReleaseRetained` | crates/serial-mcp/src/capture.rs:676-685 | an ambiguous echo arms the tracker and discards nothing |
| `BoundaryTracker.CommandBoundaryTracker.ReleaseStripped` | crates/serial-mcp/src/capture.rs:686-689 | an unambiguous echo is stripped, and exactly its bytes |
| `BoundaryTracker.CommandBoundaryTracker.BoundPending` | crates/serial-mcp/src/capture.rs:692-708 | the newest events that fit the limits are kept, with the drops counted |
| `BoundaryTracker.CommandBoundaryTracker.DiscardPendingPrefix` | crates/serial-mcp/src/capture.rs:710-744 | pops and trims to leave exactly the bytes behind the prefix |
| `BoundaryTracker.CommandBoundaryTracker.Note` | crates/serial-mcp/src/capture.rs:611-643 | prewrite summary, audit, interference and highest sequence number of all events so far |
| `BoundaryTracker.CommandBoundaryTracker.Finish` | crates/serial-mcp/src/capture.rs:751-768 | what is pending goes to the caller; the account closes |
| `BoundaryTracker.SummaryCounts` | crates/serial-mcp/src/capture.rs:611-643 | the prewrite summary counts the events and bytes of each direction |
| `BoundaryTracker.ReleasedAreHeld` | crates/serial-mcp/src/capture.rs:710-744 | what is released behind a prefix is the held events themselves, the first cut and its offset moved |
| `BoundaryTracker.DroppedBytes` | crates/serial-mcp/src/capture.rs:710-744 | dropping n bytes from a list of events leaves the rest of the bytes and consistent offsets |
| `BoundaryTracker.BoundedKeeps` | crates/serial-mcp/src/capture.rs:692-708 | no event that would have fitted is dropped |
| `BoundaryTracker.AccountsNext` | crates/serial-mcp/src/capture.rs:645-653 | one more event keeps the account of bytes |
| `BoundaryTracker.AccountsRelease` | crates/serial-mcp/src/capture.rs:673-689 | releasing what is pending keeps the account of bytes |
| `SessionOwnership.Serve` | crates/serial-mcp/src/session.rs:560-580 | whatever is asked and whatever network and daemon do: leases and owned Runs have the same ports, handles are distinct, nothing is owned without a connection, and each Run counts its own guards, except where the daemon granted its identity a second time on the same port while a guard of it was out |
| `SessionOwnership.SessionState.Handle` | crates/serial-mcp/src/session.rs:635-810 | every request the actor takes and every renewal tick keeps that |
| `SessionOwnership.SessionState.BeginRunUse` | crates/serial-mcp/src/session.rs:812-843 | one more use and one more guard of the Run the handle names; an idle-expired Run is released instead; each refusal exactly for its reason |
| `SessionOwnership.SessionState.EndRunUse` | crates/serial-mcp/src/session.rs:860-873 | the Run the guard was made for, if it is still the one on its port |
| `SessionOwnership.UseEnds` | crates/serial-mcp/src/session.rs:860-873 | a guard of an old Run never changes a new one or another port |
| `SessionOwnership.PinOne` | crates/serial-mcp/src/session.rs:835-842 | a pin keeps the count of guards exact |
| `SessionOwnership.AddRun` | crates/serial-mcp/src/session.rs:1292-1301 | a new Run starts with no guards of its own, unless a guard for its port and identity is still out |
| `SessionOwnership.SessionState.RenewOwnedRunControl` | crates/serial-mcp/src/session.rs:937-995 | a renewed lease for a Run the caller may use exactly when the daemon's answer carries one, or nothing is owned any more |
| `SessionOwnership.SessionState.Transmit` | crates/serial-mcp/src/session.rs:1065-1155 | bytes leave only after control was renewed in the same request, under the very lease that renewal returned, for the caller's Run; result and connection are what the two answers say |
| `SessionOwnership.SessionState.StartRun` | crates/serial-mcp/src/session.rs:1200-1413 | success owns the port under a fresh handle and the granted lease; any error leaves it unowned and has its reason in the last answer, the caller or the clock; all earlier polls were answered by a pending approval; other Runs are unchanged and those in use are kept while the connection is |
| `SessionOwnership.SessionState.AskStart` | crates/serial-mcp/src/session.rs:1275-1395 | what one answer to a start request makes of it, for every answer |
| `SessionOwnership.SessionState.PollStart` | crates/serial-mcp/src/session.rs:1247-1413 | one turn of the polling loop: pending as before with one more request answered, or ended with its reason |
| `SessionOwnership.SessionState.Grant` | crates/serial-mcp/src/session.rs:1280-1310 | only a grant for this very request, still awaited, is kept; the pair of port and identity counts as reused exactly when one of its guards is out |
| `SessionOwnership.SessionState.GiveUp` | crates/serial-mcp/src/session.rs:1208-1260 | a pending approval is cancelled before the caller is told, and nothing is owned when the cancellation is not confirmed |
| `SessionOwnership.SessionState.StartMacro` | crates/serial-mcp/src/session/macros.rs:29-95 | a macro is started for the caller's Run under the very lease renewed in the same request, and sent at most once whatever is answered; the result is what the two answers say |
| `SessionOwnership.SessionState.MacroStatusOf` | crates/serial-mcp/src/session/macros.rs:96-114 | a status is asked at most twice, the second time exactly when the first answer was a lost connection; the result is that of the last; afterwards what is owned is as it was, or nothing is owned |
| `SessionOwnership.SessionState.CancelMacro` | crates/serial-mcp/src/session/macros.rs:115-134 | a cancellation follows a renewal in the same request, under its lease, for the caller's Run; the result is what the two answers say |
| `SessionOwnership.SessionState.EndRun` | crates/serial-mcp/src/session.rs:1480-1504 | control is renewed, the end asked for under that lease, and once confirmed Run and lease go together and the lease is released; any other answer keeps both or loses the connection, exactly as it says |
| `SessionOwnership.SessionState.AbortRun` | crates/serial-mcp/src/session.rs:1506-1552 | the held lease is released; once that is sent nothing of the Run is kept, and success is exactly a confirmed release |
| `SessionOwnership.SessionState.BestEffortRelease` | crates/serial-mcp/src/session.rs:1554-1579 | the port is given up at once under its lease and no other is touched while the connection lasts, which is exactly as long as the answer does not end it |
| `SessionOwnership.SessionState.RenewAll` | crates/serial-mcp/src/session.rs:1581-1632 | in the order of port names exactly the idle-expired Runs are released, so never one in use, and one renewal is sent for each other port under its lease; the lease held afterwards is the one the answer to that request carried; the connection is lost exactly when an answer of the plan is no good |
| `SessionOwnership.SessionState.RenewTargets` | crates/serial-mcp/src/session.rs:1611-1631 | every target is sent exactly one renewal and stores the lease of its answer |
| `SessionOwnership.SessionState.ReleaseIdle` | crates/serial-mcp/src/session.rs:1597-1610 | every idle port is released once under its lease |
| `SessionOwnership.SessionState.RenewalPlan` | crates/serial-mcp/src/session.rs:1634-1661 | the plan partitions the owned ports into idle and renewed, each once, under its own lease, in the order of names |
| `SessionOwnership.ExpiresExactly` | crates/serial-mcp/src/session.rs:599-604 | a Run expires to the instant when its time of idleness reaches a finite limit, never while in use and never without a limit |
| `SessionOwnership.PlanStep` | crates/serial-mcp/src/session.rs:1634-1661 | one more port keeps the plan a partition |
| `SessionOwnership.SessionState.Call` | crates/serial-mcp/src/session.rs:1663-1707 | a call over the old or a new connection: what it returns, whether it was sent and whether the connection lasts are what the answer says; what is owned is unchanged, or lost with the connection |
| `SessionOwnership.SessionState.Disconnect` | crates/serial-mcp/src/session.rs:1702-1707 | everything owned goes with the connection |
| `SessionOwnership.SessionState.UpdateRunIdleTtl` | crates/serial-mcp/src/session.rs:648-655 | the new limit applies at once |
| `SetupDraft.Draft.SavePortDraft` | crates/serial-setup/src/lib.rs:555-632 | in any draft: no profile is changed, moved or removed; the edited port names profiles with exactly what was asked, the first equal ones or new ones under `uart-` and the baud rate or `serial-input`, suffixed when taken; every other entry is the same and, if its names resolved, stands for the same; the identity is listed and nothing else is. A draft with unique, resolvable names stays one and the edited port stands for what was asked |
| `SetupDraft.FindOrAdd` | crates/serial-setup/src/lib.rs:565-602 | the first value-equivalent profile is reused; without one a profile is added, under the prefix or its first free suffixed name |
| `SetupDraft.Unique` | crates/serial-setup/src/lib.rs:298-307 | the prefix, or the first suffixed name from 2 on that is free; it terminates |
| `SetupDraft.OneIsFree` | crates/serial-setup/src/lib.rs:298-307 | there is only one such name |
| `SetupDraft.SuffixesRunOut` | crates/serial-setup/src/lib.rs:303-306 | a list of n names cannot hold more than n suffixed names |
| `SetupDraft.SuffixesDiffer` | crates/serial-setup/src/lib.rs:304 | different suffixes make different names |
| `SetupDraft.AddIdentity` | crates/serial-setup/src/lib.rs:603-618 | the pair is listed, every listed pair stays and no other is added |
| `SetupDraft.ResolveAppended` | crates/serial-setup/src/lib.rs:565-602 | a profile under a new name leaves every other name as it was |
| `RenderCollapse.CollapseExactRepeats` | crates/serial-mcp/src/render.rs:416-474 | the output text is the longest runs of equal lines (timestamps aside), each by its first line and a note line with its exact length and, when they differ, the timestamps of its first and last line, and then the unterminated rest; the collapsed count is the lines not shown |
| `RenderCollapse.SameKeyExactly` | crates/serial-mcp/src/render.rs:458-462 | lines count as repeats exactly when they are the same, or both bear a timestamp and the same text behind it |
| `RenderCollapse.SpanIsShown` | crates/serial-mcp/src/render.rs:430-444 | to the letter: a run whose first and last timestamps differ is its first line and a note with the count and the two timestamps without their white space |
| `RenderCollapse.CountIsShown` | crates/serial-mcp/src/render.rs:445-446 | any other run of several lines is its first line and the note with the count alone |
| `RenderCollapse.KeysReadBack` | crates/serial-mcp/src/render.rs:416-474 | reading the output text, a line in the form of a note behind a line being a note, gives back the keys of all the input lines in order exactly when no input line in that form ends a run of a single line; the rest is given back always |
| `RenderCollapse.NotesMislead` | crates/serial-mcp/src/render.rs:430-444 | a note is an ordinary line of text: two texts with different keys that are shown alike with the same count |
| `RenderCollapse.ClearTextsTold` | crates/serial-mcp/src/render.rs:416-474 | two texts the reader is right about have the same keys and rest if their outputs are the same |
| `RenderCollapse.OneCount` | crates/serial-mcp/src/render.rs:430-444 | a note has one repeat count, whatever span it carries |
| `RenderCollapse.PartsOfJoined` | crates/serial-mcp/src/render.rs:452-457 | joined lines split into themselves |
| `RenderCollapse.RunsAreUnique` | crates/serial-mcp/src/render.rs:449-470 | there is only one way to cut the lines into longest runs |
| `RenderCollapse.CollapsesOneWay` | crates/serial-mcp/src/render.rs:416-474 | the output and the count are determined by the text |

## Left out

- Spans, lines, columns and message texts: an error is its code.
- MacroTyping.AcceptsWellTyped: which of several faults of a program is reported first is said by the type checker's function alone, not by the rules.
- Saturating and fixed-width counters (`u64`, `usize`) are naturals; only the effect ID's end (`u64::MAX`), 64-bit macro integers and the `u32` pin count are modelled with their width.
- MacroProtocol.EffectProtocolHolds: when the effect ID space is exhausted, a command's bytes are counted before the effect is refused, as in the code, so the byte total is then only a bound; `MacroProtocol.EffectIdsSuffice` gives the equality for budgets below the ID space and `MacroProtocol.CountedButNotIssued` the exact condition.
- MacroVmObject.Vm.Execute: the branches of one `match` are spread over three methods; likewise `statement`, `simple` and `primary` of the parser over several.
- MacroRoundTrip.RoundTrip: the printer writes assignments to non-reserved names only; the parser also takes a few reserved words as targets, as `MacroSpelled.ParserReadsGrammar` says, which no later phase accepts.
- MacroLexer.TokensFrom: the offset counts characters, not bytes.
- EditDistance.EditDistanceWithin: `max_edits + 1` is not modelled to overflow.
- BoundaryTracker.Capture: the bounds that the capture loop itself puts on its rolling matcher text and on the events it keeps are not modelled, only the tracker's own.
- Why the boundary bytes and bounds of damaged echoes suit real terminals is not modelled.
- SessionOwnership.SessionState.MacroStatusOf: whether another error's text reads like a lost connection is a parameter.
- SessionOwnership.SessionState.StartRun: deadlines and the poll interval are observations of the environment; the parts of an approval that are compared as a block are one title and one lifetime.
- SessionOwnership.SessionState.RenewOwnedRunControl: the defensive branches for an owned Run without connection or lease are not written out, because the invariant excludes them.
- SessionOwnership.SessionState.Transmit: write and break requests are one request with a payload; pacing, descriptions and sequence preconditions are not modelled.
- SetupDraft.Draft.SavePortDraft: the interactive questions that lead to the requested settings are not modelled.
- RenderCollapse.CollapseExactRepeats: the length of a line's timestamp prefix is an arbitrary function of the line in place of the regular expression.
- `smart_limit` and `notable_context` in `render.rs`: heuristic presentation.
- `CompletionWatcher`, regular expressions and prompt matching in `capture.rs`: time and library calls.
- WebSocket and HTTP transport, JSON and TOML codecs, the terminal and desktop user interfaces, the daemon's slots, journal and monitor: not part of this model.
