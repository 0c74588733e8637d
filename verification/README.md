# A verified model of the Chialisp compiler and its CLVM machine

This Dafny project models the core of a compiler that turns Chialisp programs into CLVM, the stepwise
CLVM machine that runs them inside the compiler, and the tools around both: path arithmetic,
serialization, the parser and printer, dependency sorting, reachability, namespaces, currying and the
object cache. Source locations are erased. The new integer conversion (the default) is a fixed
parameter of the model. The external CLVM runner is an abstract deterministic operator function and
SHA-256 an arbitrary function that names subtrees.

`dafny verify dfyconfig.toml` checks the whole project.

## How the parts fit together

* **The machine.** `Machine` is `run_step`, `combine` and `run` as they are written, with Step, Op,
  OpResult and Done states and parent pointers. `BigStep` is an independent recursive evaluator.
  `MachineRefinement` proves that they agree in both directions, under every continuation. All other
  results about running programs are stated against the evaluator and so hold of the machine.
* **The source language.** `Frontend` reads s-expressions as expressions, `Heads` has what is known of
  calls that are read, `Syntax` the expressions themselves, and `Semantics` says what they mean
  without regard to how they are compiled: call by value, scopes as patterns with values, lets of all
  three kinds, function values, `@`. A bound on the depth of calls makes the meaning a function;
  raising it never changes a decided meaning.
* **The compiler.** In the order in which a program goes through it: `Renaming` (every binder gets a
  name of its own), `Hoisting` with `AssignForms` (lets become functions), `Inlining`,
  `CodeGeneration` with `Environments` and `Closures`. Each pass is a function or a method that
  follows its source branch by branch; a theorem says that it keeps the meaning (`RenamingSound`,
  `HoistingSound`, `InliningSound`, `CompilerCorrect`). What one pass needs of its input the passes
  before it provide: `RenamingApart` and `RenamedPrograms` (names), `RenamingCleans` and
  `HoistingComplete` (no lets are left), `FreeNames`, `UsableCalls` and `HoistedNames` (no names are
  freed, calls stay usable), `HeadsKept` (calls are headed by words), `CodegenEnds`, `InliningEnds` and
  `GlueCalls` (expansion ends, and exactly when). `ProgramCorrect`,
  `Desugaring`, `LinkedPrograms` and `WholePrograms` put the passes together. The last,
  `WholePrograms.ProgramsCompile`, goes from source programs to the final state of the stepwise machine
  and asks nothing of what passes put out, except that they put out something.
* **Assign forms.** `Toposort` is the in-place sort, proved against a function that is exact about
  when an order exists. `AssignMeaning` gives assign forms a meaning that mentions no order at all, a
  set of equations, and proves that the nested lets have it.
* **Names.** `Namespaces`, `NamespaceSearch`, `Resolution`, `Worklists` and `ResolvedPrograms` are
  the resolution of long names; `LiveHelpers` is dead code elimination by name.
* **Around the compiler.** `Paths`, `FunctionSearch`, `Currying`, `Promotion` (CLVM read back as an
  expression), `Streams`, `Serialization`, `Deserialization`, `Parsing`, `Printing`, `ObjectCaching`.

What the source does by changing things step by step is a method with loops, an array or a class
here, and is proved against a specification function; theorems are about the functions.

## Where the code does less than one would expect

Some natural statements are false of the code. Each has a lemma with an input that shows it, and the
theorem beside it has the condition under which the statement holds.

* `%` (61) and `keccak256` (62) are taken for `=` and `>` by the stepwise machine, because their
  numbers, read as one-byte names, are those names: `Primitives.ModulusIsEquality`; exactly those two:
  `Primitives.PlainPrimitives`.
* Sizes of 0x100000 bytes and more need four or more size bytes, which are regrouped little-endian;
  such atoms come back only if the size survives that: `Deserialization.SizesMayNotSurvive`, exactly
  when: `Deserialization.StreamRoundTrip`. The same limits the object cache:
  `ObjectCaching.OwnContentDecodes`.
* Code generation can go on for ever through an inline function with a name that expansion itself writes,
  such as `f`: `CodegenEnds.GenerationMayNotEnd`. Where no inline function has such a name it ends for every
  expression, within as many nested expansions as inline calls nest: `CodegenEnds.GenerationAlwaysEnds`. That
  condition is not necessary, since an inline `f` may take nothing apart (`GlueCalls.FlatFirstEnds`), and a cycle
  among such functions is not sufficient, since an argument may be dropped before it comes round
  (`GlueCalls.CycleMayEnd`). Exactly: it ends for every expression if and only if it ends for sixteen calls, those that expansion
  can write with three sample arguments, within a limit read off the functions: `GlueCalls.GenerationEndsExactly`.
* Functions with a let in them pass their arguments on by an expression that loses names under `@`
  captures; exactly when there are captures: `HoistingSound.CapturesAreNotRebuilt`.
* An empty `let*` is not removed by hoisting itself; lets are left exactly when an expression is not clean:
  `HoistingComplete.HoistLeavesNone`, `HoistingComplete.EmptyLetStarSurvives`. What renaming puts out is
  clean: `RenamingCleans.RenamedIsClean`.
* Renaming changes quoted bare words, exactly those spelled like a variable around them:
  `RenamingLimits.QuotedWordsAreRenamed`. Of a name bound several times by one let it makes the last binding
  count instead of the first: `RenamingLimits.LaterDuplicateWins`. (Inputs: `RenamingLimits.QuotedWordChanges`,
  `RenamingLimits.DuplicateChanges`.) One pattern that names something twice
  does so after renaming as well: `RenamingApart.RenamedBindersDiffer`.
* A text that ends inside a bare word is read as that word alone, if anything came before it:
  `Printing.LastWordAlone`, for all texts; `Printing.LastWordLost` is one.
* In dialects that are not strict a number among the values can name a function, and dead code elimination
  does not see it there: `LiveHelpers.NumbersAreNotCollected`, with the exact condition for each number;
  `LiveHelpers.FunctionByNumber` is a program. In strict dialects, and where such numbers name nothing that is
  dropped, it is safe: `LiveHelpers.LivenessKeepsMeaning`.
* A namespace that imports itself by its own name makes the search for a missing name endless:
  `NamespaceSearch.SelfImportNeverEnds`; exactly when: `NamespaceSearch.EndlessIsOwnChain`.
* Uncurrying accepts argument positions that were never quoted: `Currying.UncurriedIsCurried`.

## Model

| member | source | states |
|---|---|---|
| Numbers.BytesRoundTrip | src/util/mod.rs:17-28 | A byte string comes back from its number exactly when it is the minimal big-endian two's complement form (0 is the one byte 0). |
| SExpressions.EqualToIsClvmEquality | src/compiler/sexp.rs:547-566 | `equal_to` holds of two s-expressions exactly when they denote the same CLVM value. |
| SExpressions.ConvertFromThenTo | src/compiler/clvm.rs:255-326 | Every CLVM value survives the trip into the compiler's s-expressions and back. |
| SExpressions.ConvertToThenFrom | src/compiler/clvm.rs:255-326 | Every s-expression survives the trip through CLVM up to `equal_to`. |
| SExpressions.ProperListLoop | src/compiler/sexp.rs:568-589 | The loop gives the elements of a list that ends in any spelling of nil, and nothing for other values. |
| Machine.ArgListLoop | src/compiler/clvm.rs:220-247 | The loop splits an operator's tail into argument expressions, each to be evaluated in the operator's context, and fails on improper tails. |
| Machine.RunLoop | src/compiler/clvm.rs:751-781 | The loop of `run` is the limited iteration of `run_step` that the theorems speak about. |
| MachineRefinement.RunIsEval | src/compiler/clvm.rs:509-781 | For every program, environment and decided outcome (value or error): some step limit makes the stepwise machine end with it if and only if recursive evaluation gives it. |
| MachineRefinement.StepReturnsToParent | src/compiler/clvm.rs:471-491 | A Step under parent k reaches `combine(Done v, k)` whenever evaluation gives v. |
| MachineRefinement.LeavesOnlyByReturning | src/compiler/clvm.rs:471-740 | The converse: a state that no longer works for k is reached only through `combine(Done v, k)` for the value v of the evaluation. |
| MachineRefinement.ProperTailsAlways | src/compiler/clvm.rs:509-740 | In every run every operator step keeps a proper list as its argument tail. |
| ArgumentRefs.RefsGiveArguments | src/compiler/clvm.rs:368-381 | The generated references 5, 11, 23, ... evaluated in (() . args) give back exactly the evaluated arguments. |
| ClvmPrograms.ApplyEvaluates | src/compiler/clvm.rs:695-740 | Running (a p e) decides exactly as running p's value in e's value. |
| ClvmPrograms.MakeListLoop | src/compiler/codegen.rs:330-345 | Folding conses from the right builds the code of the whole list. |
| Frontend.ReadIsWellMade | src/compiler/frontend.rs:141-513 | Whatever is read from an s-expression has calls headed by words, let and let* that bind words, and assign forms that bind something, by patterns, and nothing in two of their bindings. |
| Frontend.ReadInWords | src/compiler/frontend.rs:373-513 | In particular no call that is read is headed by a number: a number there is read as the word that its bytes spell. |
| Frontend.HandleAssignForm | src/compiler/frontend.rs:302-370 | The loop over pairs of pattern and expression, with its check for names bound twice; a form without bindings is its body. |
| HeadsKept.CompiledInWords | src/compiler/compiler.rs:129-183 | Renaming and desugaring a program whose calls are headed by words leaves one whose calls are, new functions and lambdas included. |
| Primitives.PlainPrimitives | src/compiler/prims.rs:11-219 | Every primitive of the table means itself to the stepwise machine except exactly `%` and `keccak256`, whose numbers 61 and 62 are the names of `=` and `>`. |
| Primitives.ModulusIsEquality | src/compiler/clvm.rs:166-218 | What the machine takes those two heads for: 9 (`=`) and 21 (`>`). |
| Primitives.PlainGlueHolds | src/compiler/prims.rs:221-248 | The operators that generated code is glued together with (a, c, f, r, q) are read as themselves. |
| Primitives.GlueNamesHold | src/compiler/inline.rs:22-42 | What inline expansion writes (f, r, 4, @) means what it should wherever the program leaves those names alone. |
| Paths.ComposePaths | src/classic/clvm_tools/node_path.rs:34-60 | The shifting loop computes path composition. |
| Paths.ComposeWalks | src/classic/clvm_tools/node_path.rs:34-60 | For positive paths, walking by the composed path is walking by the first and then by the second, failures included. |
| Paths.ComposeAssociative | src/classic/clvm_tools/node_path.rs:34-60 | Composition is associative. |
| Paths.ComputeParentOfPath | src/compiler/codegen.rs:661-683 | The bit loop computes the parent path. |
| Paths.ParentUndoesCompose | src/compiler/codegen.rs:661-683 | Going up as many turns as q takes undoes composing with q. |
| Paths.ParentIsOnTheWay | src/compiler/codegen.rs:661-683 | From any parent of a path some further turns lead back to the path. |
| FunctionSearch.PathToFunctionIsExact | src/compiler/compiler.rs:1144-1186 | A path is found exactly when some subtree has the hash, and the subtree it selects has it. |
| FunctionSearch.RewriteRunsFunction | src/compiler/compiler.rs:1221-1231 | For a hit inside the quoted environment E, the rewritten program run on any arguments decides exactly as the function in (E . arguments). |
| FunctionSearch.ExtractInvertsWrapping | src/compiler/compiler.rs:1253-1275 | Extraction recovers exactly the program and environment that the final wrapping put together. |
| Currying.CurryLoop | wasm/src/objects.rs:743-770 | The loop builds the curried program. |
| Currying.UncurryLoop | wasm/src/objects.rs:772-822 | The loop takes a curried program apart and refuses everything else. |
| Currying.CurryPrepends | wasm/src/objects.rs:743-770 | Running the curried program on e decides exactly as the program on the arguments prepended to e. |
| Currying.UncurryInvertsCurry | wasm/src/objects.rs:772-822 | With one or more arguments uncurrying returns exactly the program and its arguments; a program curried with none is refused. |
| Currying.UncurriedIsCurried | wasm/src/objects.rs:414-454 | What uncurrying accepts is the curried form of what it returns exactly when every argument position was quoted. |
| Toposort.Sort | src/util/mod.rs:61-138 | The in-place sort, with its needs callback, gives exactly the specified result: an order, a deadlock or the callback's failure. |
| Toposort.SortIsExact | src/util/mod.rs:61-138 | It succeeds exactly when an order exists in which each item's needs are provided by earlier items, and then gives such an order of the same items. |
| Toposort.MoveToFront | src/util/mod.rs:99-135 | One round of swaps on the array is one step of the specified sort. |
| Toposort.PlaceNext | src/util/mod.rs:115-134 | One swap moves one ready item to the end of the finished part and adds what it provides. |
| Toposort.FindReady | src/util/mod.rs:99-112 | The scan lists the ready unfinished positions in order. |
| AssignForms.AssignStages | src/compiler/codegen.rs:1558-1662 | The stages hold each binding once, none is empty, and each binding's needs come from strictly enclosing stages. |
| AssignForms.HoistAssignForm | src/compiler/codegen.rs:1597-1662 | The loops build the nested lets of those stages, or report the deadlock; on a form without bindings, and only there, the function panics (no such form is read: `Frontend.ReadIsWellMade`). |
| AssignForms.CollectStages | src/compiler/codegen.rs:1605-1634 | The staging loop with its growing sets gives the specified stages. |
| AssignForms.NestStages | src/compiler/codegen.rs:1634-1662 | The nested lets are built from the innermost stage outwards. |
| AssignMeaning.AssignIsEquations | src/compiler/codegen.rs:1597-1662 | An assign form means v if and only if values exist that satisfy all its bindings at once and its body means v with all of them in scope. |
| AssignMeaning.OrderDoesNotMatter | src/compiler/codegen.rs:1558-1662 | Two lists of the same bindings in different orders make assign forms that can both be put in order or neither, and that have the same meaning. |
| Environments.LookupIsDestructuring | src/compiler/codegen.rs:244-304 | A name has a path in a pattern exactly when the pattern binds it, and walking the path through a value gives what destructuring gives. |
| Environments.HelperPathSelectsCode | src/compiler/codegen.rs:143-163 | For every helper the path found in the environment's shape selects its finished code, whatever the arguments are. |
| Environments.HelperPathBound | src/compiler/codegen.rs:414-423 | With at most 2^k helpers the path is below 2^(k+2), so masking it to 64 bits changes nothing for up to 2^62 helpers. |
| Inlining.EnlistRemainingArgs | src/compiler/inline.rs:79-104 | The loop makes the list of the remaining arguments. |
| Inlining.ArgLookupLoop | src/compiler/inline.rs:193-246 | The loop looks a name up among patterns and argument expressions as specified, errors included. |
| InliningEnds.FailsOnReentry | src/compiler/inline.rs:336-496 | For let-free bodies whose calls have callable heads and all positional arguments, expansion fails if and only if following the written inline calls meets a function again that is being expanded, whatever the arguments are. |
| InliningEnds.ExpansionEnds | src/compiler/inline.rs:515-545 | Expanding a call gives an expression unless its own function or one met on the way is reentered, and then it gives the error. |
| InliningSound.PickMeans | src/compiler/inline.rs:106-154 | The steps picked out of an argument reach the bound part of its value. |
| InliningSound.ArgLookupMeans | src/compiler/inline.rs:193-246 | A name is replaced exactly when the parameters bind it, by an expression for its value. |
| InliningSound.ReplaceMeans | src/compiler/inline.rs:336-496 | If an inline body has a value for given argument values, its expansion over expressions with those values has the same value. |
| InliningSound.ExpansionRefinesCall | src/compiler/inline.rs:515-545 | If an inline call means v, so does its expansion. |
| InliningEnds.CallsThatReturnExpand | src/compiler/inline.rs:515-545 | A call of an inline function that has a value can always be expanded, and the expansion has that value: functions that reenter themselves never return. |
| Closures.ClosureRuns | src/compiler/codegen.rs:356-409 | Running a function value on arguments decides exactly as the function's code in (left . arguments). |
| Closures.ReferenceIsClosure | src/compiler/codegen.rs:356-409 | A function mentioned as a value where the environment is (left . anything) becomes such a closure over left. |
| Closures.CommonPathsSurvive | src/compiler/codegen.rs:165-242 | In the shape that is built for a standalone phase a common name has the path it had in the common phase, and that path selects its code whether the extra functions are there or replaced by (). |
| Closures.ExtraPathsSelect | src/compiler/codegen.rs:165-242 | Every function that the common environment does not name has a path in the standalone shape, and it selects that function's code. |
| Closures.CollectEnvNames | src/compiler/codegen.rs:2649-2666 | The loop with its stack collects exactly the names written in an environment's shape. |
| Closures.CommonReferenceIsClosure | src/compiler/codegen.rs:356-409 | A common function mentioned there carries only the common tree and runs as its code in ((common . ()) . arguments). |
| Lambdas.MakeListFormLoop | src/compiler/lambda.rs:72-98 | The fold builds the list expression. |
| Lambdas.LambdaCodegenMeans | src/compiler/lambda.rs:100-128 | The code a lambda turns into means a program made of the hoisted function's closure and the captured values. |
| Lambdas.LambdaRuns | src/compiler/lambda.rs:100-128 | Running that program decides exactly as the hoisted function on (captures . arguments). |
| CodeGeneration.GenerateArgsCode | src/compiler/codegen.rs:586-624 | The loop over the reversed arguments generates the code of the argument list, or the first error it meets. |
| CodegenEnds.GenerationEnds | src/compiler/codegen.rs:1006-1146 | Code generation ends: d nested expansions suffice where inline calls nest d deep, inline functions are headed by words as they are read, and the names that expansion writes are not inline functions. |
| CodegenEnds.GenerationAlwaysEnds | src/compiler/codegen.rs:1006-1146 | Under those conditions on the functions alone every expression has such a depth, and with it or any larger one generation ends. |
| CodegenEnds.GenerationMayNotEnd | src/compiler/inline.rs:22-32 | Without the condition on names it need not end: an inline function called f with parameters ((x . y)) makes (f e) expand to itself, at every depth. |
| Samples.SamplesEndToo | src/compiler/inline.rs:336-545 | Three expressions can stand for any argument: if generating an expression's code ends within m nested expansions, so it does, and in an error or not as before, with arguments replaced by the samples that are like them. |
| Samples.EndsWithoutSamples | src/compiler/inline.rs:336-545 | The converse: what ends with samples within k ends, in the same way, within k and what the arguments take. |
| GlueCalls.GenerationEndsExactly | src/compiler/codegen.rs:1006-1146 | Whatever the names of inline functions are: generation ends for every expression if and only if it ends for the sixteen calls that expansion can write, with samples as arguments, within (1 + d)^16 nested expansions, where d is how deep inline calls nest in what those calls expand to. |
| GlueCalls.FlatFirstEnds | src/compiler/inline.rs:106-154 | With (defun-inline f (x) x) generation ends for every expression, although expansion writes that name. |
| GlueCalls.CycleMayEnd | src/compiler/inline.rs:336-496 | So it does where an inline f writes (f e) as an argument of an inline function that drops it. |
| CompilationEnds.CompilingEnds | src/compiler/compiler.rs:172-183 | For a program as it is read, in which none of the names that expansion writes is an inline function's, compiling what it is renamed and desugared to ends, in code or in an error. |
| CompilerCorrect.GenMeans | src/compiler/codegen.rs:1006-1146 | If an expression means v in a function's parameters, its generated code gives v in (code tree . arguments); calls, inline calls, function references, `@` and (@ path) included. |
| CompilerCorrect.DefunCallGives | src/compiler/codegen.rs:626-642 | The call code runs the callee's code with the same code tree beside the callee's own arguments. |
| ProgramCorrect.CompiledGives | src/compiler/codegen.rs:2862-2888 | If a program of mutually recursive functions and a main expression means v on given arguments, the wrapped program gives v on them. |
| ProgramCorrect.CompilerIsCorrect | src/compiler/codegen.rs:2480-2547 | The same for the stepwise machine: with enough steps it ends with v, and under no limit with anything else. |
| ProgramCorrect.ClosedProgramsCompile | src/compiler/codegen.rs:2862-2888 | For programs whose meaning uses neither function values nor `@`, with a source meaning that does not mention the compiler. |
| Hoisting.HoistShrinks | src/compiler/codegen.rs:1671-1860 | Hoisting moves work into new functions and leaves no more than there was: the measure under which the worklist ends. |
| Hoisting.ProcessHelperLetBindings | src/compiler/codegen.rs:1862-1908 | The loop that inserts new functions while it scans ends and gives the specified functions in the specified order. |
| HoistingComplete.HoistLeavesNone | src/compiler/codegen.rs:1671-1860 | Hoisting an expression and all that is hoisted out of it leaves no let and no lambda if and only if the expression is clean: no empty let* and no capture list keeps one. |
| HoistingComplete.ProcessingLeavesNone | src/compiler/codegen.rs:1862-1908 | The worklist leaves no let and no lambda in any function body if and only if all bodies were clean before it. |
| HoistingComplete.EmptyLetStarSurvives | src/compiler/codegen.rs:1671-1725 | An empty let* leaves no let if and only if its body has none: its body is put in its place unhoisted. |
| RenamingCleans.RenamedIsClean | src/compiler/rename.rs:301-400 | What renaming makes of any expression without lambdas is clean, empty let* or not. |
| HoistingNames.RawNames | src/compiler/codegen.rs:1862-1908 | Every function dealt with is an old one or invented on the way, and no two share a name. |
| HoistingSound.HoistMeans | src/compiler/codegen.rs:1472-1860 | If an expression with parallel, sequential and assign lets means v, what hoisting leaves of it means v where the hoisted functions are defined. |
| HoistingSound.CapturesAreNotRebuilt | src/compiler/codegen.rs:125-137 | Arguments are passed on by an expression that rebuilds them: for every pattern of ordinary names that binds none twice, and every value with all its parts, each name keeps its part in the rebuilt value if and only if the pattern has no @ capture. |
| HoistedNames.HoistLeaves | src/compiler/codegen.rs:1671-1860 | Hoisting frees no names and leaves every call usable, in what it leaves of an expression and in every function it makes, under that function's own parameters. |
| Desugaring.DesugarKeepsMeaning | src/compiler/compiler.rs:129-153 | Desugaring a whole program keeps its meaning. |
| LinkedPrograms.DesugaredIsCompilable | src/compiler/compiler.rs:129-153 | From a program as renaming leaves it desugaring makes one that meets every condition of the compiler's correctness: distinct names, no lets, calls that can be generated, inline bodies that capture nothing, some depth of nesting. |
| LinkedPrograms.LetProgramsCompile | src/compiler/compiler.rs:129-183 | From programs with lets and assigns, with names as renaming leaves them, to the value the stepwise machine ends with; nothing is asked of the desugared program. |
| Gensyms.GensymInjective | src/compiler/gensym.rs:9-16 | Two invented names are equal only if the same call invented them for the same name. |
| RenamingNames.RenameArgsShape | src/compiler/rename.rs:301-400 | A renamed expression binds only names invented meanwhile, reads only those and what it read before, and keeps its fixed words. |
| RenamingApart.RenamedBindersDiffer | src/compiler/rename.rs:301-400 | After renaming all binders of an expression are new and no name is bound at two places, nested or side by side, if and only if no single pattern named something twice before. |
| RenamingApart.RenamedProgramDiffers | src/compiler/rename.rs:502-516 | In a renamed program no two binders share a name: parameters and binders of all functions, binders of main and the program's own arguments; again if and only if no single pattern named something twice. |
| FreeNames.RenamingFreesNone | src/compiler/rename.rs:301-400 | What a renamed expression reads without binding it the expression read so before. |
| Renaming.SequenceIsDesugared | src/compiler/rename.rs:275-298 | Renaming a let* is renaming the nested lets it stands for. |
| RenamingPatterns.RenamedBinds | src/compiler/rename.rs:39-92 | A renamed pattern gives to each new name what the pattern gives to the old one, captures included. |
| RenamingSound.RenameInMeans | src/compiler/rename.rs:190-271 | Replacing free names keeps the meaning where the new names stand for what the old ones did. |
| RenamingAssigns.HoistingCommutes | src/compiler/rename.rs:190-271 | Replacing free names and splitting an assign form into nested lets can be done in either order. |
| RenamingOrder.RenamedSorts | src/compiler/rename.rs:155-188 | A renamed assign form, its bindings listed last to first, can be put in order again. |
| RenamingSound.RenameMeans | src/compiler/rename.rs:301-400 | If an expression with lets of all three kinds means v, so does its renamed form among renamed functions. |
| RenamingLimits.QuotedWordsAreRenamed | src/compiler/rename.rs:219-226 | Renaming leaves the quoted bare words of an expression as they are written if and only if none of them is a name bound around it. |
| RenamingLimits.LaterDuplicateWins | src/compiler/rename.rs:313-349 | For every name a let binds: the new name that uses of it get is bound first by what was its last binding, which is its first one if and only if no other binding names it. |
| RenamedPrograms.RenamedIsScoped | src/compiler/rename.rs:301-400 | After renaming no binder hides another one around it, which is what hoisting needs. |
| RenamedPrograms.RenamingKeepsMeaning | src/compiler/rename.rs:502-516 | Renaming a whole program keeps its meaning. |
| RenamedPrograms.RenamedIsTidy | src/compiler/rename.rs:431-516 | A renamed program meets everything that desugaring asks of names. |
| TableOperators.OperatorsHold | src/compiler/prims.rs:11-219 | With the compiler's own table of primitives everything that the theorems ask of operators holds. |
| WholePrograms.RenamedMayCompile | src/compiler/rename.rs:502-516 | Renaming turns a source program whose calls are usable into one that meets every condition of desugaring and compiling. |
| WholePrograms.ProgramsCompile | src/compiler/compiler.rs:172-183 | The whole way: a source program with let, let*, assign, inline and ordinary functions that means v is renamed, desugared and compiled to a program with which the stepwise machine ends with v. All conditions are on the source program and the operators. |
| WholePrograms.ClosedProgramsCompile | src/compiler/compiler.rs:172-183 | The same for programs whose meaning uses neither function values nor `@`, with a source meaning that does not mention the compiler. |
| LiveHelpers.CalculateLiveHelpers | src/compiler/frontend.rs:113-140 | The rounds end with the least set of names that holds the given ones and is closed under what helpers use. |
| LiveHelpers.ComputeLiveHelpers | src/compiler/frontend.rs:1087-1115 | The functions kept are exactly those in the least set for the main expression. |
| LiveHelpers.LivenessKeepsMeaning | src/compiler/frontend.rs:1087-1115 | Dropping the others changes no program's meaning, for programs whose calls are headed by words, as they are read; in dialects that are not strict, numbers among the values of what is live must not name dropped functions. |
| LiveHelpers.NumbersAreNotCollected | src/compiler/frontend.rs:40-83 | A number as a value keeps its meaning if and only if the dialect is strict or it names no function that is dropped: names spelled by numbers are read as names there and not collected. |
| LiveHelpers.FunctionByNumber | src/compiler/codegen.rs:1086-1103 | (mod () (defun g () ()) 103) in a dialect that is not strict: g is dropped, and the program means a number instead of the function. |
| Namespaces.NamesSurvive | src/compiler/comptypes.rs:306-339 | A long name survives being written out and parsed exactly when no component has a dot and it does not start with an empty component before others. |
| Namespaces.TourNamespaces.Next | src/compiler/resolve.rs:64-99 | One step of the stack-and-offset iterator takes exactly the first helper off what is left of the depth-first tour. |
| Namespaces.CollectTour | src/compiler/resolve.rs:130-140 | Exhausting the iterator gives the whole tour. |
| NamespaceSearch.FoundIsNamed | src/compiler/resolve.rs:174-317 | What the search finds is the helper that its full name names. |
| NamespaceSearch.SearchLooksOnce | src/compiler/resolve.rs:174-317 | Unless a namespace uses its own name for an import, the search ends and is a look at home and then at directly imported namespaces, in order: imports are not passed on. |
| NamespaceSearch.EndlessIsOwnChain | src/compiler/resolve.rs:207-240 | For a name that is nowhere, following imports k deep is not enough exactly when k+1 imports chain back under namespaces' own names. |
| NamespaceSearch.SelfImportNeverEnds | src/compiler/resolve.rs:224-240 | (namespace A (import qualified A)) makes the search for A's missing names go on for ever. |
| NamespaceSearch.FullNamesAreNotCaptured | src/compiler/resolve.rs:392-447 | With variables without dots, a full name written for a global name is taken for a variable exactly when the global name is that variable's name after a dot. |
| Resolution.ResolvedIsClosed | src/compiler/resolve.rs:359-592 | After resolving an expression every name nothing binds is a found helper's full name, a primitive or a builtin. |
| Worklists.ResolveRound | src/compiler/resolve.rs:714-741 | One round of the worklist finishes every new name that is not finished and opens what those refer to. |
| Worklists.CollectHelpers | src/compiler/resolve.rs:709-743 | The worklist ends; it fails exactly when something reached fails; otherwise it holds exactly what is reached. |
| ResolvedPrograms.ResolveNamespaces | src/compiler/resolve.rs:693-750 | The output has exactly the helpers reached from main, each renamed, resolved and under its full name, and every name left in it is one of them, a primitive or a builtin; it fails exactly when something reached cannot be resolved. |
| Promotion.ChooseFromEnvByPath | src/compiler/evaluate.rs:548-586 | The two loops choose the specified expression for a path. |
| Promotion.ChooseMeans | src/compiler/evaluate.rs:510-586 | Choosing by a positive path, with the shortcuts through cons, is walking the path in the environment's value. |
| Promotion.PromoteMeans | src/compiler/evaluate.rs:525-623 | If running a program on the environment's value gives v, the expression promotion makes of it means v. |
| Parsing.EnlistLoop | src/compiler/sexp.rs:371-379 | The fold builds the list with its tail. |
| Parsing.ParsePartialResult.Push | src/compiler/sexp.rs:945-970 | Pushing a character advances the parser by one step of the state machine; after an error nothing has changed. |
| Parsing.ParsePartialResult.Finalize | src/compiler/sexp.rs:972-995 | Finishing gives what the state machine's end rule says. |
| Parsing.ParseSexp | src/compiler/sexp.rs:998-1031 | Parsing a text is running the state machine over its characters. |
| Printing.PrintThenParse | src/compiler/sexp.rs:129-172 | The printed text of any well-formed s-expression parses to exactly one value, which is `equal_to` it. |
| Printing.LastWordAlone | src/compiler/sexp.rs:972-995 | For every text: a blank at its end changes what is read if and only if the text ends inside a bare word and something was read before it, and then that is what the blank saves; a text that cannot be read becomes readable by a blank if and only if it ends in a lone #. |
| Streams.Stream.Write | src/classic/clvm/__type_compatibility__.rs:369-387 | Writing replaces what follows the position, growing the buffer where needed, and leaves everything else. |
| Streams.Stream.Read | src/classic/clvm/__type_compatibility__.rs:393-410 | Reading takes up to the given number of bytes off what remains. |
| Streams.Stream.SetSeek | src/classic/clvm/__type_compatibility__.rs:334-342 | Positions are cut to the stream; negative ones mean the last byte; on an empty stream it fails and moves nothing. |
| Streams.IntFromBytes | src/classic/clvm/casts.rs:15-61 | The loop over groups of four bytes gives the number that the code reads, and nothing for more than eight bytes. |
| Serialization.SExpToBytesIterator.Next | src/classic/clvm/serialize.rs:95-126 | The stack-driven iterator takes the next piece off the recursive serialization of what is pending. |
| Serialization.SexpToStream | src/classic/clvm/serialize.rs:141-146 | What lies before the position grows by exactly the recursive serialization. |
| Deserialization.SplitSizeByte | src/classic/clvm/serialize.rs:249-275 | The bit loop counts at most eight leading ones and returns the other bits. |
| Deserialization.AtomFromStream | src/classic/clvm/serialize.rs:249-299 | Reading an atom in place is the specified reading of the remaining bytes. |
| Deserialization.SexpFromStream | src/classic/clvm/serialize.rs:221-247 | The loop over the operation stack, reading in place, is the specified two-stack decoder. |
| Deserialization.DecodeIsParsing | src/classic/clvm/serialize.rs:149-247 | The two-stack decoder, which goes on after errors, computes exactly the recursive reading. |
| Deserialization.AnnouncedAtom | src/classic/clvm/serialize.rs:29-84 | An announced atom is read back, with nothing after it touched, exactly when its size survives the prefix; otherwise what is read has another size. |
| Deserialization.StreamRoundTrip | src/classic/clvm/serialize.rs:221-299 | Decoding the serialized bytes followed by any suffix gives the tree back and leaves exactly the suffix if and only if every atom's size survives. |
| Deserialization.ShortAtomsSurvive | src/classic/clvm/serialize.rs:29-84 | In particular for all trees whose atoms are shorter than 0x100000 bytes. |
| Deserialization.SizesMayNotSurvive | src/classic/clvm/__type_compatibility__.rs:424-430 | An atom of exactly 0x100000 bytes is the first that does not come back, because size bytes are regrouped little-endian. |
| ObjectCaching.ObjectCache.CreateOrUpdateCacheEntry | wasm/src/objects.rs:77-90 | With fresh ids the order list stays duplicate-free with the same ids as the table and at most one more than the limit; the oldest entry makes room. |
| ObjectCaching.ObjectCache.CreateEntryFromSexp | wasm/src/objects.rs:92-107 | A new object is cached and handed out with its serialized form. |
| ObjectCaching.ObjectCache.FindOrCreateEntryFromHex | wasm/src/objects.rs:109-138 | A lookup by an id and its own content returns what the content decodes to, evicted or not. |
| ObjectCaching.OwnContentDecodes | wasm/src/objects.rs:92-138 | An object's own content decodes to it exactly when its atoms' sizes survive serialization. |

## Left out

- Macros, `com`, nested `mod`, constants (their folding and ordering), the optimizer (its hooks are the identity), module exports and the phases beyond closures: not modelled.
- Dialects with stepping below 26: not modelled, apart from the bound under which their truncation of paths is harmless.
- `translate_head` on a head that is itself a list runs the machine recursively with no limit of its own; here the nested run has one less than the depth that is left, so a decided outcome is the same.
- The external runner's own operators, its cost limits and `PrimOverride`: an abstract operator function that may answer, fail or run out.
- SHA-256 is an arbitrary function of trees; that different trees have different hashes is never used.
- Source locations, error texts and hash maps' iteration order: erased; errors are one value.
- HoistingSound.HoistMeans: goes from source to result, where everything that a pattern takes apart is supplied; hoisted code takes argument lists apart that the source may leave alone.
- InliningSound.ExpansionRefinesCall: goes from call to expansion, since an expansion never evaluates an argument that is not used; calls with a rest argument are an error of generation here.
- Inlining: the path that the source gives to the second and later elements of an inline function's rest argument, and the tail path of `synthesize_args`, are not modelled.
- CompilerCorrect.GenMeans: goes from meaning to code; a primitive call with a rest argument, which generation drops, has no meaning here, and so it is with the two-argument forms of `@`, whose path arithmetic is `Paths.ParentUndoesCompose`.
- RenamingSound.RenameMeans: goes from meaning to renamed meaning, for expressions without lambdas; where an assign form is renamed, its patterns hold only words, neither it nor its bindings use `@`, and no variable of it is called `let`.
- WholePrograms.ProgramsCompile: asks that no source name looks like one still to be invented; that quoted bare words, and numbers where they count as names, differ from variables; that no let binds a name twice; that functions with inlined lets have no `@` captures; that assign forms can be put in order and are as `RenamingSound.RenameMeans` asks; that calls are headed by functions or by primitives that mean themselves to the machine (all but `%` and `keccak256`), under names that nothing binds; that inline functions do not use `@`; that functions read nothing of the program's own arguments that they do not bind; that no function and no variable has a name the passes write; and that desugaring and code generation report no error.
- LinkedPrograms.LetProgramsCompile: for programs as renaming leaves them, where let* and assign are nested lets already.
- Frontend: nested programs are read as an error; macros, which are expanded after reading, and helper forms are not modelled.
- CodegenEnds.GenerationAlwaysEnds: a sufficient condition with an explicit depth; the exact one is `GlueCalls.GenerationEndsExactly`.
- RenamingApart.RenamedBindersDiffer: for expressions without lambdas whose assign forms can be put in order; the same goes for `RenamingLimits` and `RenamingCleans`.
- Lambdas: hoisting and the code they turn into are modelled; they have no meaning of their own in `Semantics`, renaming leaves them as they are here, and their values are the subject of `Lambdas.LambdaRuns`.
- Promotion.PromoteMeans: for positive paths, from value to meaning; path 0 and errors promote to expressions without a value.
- LiveHelpers.ComputeLiveHelpers: names are collected from expressions as the frontend does, for functions only, not for constants and macros.
- InliningEnds.ExpansionEnds: for bodies without lets whose calls supply every positional parameter and have no rest argument where the callee is inline; other failures of expansion (lets, missing arguments, heads that cannot be called) are modelled as the same error, and the theorem sets them aside.
- ResolvedPrograms.ResolveNamespaces: where the counter for invented names stands when a helper is found is an arbitrary function of the helper's name; the depth to which imports are followed is a parameter, and a search that goes deeper counts as an error.
- Printing.PrintThenParse: well-formed words are printable, do not read as numbers, do not start with a dot, a semicolon, a hash or 0x, and do not clash with delimiters; octal and binary constants are not read.
- ObjectCaching: contents are bytes, not their hexadecimal text; ids are fresh when they are given out.
- Streams.IntFromBytes: unsigned readings only, the ones the program makes; negative lengths in `Stream` and `bigint_to_bytes_clvm` are not modelled either.
- ToSexpType's list cases, the classic compiler stages, file access, the command line tools, the Python and JavaScript bindings: not modelled.
