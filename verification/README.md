# JOAN, verified

A Dafny model of the JOAN language toolchain: the surface syntax, the static
checker, the canonical tree, the bytecode compiler, the bytecode verifier, the
fuel-bounded virtual machine and the native backend. Around the toolchain it
models the services that exchange its artifacts: effect planning under one-use
approvals, the instruction resolver, the canonical JSON form, Lattice frames,
semantic patches, package resolution, and dispute decisions paid from a ledger.
The model follows the Rust crates construct by construct and proves what the
crates promise each other.

Each stage has a specification as functions and predicates, and an imperative
form (classes and methods with loops, as in the crates) proved equal to it. The
theorems are about the specifications, so they hold of both. For what an operation
answers there is a second description, as relations between inputs and answers rather
than steps: productions for the grammar, rules for the checker, lists of conditions for
the verifier, the native subset and the services (modules named `...Rules` and
`...Grammar`, and `AcceptedArtifacts`). The two are proved equivalent in both directions.

| stage | specification | as it runs |
|---|---|---|
| text to tokens | `Tokens`, `Layout`, `LexicalGrammar` | `Lexer` |
| tokens to program | `Grammar`, `SyntaxGrammar` | `Parser` |
| program to canonical text | `Printer`, `Spacing` | `Formatter` |
| static rules | `StaticRules`, `CheckRules` | `Checker` |
| canonical tree, compiler | `Ast`, `Compiler` | `Emitter` |
| bytecode verifier | `Verifier`, `Artifact` | `StructureCheck`, `CycleSearch` |
| encodings | `Encoding`, `CanonicalJson` | `Encoding`, `CanonicalJson` |
| virtual machine | `Machine`, `Semantics` | `VirtualMachine` |
| native backend | `NativeRules`, `NativeCode`, `NativeLowering` | `NativeLowering`, `NativeBackend` |
| whole pipeline | `Pipeline` | `Toolchain`, `Frontend` |
| instructions and approvals | `InstructionRules`, `PlanRules`, `Instructions`, `EffectPlanning` | `Instructions`, `EffectPlanning` |
| canonical trees and sets | `CanonicalRules`, `CanonicalOrder` | `CanonicalOrder` |
| Lattice frames | `Lattice` | the same module |
| semantic patches | `PatchRules`, `Patches` | `Patches` |
| packages | `Packages` | the same module |
| disputes and the simulated ledger | `DisputeRules`, `LedgerRules`, `Dispute`, `Ledger` | `Dispute`, `Ledger` |

How the parts of the system are represented:

- A digest is the pair of its domain and its content, so that equal digests mean
  equal contents. Hashing itself is not modelled.
- What is digested is encoded first, and the encoding is bounded: 1 MiB of text,
  64 levels, 100,000 nodes, strings of 256 KiB and exact integers. Trees, artifacts
  and requests have their encodings written out member by member. Which of their
  values the services can encode is a parameter of theirs, and the theorems hold for
  every choice.
- Integer literals are `i64` in parsed programs and decimal text in canonical
  trees, as in the crates; machine integers are subset types with explicit
  checked, truncating or wrapping operations.
- The machine's log also lists the functions entered. The list only serves to
  state how often a function ran.
- The native machine executes straight-line code over 64-bit values with
  conditional exits, calls that return a status and a value, and one fuel cell
  shared by all frames.
- An artifact can also break the verifier off: the source then indexes beyond a
  table and panics. The model gives this outcome its own name and states exactly
  when it happens.
- What the code generator makes of lowered code is a report of sizes and
  relocations; the limits on them are checked against the report.
- Nodes of patched graphs, claims and decisions are identified by symbolic
  digests. A digest of a canonical set element is a parameter.
- Reports and receipts keep the verdict, the counts and the failure kind;
  message texts, codes and source spans are dropped.

## Model

| member | source | states |
|---|---|---|
| `Ast.FlowIsPartialOrder` | crates/joan-ast/src/lib.rs:170-177 | flow between labels is reflexive, antisymmetric and transitive |
| `Ast.JoinIsLeastUpperBound` | crates/joan-ast/src/lib.rs:178-190 | the join is commutative, is the least label both operands may flow to, and is missing exactly when there is no such label |
| `Ast.SortIsPermutation` | crates/joan-ast/src/lib.rs:645-655 | sorting declarations by name rearranges them and loses nothing |
| `Ast.SortSorts` | crates/joan-ast/src/lib.rs:645-655 | sorted declarations are in byte order of their names |
| `CycleSearch.VisitGraph` | crates/joan-bytecode/src/lib.rs:1335-1351 | one visit of the three-colour search finishes everything reachable, callees first, or exhibits a cycle |
| `CycleSearch.VerifyAcyclic` | crates/joan-bytecode/src/lib.rs:1327-1333 | the search accepts a call graph if and only if it has no cycle, and yields a callees-first order |
| `Checker.Checker.Visit` | crates/joan-check/src/lib.rs:931-967 | the checker's search restores its visiting set, grows its visited set, and reports only real cycles |
| `Checker.Checker.CheckAcyclicCalls` | crates/joan-check/src/lib.rs:922-929 | without earlier diagnostics none is added if and only if the recorded calls have no cycle, whatever order the signature table is iterated in |
| `Checker.Checker.CollectSignatures` | crates/joan-check/src/lib.rs:160-225 | the signature table and the exact number of declaration diagnostics |
| `Checker.Checker.ExpressionType` | crates/joan-check/src/lib.rs:645-696 | the value, the diagnostics and the recorded calls of an expression are those of the typing rules |
| `Checker.Checker.CheckStatements` | crates/joan-check/src/lib.rs:337-360 | the locals after a body, its unused slots, the return flag and the diagnostics are those of the rules; statements after a return are reported and skipped |
| `Checker.Checker.CheckBodies` | crates/joan-check/src/lib.rs:298-302 | without diagnostics the recorded calls are exactly the calls by name of all bodies |
| `Checker.Checker.Run` | crates/joan-check/src/lib.rs:145-158 | the checker accepts exactly the programs without diagnostics and without recursion |
| `RuleAgreement.CheckMeetsRules` | crates/joan-check/src/lib.rs:145-158 | soundness and completeness of the checker: a module is accepted if and only if it follows the static rules, written as rules on names, types, labels, effects and slots without diagnostics or an order of checking, and no functions call each other in a circle |
| `RuleAgreement.ModuleAgrees` | crates/joan-check/src/lib.rs:160-435 | there are no diagnostics if and only if every function follows the rules for its declaration, its slots and its statements |
| `RuleAgreement.StepAgrees` | crates/joan-check/src/lib.rs:437-643 | a statement that is reached is reported if and only if it breaks its rule, and leaves the bindings and the unused slots that the rules speak of |
| `RuleAgreement.ExpressionAgrees` | crates/joan-check/src/lib.rs:645-887 | an expression is free of diagnostics if and only if it has a value by the rules, and then that value is the one inferred |
| `Safety.VerifiedCallsAreSafe` | crates/joan-compiler/src/lib.rs:575-783 | type safety: verified bytecode on typed arguments returns a value of the declared type or fails with an exhausted budget, checked arithmetic or, in the profiles with authority slots, a request that cannot be encoded; nothing else, in particular never the call-depth limit |
| `Safety.StackWithinMaximum` | crates/joan-bytecode/src/lib.rs:991-1210 | at every point of every call the operand stack is within the maximum the verifier computed |
| `Safety.StructureIsWellFormed` | crates/joan-bytecode/src/lib.rs:873-964 | structural acceptance gives every function a rank that calls strictly decrease |
| `Fuel.CallConservesFuel` | crates/joan-compiler/src/lib.rs:740-750 | executed plus remaining instructions is the budget at all times, for any bytecode and however the call ends |
| `Fuel.StaticCostEquation` | crates/joan-compiler/src/lib.rs:575-750 | the static cost of a function is its instruction count plus the costs of the functions it calls |
| `Fuel.ExactFuel` | crates/joan-compiler/src/lib.rs:575-750 | a completed call executes exactly its static cost, no smaller budget completes, and all budgets from the cost on give the same outcome and never run out |
| `LinearAuthority.RequestIdentitiesAreDistinct` | crates/joan-compiler/src/lib.rs:655-730 | no two requests of one run have the same identity |
| `LinearAuthority.EffectsStayInRow` | crates/joan-bytecode/src/lib.rs:1081-1176 | however a call ends, every effect requested anywhere under a function is in its declared row and comes from a declaring function and slot |
| `LinearAuthority.SlotsUsedOncePerInvocation` | crates/joan-bytecode/src/lib.rs:1134-1217 | in a completed run of linear bytecode, requests from a function with one of its slots are exactly as many as its invocations |
| `Noninterference.CompletedRunsDoNotInterfere` | crates/joan-bytecode/src/lib.rs:970-1218 | for any observer, two completed runs on arguments that agree where visible record the same sequence of requests up to arguments, equal arguments at visible sinks, equal visible results and equal instruction counts |
| `Correctness.SimulateExpression` | crates/joan-compiler/src/lib.rs:486-543 | code of an expression extends the stack by exactly its value, leaves the locals alone, records the same requests and stops with the same failure as its evaluation |
| `Correctness.SimulateFunction` | crates/joan-compiler/src/lib.rs:376-484 | running a compiled function is evaluating it, except that the budget may run out |
| `CheckedPrograms.FunctionBodyAccepted` | crates/joan-bytecode/src/lib.rs:970-1218 | the code of a body without diagnostics passes abstract interpretation exactly when its stack need is within the limit |
| `CheckedPrograms.ErrorFreeCompiles` | crates/joan-compiler/src/lib.rs:333-366 | code is generated for every tree that passes the static rules, however deep and large it is |
| `Pipeline.CheckedProgramsCompile` | crates/joan-compiler/src/lib.rs:333-366 | an accepted program compiles exactly if its canonical tree can be encoded; nothing else stops the compiler |
| `CheckedStructure.AcyclicTransfers` | crates/joan-check/src/lib.rs:922-967 | without a cycle of calls by name there is no cycle of call instructions |
| `CheckedStructure.StructureIffLimits` | crates/joan-bytecode/src/lib.rs:873-968 | structural verification accepts the code of a checked tree exactly when it is within the numeric limits |
| `Normalization.AcceptedNormalizes` | crates/joan-bytecode/src/lib.rs:376-386 | an accepted program is accepted again after its functions, effects and slots are sorted and its literals respelled |
| `CanonicalShape.ShapeIffLimits` | crates/joan-bytecode/src/lib.rs:388-443 | the canonical tree of an accepted program is well shaped exactly when its expressions are within the depth and node limits |
| `CanonicalRules.TreeMeans` | crates/joan-ast/src/lib.rs:643-808 | for names that differ, a tree is the canonical tree of a module if and only if it has the profile of its labels and slots, its functions in the order of their names with effects and slots in order of theirs, and the same bodies, with every number as its decimal numeral |
| `CanonicalRules.AcceptedTreeMeans` | crates/joan-ast/src/lib.rs:643-676 | in particular for every module the checker accepts |
| `CanonicalRules.DecimalMeans` | crates/joan-ast/src/lib.rs:772-785 | the spelling of a number is the numeral without leading zeros whose digits, each counting ten times the next, add up to it |
| `CanonicalRules.StringOrder` | crates/joan-ast/src/lib.rs:645-655 | names are ordered by their first difference, and a proper prefix comes first |
| `AcceptedArtifacts.TreeIsCanonical` | crates/joan-bytecode/src/lib.rs:388-443 | a well-shaped tree is the canonical tree of the module it stands for, sorted and respelled in every part |
| `Encoding.CheckEncodable` | crates/joan-canonical/src/lib.rs:447-467 | a value passes the checks on its text, its nodes and its integers exactly if it is within the bounds on encodings |
| `Encoding.ValidateNode` | crates/joan-canonical/src/lib.rs:690-727 | the recursive check with its running count of nodes accepts exactly what is within the levels, nodes and string bytes that are left |
| `Encoding.SafeIntegers` | crates/joan-canonical/src/lib.rs:662-688 | all integers are safe exactly if the largest is |
| `EncodedText.BytesOfCanonicalForm` | crates/joan-canonical/src/lib.rs:783-827 | the text whose bytes are bounded has the length of the canonical form, in whatever order members are written |
| `EncodingLimits.EncodedTreesAreShallow` | crates/joan-bytecode/src/lib.rs:388-443 | a tree that can be encoded is within the limits on expression depth and nodes, which can therefore never be the reason for a refusal |
| `EncodingLimits.EncodedArtifactsHaveTrees` | crates/joan-bytecode/src/lib.rs:300-344 | an artifact that can be encoded has a tree that can be encoded |
| `EncodingLimits.EncodedArtifactsAreWithinLimits` | crates/joan-bytecode/src/lib.rs:873-968 | compiled code that can be encoded is within all limits on locals, instructions and stacks |
| `EncodingLimits.LongArgumentsHaveNoIdentity` | crates/joan-compiler/src/lib.rs:655-730 | in the profiles with authority slots a request with a text argument beyond the bound on strings has no identity and fails |
| `Pipeline.CheckedProgramsVerify` | crates/joan-compiler/src/lib.rs:179-198 | the compiler's artifact for an accepted program passes complete verification, including the independent emitter, exactly if it can be encoded; the numeric limits of the verifier never decide |
| `AcceptedArtifacts.AcceptedArtifactsAreCompiled` | crates/joan-bytecode/src/lib.rs:300-344 | the verifier accepts an artifact if and only if it is what the compiler delivers for some module that the checker accepts, and can be encoded |
| `Pipeline.ArtifactsRunAsTheirTree` | crates/joan-compiler/src/lib.rs:575-738 | compiler correctness on whole runs: value, ordered requests, first failure and instruction count of any function of a verified artifact are those of its embedded tree, from the static cost upwards; below it only the budget can interfere |
| `Pipeline.CheckedProgramsExecute` | crates/joan-compiler/src/lib.rs:201-239 | a checked program whose artifact can be encoded executes as its canonical tree evaluates |
| `Emitter.InstructionList.CompileExpression` | crates/joan-compiler/src/lib.rs:486-543 | appends exactly the code of the expression, and fails exactly when there is none |
| `Emitter.CompileFunction` | crates/joan-compiler/src/lib.rs:376-484 | the compiler's loop and the independent emitter produce the same function |
| `Emitter.CompileTree` | crates/joan-compiler/src/lib.rs:333-366 | the compiler's program is the independent emitter's program, bound to the identity of its tree; there is none exactly if the code fails to generate or the tree cannot be encoded |
| `StructureCheck.VerifyFunction` | crates/joan-bytecode/src/lib.rs:970-1218 | the verifier's pass accepts exactly the bodies that abstract interpretation accepts, and reports their maximum stack depth and calls |
| `StructureCheck.VerifyStructure` | crates/joan-bytecode/src/lib.rs:873-964 | structural verification accepts exactly the programs described declaration by declaration, and breaks off exactly where a slice of a label table goes out of bounds before the counts are compared; it reports the total size and the deepest stack, which no function exceeds and some function attains |
| `StructureCheck.DeepestIsMaximum` | crates/joan-bytecode/src/lib.rs:873-964 | the running maximum of the stack depths is a bound on all functions and is attained by one |
| `BrokenArtifacts.CompiledNeverCrashes` | crates/joan-bytecode/src/lib.rs:483-517 | the verifier never breaks off on the output of the compiler, accepted or not |
| `BrokenArtifacts.DoctoredArtifactsCrash` | crates/joan-bytecode/src/lib.rs:499-501 | every artifact of the information-flow profile with a tree in order has a copy, equal but for its function table, on which the verifier breaks off |
| `BrokenArtifacts.ReceivedArtifactsCrash` | crates/joan-bytecode/src/lib.rs:499-501 | there is such an artifact: two parameters in a frame of one local |
| `VirtualMachine.VirtualMachine.Call` | crates/joan-compiler/src/lib.rs:575-738 | the machine's loop does exactly what the big-step specification says, on result, counters and log |
| `Toolchain.VerifyBytecode` | crates/joan-bytecode/src/lib.rs:300-344 | the verification pipeline accepts exactly the artifacts specified, breaks off exactly on those whose tree is in order and whose label tables are sliced out of bounds, and rejects the rest; the reported stack depth is attained and never exceeded |
| `Toolchain.Compile` | crates/joan-compiler/src/lib.rs:179-198 | a compiled module is accepted, verified and the emitter's; it exists exactly for accepted modules whose tree and artifact can be encoded |
| `Toolchain.ExecuteFunction` | crates/joan-compiler/src/lib.rs:247-287 | a receipt reports the evaluation of the embedded tree with the exact instruction count and with requests numbered and identified by their position; every other outcome occurs exactly in its case |
| `NativeCode.FlagBits` | crates/joan-native/src/lib.rs:641-661 | bitwise and, or and exclusive or on canonical booleans are the logical operations |
| `NativeLowering.ValidateSubset` | crates/joan-native/src/lib.rs:412-483 | accepts exactly the pure, string-free, legacy-profile programs within the backend's limits |
| `NativeRules.SubsetMeans` | crates/joan-native/src/lib.rs:412-483 | the code of a module is in the subset if and only if the module, as written, has no labels, effects, slots, requests or strings, and no more operations and locals, counted in its expressions, than the limits allow |
| `NativeRules.NativeModules` | crates/joan-native/src/lib.rs:272-410 | what the compiler delivers for an accepted module is accepted, and in the subset if and only if the module is pure in this sense |
| `NativeLowering.NormalizeRoundTrip` | crates/joan-native/src/lib.rs:965-991 | normalizing loses nothing, and the canonical numbers of a type are exactly the normalized values |
| `NativeLowering.DefineInternalFunction` | crates/joan-native/src/lib.rs:542-721 | the builder's pass emits exactly the specified code |
| `NativeSimulation.VerifiedLowers` | crates/joan-native/src/lib.rs:542-721 | no function of a verified program in the subset fails to lower |
| `NativeSimulation.StepNative` | crates/joan-native/src/lib.rs:587-703 | lowered code of one instruction does what the machine does: same values, same fuel, same failure |
| `NativeSimulation.CallNative` | crates/joan-native/src/lib.rs:542-721 | a native call exits with the normalized value and fuel of the machine's call, or with the status of its failure and zero |
| `NativeBackend.StatusesDiffer` | crates/joan-native/src/lib.rs:993-1004 | the failure kinds have different statuses, all different from success |
| `NativeBackend.CompileBytecode` | crates/joan-native/src/lib.rs:272-410 | the backend compiles exactly the verified artifacts in its subset for which the code generator succeeds and stays within the code limits; it breaks off exactly where the verifier does |
| `NativeBackend.RelocationsStayWithin` | crates/joan-native/src/lib.rs:790-838 | the limit on all relocations is implied by the limits on functions and on the relocations of each, so that its check never fails |
| `NativeBackend.NativeRefinesMachine` | crates/joan-native/src/lib.rs:187-228 | an invocation delivers the machine's value and instruction count exactly when the machine completes, and otherwise the status of the machine's failure; no crash and no non-canonical result |
| `NativeBackend.NativeEvaluatesTheTree` | crates/joan-native/src/lib.rs:187-228 | with enough fuel an invocation is the evaluation of the embedded tree |
| `Tokens.LiteralRoundTrip` | crates/joan-syntax/src/lib.rs:268-340 | escaping a text and scanning the literal give the text back |
| `Tokens.ScannedAreSpellable` | crates/joan-syntax/src/lib.rs:133-180 | every token of a valid text has a proper name, a number that is not negative, or a text a literal can denote |
| `Layout.ScanRender` | crates/joan-syntax/src/lib.rs:133-410 | scanning a layout in which adjacent tokens cannot be confused gives back its tokens |
| `Lexer.Lexer.Run` | crates/joan-syntax/src/lib.rs:133-180 | the lexer delivers exactly the scanned tokens and an end marker, within the byte and token limits |
| `Lexer.Lexer.BlockComment` | crates/joan-syntax/src/lib.rs:214-242 | nested block comments are skipped to their matching end |
| `LexicalGrammar.ScanMeans` | crates/joan-syntax/src/lib.rs:133-410 | a text has certain tokens if and only if it is their spellings with gaps between them, where a gap is blanks, line comments up to their line break and block comments with balanced nesting, and no spelling runs on into the text behind it |
| `LexicalGrammar.LineIsSkipped` | crates/joan-syntax/src/lib.rs:149-155 | scanning a line comment and its line break in front of any text gives the tokens of that text |
| `LexicalGrammar.BlockIsSkipped` | crates/joan-syntax/src/lib.rs:214-242 | scanning a block comment with balanced content in front of any text gives the tokens of that text |
| `Parser.Parser.Level` | crates/joan-syntax/src/lib.rs:821-951 | the precedence-climbing loops read exactly the left-associative expressions of their level |
| `Parser.Parser.Module` | crates/joan-syntax/src/lib.rs:475-508 | the parser reads exactly the modules of the grammar |
| `Parser.Parse` | crates/joan-syntax/src/lib.rs:1053-1055 | parse accepts exactly the texts of the grammar and delivers their programs |
| `SyntaxGrammar.ParseMeans` | crates/joan-syntax/src/lib.rs:1053-1055 | a text parses to a program if and only if it is within the limits on bytes and tokens and is written in tokens that the productions of the grammar derive for that program |
| `SyntaxGrammar.ParseModuleMeans` | crates/joan-syntax/src/lib.rs:475-819 | tokens parse to a module if and only if they are derived from the productions for modules, functions and statements |
| `SyntaxGrammar.DerivedIsRead` | crates/joan-syntax/src/lib.rs:821-1049 | whatever the productions derive for an expression, with any redundant parentheses, is read as that expression |
| `SyntaxGrammar.ReadIsDerived` | crates/joan-syntax/src/lib.rs:821-1049 | whatever is read as an expression is derived by the productions: operators to the left, tighter levels within looser ones |
| `ExpressionRoundTrip.ReadsBack` | crates/joan-syntax/src/lib.rs:1187-1264 | minimally parenthesized tokens of an expression are read back as that expression at every precedence level |
| `ProgramRoundTrip.ReadsModule` | crates/joan-syntax/src/lib.rs:1064-1120 | the tokens of a printed program parse to the program |
| `Spacing.ScanFormatted` | crates/joan-syntax/src/lib.rs:1064-1279 | scanning the canonical text of a program gives exactly the tokens it is printed from |
| `ParsedPrograms.ParsedModule` | crates/joan-syntax/src/lib.rs:475-1049 | a parsed program is printable, and its canonical layout has no more tokens than its source |
| `SyntaxRoundTrip.CanonicalTextDetermines` | crates/joan-syntax/src/lib.rs:1064-1077 | printable programs with the same canonical text are equal |
| `SyntaxRoundTrip.FormatRoundTrip` | crates/joan-syntax/src/lib.rs:1053-1077 | the canonical text of a parsed program parses to the same program if and only if it is within the byte limit, and never has more tokens than the source |
| `SyntaxRoundTrip.FormattingIsIdempotent` | crates/joan-syntax/src/lib.rs:1058-1060 | formatting twice is formatting once, wherever the result is within the byte limit |
| `SyntaxRoundTrip.LongNamesDoNotRoundTrip` | crates/joan-syntax/src/lib.rs:133-143 | a source that fills the byte limit whose canonical text no longer parses |
| `Formatter.Formatter.FormatExpression` | crates/joan-syntax/src/lib.rs:1205-1264 | appends the text of exactly the specified layout |
| `Formatter.Formatter.FormatProgram` | crates/joan-syntax/src/lib.rs:1064-1077 | the formatter's output is the rendering of the canonical layout |
| `Frontend.CompileSource` | crates/joan-compiler/src/lib.rs:179-198 | a source compiles exactly when it parses, is accepted, and its tree and artifact can be encoded |
| `Frontend.FormattingKeepsTheArtifact` | crates/joan-syntax/src/lib.rs:1058-1060 | formatting a source does not change the artifact it compiles to |
| `Frontend.ExecuteSource` | crates/joan-compiler/src/lib.rs:201-204 | executing a source reports the evaluation of its canonical tree |
| `Instructions.RootsMean` | crates/joan-instruction/src/lib.rs:644-659 | the ceiling holds what every root grants; the denies hold what any root denies |
| `Instructions.ExternalCeiling` | crates/joan-instruction/src/lib.rs:644-659 | intersects the grants and unites the denies of all roots, and refuses an authority without roots |
| `Instructions.Analyzer.AnalyzeInstructions` | crates/joan-instruction/src/lib.rs:378-473 | the denies, flags and directives collected from applicable envelopes are those of the analysis |
| `Instructions.ResolveInstructions` | crates/joan-instruction/src/lib.rs:325-376 | the receipt is the specified decision on ceiling, repository denies and requested effects |
| `Attenuation.ContradictionMeans` | crates/joan-instruction/src/lib.rs:448-473 | although later directives overwrite earlier ones, a conflict is flagged exactly if two applicable directives of one class disagree |
| `Attenuation.AllowMeans` | crates/joan-instruction/src/lib.rs:475-542 | a receipt exists exactly if everything it covers can be encoded, and allows exactly if every effect is granted by all roots, denied by none and by no applicable constraint, and approved where approval is required, and nothing claims authority, hides an effect or contradicts itself |
| `InstructionRules.ResolutionMeans` | crates/joan-instruction/src/lib.rs:325-541 | each of the six decisions is given exactly in its case, stated over roots, envelopes, paths and task kinds as they come, with the effective and the denied capabilities one by one |
| `InstructionRules.ScopeAgrees` | crates/joan-instruction/src/lib.rs:661-670 | an envelope applies if and only if the path is, or lies below, one of its prefixes, or it names none, and likewise for task kinds |
| `InstructionRules.OnlyBelow` | crates/joan-instruction/src/lib.rs:661-670 | a prefix covers itself and what follows it after a slash, and nothing that continues it otherwise |
| `Attenuation.EffectiveIsGranted` | crates/joan-instruction/src/lib.rs:325-376 | nothing is effective that some root did not grant or that anything denied |
| `Attenuation.RemovingInstructionsKeepsAllow` | crates/joan-instruction/src/lib.rs:325-542 | attenuation: what is allowed with some repository content is allowed with any part of it, with at least the same effective authority, wherever the receipt can be encoded |
| `Attenuation.InstructionOrderDoesNotMatter` | crates/joan-instruction/src/lib.rs:325-542 | order and repetition of envelopes do not change the receipt, wherever both receipts can be encoded |
| `EffectPlanning.CapabilityLedger.PlanEffects` | crates/joan-runtime/src/lib.rs:156-236 | all requests are planned and their nonces consumed, or none and the ledger is unchanged |
| `ApprovalUse.PlanMeans` | crates/joan-runtime/src/lib.rs:156-236 | a plan succeeds exactly if the profile fits, the plan can be encoded, authority allows all effects, and every request has its position, derived identity, an unused nonce and exactly one matching approval |
| `PlanRules.PlanningMeans` | crates/joan-runtime/src/lib.rs:156-236 | a plan succeeds if and only if the execution is in order, the authority is for the program and every root of it lets all effects pass, and every request has its position, an unused identity made of its own fields, and exactly one approval with its nonce, task, effect, slot and label, each field written out |
| `PlanRules.OtherApprovalsDoNotHelp` | crates/joan-runtime/src/lib.rs:196-211 | if every approval differs from a request in its nonce, task, capabilities, slot or label, nothing is planned |
| `PlanRules.RecordedIdentities` | crates/joan-compiler/src/lib.rs:655-720 | the identity of every request that the machine records carries the position, program, function, effect, slot, label and arguments of that request |
| `ApprovalUse.LedgerIsDisjointUnion` | crates/joan-runtime/src/lib.rs:156-236 | over any sequence of plans the ledger grows by exactly the requests planned, and every new nonce was used by exactly one plan |
| `ApprovalUse.PlansAreNotRepeated` | crates/joan-runtime/src/lib.rs:156-236 | an execution with requests is never planned twice, whatever authority is presented and whatever was planned in between |
| `ApprovalUse.MachineRequestsAreIdentified` | crates/joan-runtime/src/lib.rs:238-287 | the requests of any run of the machine carry exactly the positions and identities that planning derives, and these identities exist |
| `CanonicalJson.Writer.WriteValue` | crates/joan-canonical/src/lib.rs:783-827 | appends exactly the canonical form of a value |
| `CanonicalReading.CanonicalFormReads` | crates/joan-canonical/src/lib.rs:783-827 | round trip: a reader recovers the meaning of a value from its canonical form |
| `CanonicalReading.CanonicalFormIsUnambiguous` | crates/joan-canonical/src/lib.rs:783-827 | values with the same canonical form have the same meaning |
| `CanonicalOrder.MembersAreOrdered` | crates/joan-canonical/src/lib.rs:808-824 | members of objects are strictly ordered by the UTF-16 code units of their keys |
| `CanonicalOrder.SetErrorMeans` | crates/joan-canonical/src/lib.rs:630-646 | a canonical set is accepted exactly if its elements can be digested and no two have the same canonical form |
| `CanonicalOrder.BuildCanonicalSet` | crates/joan-canonical/src/lib.rs:630-646 | the loop refuses at the first invalid, repeated or overlong element and otherwise sorts by digest and canonical form |
| `CanonicalOrder.SetOrderDoesNotMatter` | crates/joan-canonical/src/lib.rs:629-646 | a permutation of the elements is accepted as well and gives the same array, for any digest of fixed length |
| `CanonicalRules.SetMeans` | crates/joan-canonical/src/lib.rs:629-646 | an array is the canonical set of some values if and only if all have digests and different canonical forms, and it holds exactly these values in the order of their digests, ties broken by their canonical forms |
| `Lattice.Encode` | crates/joan-lattice/src/lib.rs:128-175 | writing the header, patching the level map and appending the payloads gives the specified frame or the first error |
| `Lattice.Decode` | crates/joan-lattice/src/lib.rs:177-242 | the decoder performs the specified checks in order and cuts the specified levels |
| `LatticeRoundTrip.EncodesExactly` | crates/joan-lattice/src/lib.rs:128-175 | frames are encoded exactly if their flags are known and they fit the byte bound; no length exceeds its four bytes then |
| `LatticeRoundTrip.DecodeEncode` | crates/joan-lattice/src/lib.rs:128-242 | decoding an encoded frame gives its parts back |
| `LatticeRoundTrip.EncodeDecode` | crates/joan-lattice/src/lib.rs:128-242 | accepted bytes are the encoding of what they decode to |
| `LatticeRoundTrip.AcceptsExactlyEncodings` | crates/joan-lattice/src/lib.rs:177-242 | the decoder accepts the range of the encoder and nothing else |
| `LatticeRoundTrip.OneEncodingPerFrame` | crates/joan-lattice/src/lib.rs:177-242 | two accepted frames have equal parts if and only if they are equal bytes |
| `LatticeRoundTrip.LevelMapMarksLevels` | crates/joan-lattice/src/lib.rs:177-242 | bit i of the level map is set exactly if level i is not empty |
| `LatticeRoundTrip.SpansTileTheFrame` | crates/joan-lattice/src/lib.rs:177-242 | the levels of an accepted frame cover every byte behind the header once, in order |
| `LatticeRoundTrip.ViewLevels` | crates/joan-abi/src/lib.rs:253-294 | the level spans handed out tile the input behind its header and agree with its level map |
| `Patches.Staging.ApplyOperation` | crates/joan-patch/src/lib.rs:212-254 | one operation changes nodes and leaf digests together, so that unless it fails the leaves stay those of the nodes |
| `Patches.ApplyPatch` | crates/joan-patch/src/lib.rs:158-210 | the patched graph and receipt are those specified, and the incremental root never disagrees with the full one |
| `PatchRules.PatchMeans` | crates/joan-patch/src/lib.rs:158-254 | a patch takes a graph to another with a receipt if and only if it is for this graph, names no key twice, every operation fits the graph as it is, the other graph holds under every key what the operation leaves or what was there, and its root lists its leaves |
| `PatchOrder.PatchFits` | crates/joan-patch/src/lib.rs:158-254 | operations with distinct targets succeed exactly if each fits the graph as it was before the patch |
| `PatchOrder.PatchOrderDoesNotMatter` | crates/joan-patch/src/lib.rs:158-210 | permuting the operations changes neither acceptance nor graph and receipt where both lists can be encoded, and the produced graph verifies |
| `PatchOrder.PatchesCanBeUndone` | crates/joan-patch/src/lib.rs:158-210 | every successful patch is undone by a patch on its new root that brings back the same graph; it fails only if its operations cannot be encoded |
| `Packages.Resolver.Visit` | crates/joan-package/src/lib.rs:497-545 | a visit finishes the package with everything it pins, callees first, or fails for a reason found in the store |
| `Packages.ResolvePackage` | crates/joan-package/src/lib.rs:242-266 | a resolution is exactly the packages reachable from the root, without cycle or collision, with exact counts within the limits; a refusal names a reason that is true of the store |
| `Packages.ResolvedIsNotRefused` | crates/joan-package/src/lib.rs:497-633 | a resolvable root rules out every reason for refusal but the length of one chain |
| `Dispute.AllocationConserves` | crates/joan-dispute/src/lib.rs:629-676 | every allocation hands out exactly the value, and exactly the cases of refusal |
| `DisputeRules.AllocationPays` | crates/joan-dispute/src/lib.rs:629-676 | who gets the money: the buyer in a full refund, the provider in a release, the floor of the basis points to the buyer and the rest to the provider in a split, nobody yet in a repair or a quarantine |
| `Dispute.EvaluateFindings` | crates/joan-dispute/src/lib.rs:559-604 | the loop counts findings until the first bad one |
| `Dispute.TallyMeans` | crates/joan-dispute/src/lib.rs:559-604 | findings are counted exactly if each fits and the adjudicators are distinct; the counts are the numbers of voters |
| `Dispute.FindingOrderDoesNotMatter` | crates/joan-dispute/src/lib.rs:372-454 | findings in another order give the same receipt or are refused as well |
| `Dispute.DecisionsConserveValue` | crates/joan-dispute/src/lib.rs:372-454 | a decision hands out the whole value, verifies, names only assigned adjudicators, accounts for each by one vote, and never meets an overflow |
| `Dispute.AppealsDoNotChain` | crates/joan-dispute/src/lib.rs:456-517 | an appeal supersedes a primary decision of the same case and is never appealed again |
| `Dispute.RunEvaluation` | crates/joan-dispute/src/lib.rs:372-454 | the evaluation step by step is the specified one |
| `DisputeRules.EvaluationMeans` | crates/joan-dispute/src/lib.rs:372-454 | an evaluation succeeds if and only if claim, profile, prior decision and findings are in order; status and remedy follow from the numbers of supporters and rejecters against the threshold alone, and the allocation pays that remedy |
| `Ledger.VerifyLedger` | crates/joan-mock-ledger/src/lib.rs:227-243 | verification as specified, with sums checked against 64 bits whatever order the maps are visited in |
| `Ledger.CreateLedger` | crates/joan-mock-ledger/src/lib.rs:205-225 | creation as specified |
| `Ledger.FinishMutation` | crates/joan-mock-ledger/src/lib.rs:375-405 | a mutation consumes its key, moves to the next revision and takes the root of the new content, or is refused |
| `Ledger.ReserveHold` | crates/joan-mock-ledger/src/lib.rs:245-313 | a reservation step by step is the specified mutation |
| `Ledger.DecideHold` | crates/joan-mock-ledger/src/lib.rs:315-373 | the application of a decision step by step is the specified mutation |
| `LedgerRules.CreationMeans` | crates/joan-mock-ledger/src/lib.rs:205-243 | a ledger is created if and only if there are accounts, all named, whose sum has 64 bits; it has these balances and nothing else, and verifies |
| `LedgerRules.ReserveMeans` | crates/joan-mock-ledger/src/lib.rs:245-313 | a reservation takes a ledger to another if and only if both verify, the request is in order, and they differ in the new hold, the balance of the buyer, the key and the revision alone |
| `LedgerRules.PaymentMeans` | crates/joan-mock-ledger/src/lib.rs:315-373 | a decision takes a ledger to another if and only if both verify, request and decision are in order, the buyer has the refund, the provider the release, the hold keeps the rest with the status of the remedy, and nothing else differs but the key and the revision |
| `LedgerConservation.ReserveSucceeds` | crates/joan-mock-ledger/src/lib.rs:245-313 | on a reachable ledger a reservation is refused by its own conditions, and otherwise succeeds exactly if the request and the new ledger can be encoded; no late check fails |
| `LedgerConservation.DecisionSucceeds` | crates/joan-mock-ledger/src/lib.rs:315-373 | on a reachable ledger a decision is refused by its own conditions, and otherwise succeeds exactly if the request and the new ledger can be encoded: no credit overflows, no re-check fails |
| `LedgerConservation.ValueIsConserved` | crates/joan-mock-ledger/src/lib.rs:205-405 | after any sequence of operations balances and locked amounts add up to the initial balances, and the ledger verifies |
| `LedgerConservation.KeysAreUsedOnce` | crates/joan-mock-ledger/src/lib.rs:407-427 | over any sequence of operations a key authorizes at most one mutation |
| `LedgerConservation.HoldsAreDecidedOnce` | crates/joan-mock-ledger/src/lib.rs:315-373 | over any sequence of operations a hold takes at most one decision and then never changes |
| `LedgerConservation.BalancesAreExplained` | crates/joan-mock-ledger/src/lib.rs:245-445 | every account holds what it started with, less its reservations, plus what decisions paid it |
| `LedgerConservation.EvaluatedDecisionsPay` | crates/joan-mock-ledger/src/lib.rs:315-373 | a decision evaluated for the value of a hold is applied exactly if the hold is still reserved and the new ledger can be encoded |

## Left out

- Noninterference.CompletedRunsDoNotInterfere: does not compare runs that fail, because checked arithmetic or an encoding of hidden values may fail in one of them only.
- Packages.ResolvePackage: does not characterise success by the length of pin chains, because a package already finished is not measured again, so that the depth limit depends on the order of visits.
- PatchOrder.PatchesCanBeUndone: does not write out the encodings of nodes, leaves and operations; it assumes that a node can be encoded where its leaf can.
- Attenuation.RemovingInstructionsKeepsAllow: does not write out the encodings of authorities, envelopes and receipts; a receipt for fewer instructions may have more to say, and then have no digest.
- Hashing, hexadecimal digests and constant-time comparison.
- The code generator and the machine code it emits, executable memory and calling conventions; sizes and relocations enter as reports.
- Message texts, diagnostic codes and source spans; the diagnostics of the instruction resolver.
- Conversions of indexes and lengths on machines whose addresses have fewer than 64 bits.
- The parser reads all binary levels with one method that takes the level, where the source has one method for each.
- The binding checks of the ABI other than the levels of a frame.
- The checks of an identity descriptor before effects are planned, which enter as one flag of the receipt.
- The bytes and names of package manifests and of stored sources: the store maps digests to what verifies under them.
- The validation of cases and evidence graphs, which enter a dispute as verified inputs, and the request digests in ledger receipts.
- Decoding canonical JSON, the older canonical form without UTF-16 order, and its digests with domain prefixes.
- Discovery of instruction files, reads from the package store, the command line, the host, the node and the WASM executor.
- The crates for cases, evidence, guardians, identities, trust, tool forging, conformance and simulation.
