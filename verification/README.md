# Stainless: verified models of the compiler and its runtime

Stainless is a C++-like language that is compiled to Rust. This project models three of its
mechanisms, and two smaller ones, and proves what they are for:

1. **The ownership pass** (`ownership.rs`). A flow-sensitive analysis of moves and loans over
   structured code that analyses every loop body exactly twice. `Ownership` says what it computes,
   statement by statement; `OwnershipPass` is the analyzer as it runs, with its state, diagnostics and
   stacks of loop and exception contexts, and computes the same (`OwnershipSteps` holds the pure part of
   that argument, `OwnershipReady` the states in which its loop over loan owners ends). `MoveRuns` gives
   the language its meaning as far as moves go: a run follows a tape of choices for conditions,
   iterations, raising calls and catching handlers. The results: two passes over a loop are a fixed point
   (`MoveShapes`), accepted code never uses a moved variable in any run (`MoveTheorem`), and loans are
   accounted for in every state the analysis passes through (`LoansKept` for its ends, `LoanPoints` for
   all states between). `Uses` lists what a function does with its bindings, and proves the diagnostics to
   be the complaints about that; `UsesAllowed` says what an accepted function may do while there are loans,
   what references it returns, and when loans end. `MoveLimits` shows what the pass misses,
   `InheritedLoans` where it is stricter than the loans.
2. **The control-flow and exception compiler** (`hir_lowering.rs`, `codegen.rs`). Source statements are
   lowered to a tree with explicit exception targets and labels, and emitted as Rust labelled blocks,
   loops, `break 'label Err(..)` and `return Err(..)`. `SourceSemantics` and `RustTarget` are fuel-indexed
   semantics of both sides; `LoweringCorrect` proves that the emitted program means what the source
   means. `Lowerer` and `Emitter` are the stateful passes and compute the same trees. `Divergence`,
   `Labels` and `Validator` treat the static decisions the emitted code depends on and what the structural
   checks report; `EmittedText` is about the emitted code as Rust checks it.
3. **The shared JSON graph** (`stainless-runtime/src/lib.rs`). Arrays and objects are nodes shared by
   reference; a mutation holds one global mutex from its cycle check to its write. `JsonThreads` models
   any number of threads as single steps on locks: the graph stays acyclic in every interleaving, no
   thread can deadlock or ask for a lock twice, mutations are atomic, and (`JsonProgress`) operations end.
   `JsonTrees` treats reading and writing documents, `JsonRuntime` the mutators in place, and
   `JsonMeaning` says what they do in terms of lists and maps.
4. **Package resolution** (`package.rs`, modules `Packages` and `PackageSuccess`) and the **JSON support check**
   on struct types (`hir_lowering.rs`, module `JsonSupport`).

Resolved facts that other passes provide (types, copyability, which calls throw, which conversions were
inserted, last uses) are stored on the nodes of the syntax tree. "Tracked" code, which the move theorem
asks for, moves whole named variables only and, inside the block of a `try`, has no native-result
conversion in a construction and no JSON range loop. The theorem also uses one fact of resolved trees
(`ResolvedBlock`): no reference or guard is initialized by a conversion or by a throwing default
constructor. A conversion takes a declared type that is not a reference (resolver.rs:3060-3076 and
3376-3385), guard types can be neither written nor constructed (README.md:2191-2196,
resolver.rs:1992-2001 and 2399-2406), and a reference without an initializer is rejected
(semantics.rs:233-242).

The code and its documentation disagree in two places, and the model follows the code. The documentation
says that the pass preserves the exceptional paths of inserted result conversions (README.md:3425-3427);
for conversions inside constructions it does not (`MoveLimits.ConversionsInConstructionsAreUnrecorded`).
A rethrow is documented as valid anywhere inside a handler (README.md:1702-1706); inside a `try` nested in
the handler it is validated but not lowered (`Validator.NestedRethrowIsValidButNotLowerable`, and
`Validator.ValidatedFunctionsLower` for the exact condition). The move theorem cannot be an equivalence:
the pass joins paths and analyses handlers that are never entered, so it also rejects code that never
faults.

## Model

| member | source | states |
|---|---|---|
| MoveTheorem.AcceptedFunctionsNeverFault | crates/stainless-compiler/src/ownership.rs:339-1319 | a function accepted without diagnostics uses no variable while it is moved out, in any run: any outcome of conditions, any number of iterations, any raising call raising, through `break`, `continue`, `return`, `throw` and handlers, for code that meets `TrackedBlock` and comes out of resolution (`ResolvedBlock`) |
| MoveTheorem.Validate | crates/stainless-compiler/src/ownership.rs:15-33 | running the analyzer on a function decides acceptance; an accepted tracked function that comes out of resolution never faults |
| MoveTheorem.SecondIterationRepeats | crates/stainless-compiler/src/ownership.rs:577-769 | a silent second analysed iteration ends with the same names and the same availability as the first, nested loops, jumps and `try` included |
| MoveShapes.TwoPassesSuffice | crates/stainless-compiler/src/ownership.rs:577-769 | for every loop the second iteration of the availability analysis reproduces the first, so the exits of two passes are those of any number of iterations |
| LoopPasses.StatementPair | crates/stainless-compiler/src/ownership.rs:339-440 | every statement changes the status of every name in two runs of the analysis by one and the same change: keep, overwrite, or join something |
| LoopPasses.CheckPair | crates/stainless-compiler/src/ownership.rs:817-994 | the same for expressions |
| LoopPasses.JoinManyPair | crates/stainless-compiler/src/ownership.rs:1664-1692 | joining states preserves that relation |
| MoveSoundness.ExecSound | crates/stainless-compiler/src/ownership.rs:339-440 | at every end of a statement the concrete store lies in the abstract state for that end, or in one of the recorded jump or exception states |
| MoveSoundness.EvalSound | crates/stainless-compiler/src/ownership.rs:817-994 | the same for expressions, including short circuits, switches and calls that raise half way |
| MoveSoundness.LoopSound | crates/stainless-compiler/src/ownership.rs:577-769 | any number of iterations stays within the two analysed ones |
| MoveSoundness.TrySound | crates/stainless-compiler/src/ownership.rs:365-410 | a handler starts from a state that covers every store its block can raise in; sibling handlers do not see each other |
| MoveSoundness.JoinManyCovered | crates/stainless-compiler/src/ownership.rs:1664-1692 | a store in any one of several states is in their join |
| MoveViewsAgree.FunctionAgrees | crates/stainless-compiler/src/ownership.rs:237-271 | a silent run of the full pass computes exactly the availability analysis |
| MoveViewsAgree.StatementAgrees | crates/stainless-compiler/src/ownership.rs:339-440 | the same statement by statement, with every recorded exit |
| MoveViewsAgree.CheckAgrees | crates/stainless-compiler/src/ownership.rs:817-994 | the same for expressions |
| MoveViewsAgree.MergeAgrees | crates/stainless-compiler/src/ownership.rs:1664-1673 | the join over binding ids is the join over visible names |
| MoveShapes.StatementDeep | crates/stainless-compiler/src/ownership.rs:339-440 | a statement leaves the names and types of all scopes around it alone, in its end state and in every recorded one |
| MoveLimits.PlaceMovesAreUnchecked | crates/stainless-compiler/src/ownership.rs:1000-1024 | `move` of a field or element of a moved variable is accepted, `move` of the variable itself is not; all such functions fault |
| MoveLimits.ConversionsInConstructionsAreUnrecorded | crates/stainless-compiler/src/ownership.rs:1321-1364 | a conversion of a native result inside a construction is not recorded as a point that may raise: of the functions that build a value from native calls, all accepted, exactly those that convert one of the results can use a moved variable in a handler |
| MoveLimits.JsonLoopsAreUnrecorded | crates/stainless-compiler/src/ownership.rs:677-730 | likewise for the snapshot of a range loop: of two functions that loop over their parameter, a vector or JSON, both accepted, exactly the one over JSON can use a moved variable in a handler |
| OwnershipPass.Analyzer.CheckExpression | crates/stainless-compiler/src/ownership.rs:817-939 | state, origin, diagnostics and exception contexts after checking an expression |
| OwnershipPass.Analyzer.CheckLogical | crates/stainless-compiler/src/ownership.rs:962-972 | the right operand of `&&` and `||` may not run |
| OwnershipPass.Analyzer.CheckAssign | crates/stainless-compiler/src/ownership.rs:941-956 | right side first, then the points that may raise, then the write |
| OwnershipPass.Analyzer.WriteTo | crates/stainless-compiler/src/ownership.rs:974-994 | assigning a whole binding makes it available again; a reference is written through |
| OwnershipPass.Analyzer.CheckWholeCall | crates/stainless-compiler/src/ownership.rs:996-1319 | operands, loans given back, then the point that may raise |
| OwnershipPass.Analyzer.PassArguments | crates/stainless-compiler/src/ownership.rs:1366-1409 | temporary loans are held while later arguments are checked |
| OwnershipPass.Analyzer.CheckConstruction | crates/stainless-compiler/src/ownership.rs:1321-1364 | elements are checked in order without noting exceptions |
| OwnershipPass.Analyzer.Use | crates/stainless-compiler/src/ownership.rs:1460-1487 | one report at most, of a moved, possibly moved or borrowed binding |
| OwnershipPass.Analyzer.CheckBorrowConflict | crates/stainless-compiler/src/ownership.rs:1489-1516 | reports exactly the conflicting uses |
| OwnershipPass.Analyzer.MoveOut | crates/stainless-compiler/src/ownership.rs:1518-1528 | marks a binding moved only if that was allowed |
| OwnershipPass.Analyzer.AcquirePersistentLoan | crates/stainless-compiler/src/ownership.rs:1530-1570 | loan on the root of the reference chain, after ending a loan whose last use lies in the initializer |
| OwnershipPass.Analyzer.TakeLoan | crates/stainless-compiler/src/ownership.rs:1572-1594 | a loan is taken exactly when it does not conflict |
| OwnershipPass.Analyzer.CheckReturned | crates/stainless-compiler/src/ownership.rs:1596-1621 | reports reference returns that do not originate from the declared input |
| OwnershipPass.Analyzer.Push | crates/stainless-compiler/src/ownership.rs:1623-1628 | a diagnostic is emitted once per code and place |
| OwnershipPass.Analyzer.ReleaseExpiredLoans | crates/stainless-compiler/src/ownership.rs:1630-1651 | ends exactly the loans that expired, in declaration order |
| OwnershipPass.Analyzer.EndLoan | crates/stainless-compiler/src/ownership.rs:1653-1661 | releases and deactivates the loan of one reference |
| OwnershipPass.Analyzer.Block | crates/stainless-compiler/src/ownership.rs:321-337 | statements until the first that ends control, with a scope if asked |
| OwnershipPass.Analyzer.Statement | crates/stainless-compiler/src/ownership.rs:339-440 | fields and reachability after any statement |
| OwnershipPass.Analyzer.LocalDeclared | crates/stainless-compiler/src/ownership.rs:442-490 | a local borrows or copies its initializer and is declared |
| OwnershipPass.Analyzer.IfStatement | crates/stainless-compiler/src/ownership.rs:492-518 | branches start from one state and are joined where both end |
| OwnershipPass.Analyzer.TryStatement | crates/stainless-compiler/src/ownership.rs:365-410 | exception context around the block, handlers from the joined exception states |
| OwnershipPass.Analyzer.WhileStatement | crates/stainless-compiler/src/ownership.rs:577-608 | loop context, condition, two iterations, joined exits |
| OwnershipPass.Analyzer.ClassicFor | crates/stainless-compiler/src/ownership.rs:610-641 | initializer, condition and loop |
| OwnershipPass.Analyzer.RangeFor | crates/stainless-compiler/src/ownership.rs:677-730 | the loan on the range lasts for the loop |
| OwnershipPass.Analyzer.RunIteration | crates/stainless-compiler/src/ownership.rs:643-675 | scope, body, states that continue, and the tail from each of them |
| OwnershipPass.Analyzer.RunTail | crates/stainless-compiler/src/ownership.rs:771-785 | update and condition, with the state put back |
| OwnershipPass.Analyzer.CaptureLoopExit | crates/stainless-compiler/src/ownership.rs:787-804 | the state without inner scopes goes to the innermost loop |
| OwnershipPass.Analyzer.CaptureException | crates/stainless-compiler/src/ownership.rs:806-815 | the state goes to every enclosing `try`, without the scopes inside it |
| OwnershipPass.Analyzer.Function | crates/stainless-compiler/src/ownership.rs:237-271 | parameters, body and final scope |
| OwnershipPass.MergeStates | crates/stainless-compiler/src/ownership.rs:1664-1673 | availability of all bindings in scope is joined, all else is kept |
| OwnershipPass.MergeManyStates | crates/stainless-compiler/src/ownership.rs:1675-1682 | left fold of the join |
| OwnershipPass.RootOriginOf | crates/stainless-compiler/src/ownership.rs:1695-1706 | the loop over loan owners ends and finds the root in every state whose owners are older than their borrowers; the analyzer calls it where the source does, and all its states are of that kind |
| LoanPoints.LoansHoldThroughout | crates/stainless-compiler/src/ownership.rs:237-271 | in every state the analysis of a function passes through (inside calls while temporary loans are held, between statements, in both passes over every loop, in branches and handlers, while scopes are closed): an active mutable loan is flagged and is the only loan on its owner, shared counts cover the active shared loans, owners are older than borrowers; without `try` counts and flags are exactly the loans that are active or held |
| LoanPoints.ChainsEndThroughout | crates/stainless-compiler/src/ownership.rs:1695-1706 | in every such state the chain of owners of every binding ends at a binding that borrows nothing, or at a guard |
| LoanPoints.StatementSound | crates/stainless-compiler/src/ownership.rs:339-440 | started from an exact account, every state a statement passes through keeps the account, up to what a handler may inherit |
| LoanPoints.ExpressionSound | crates/stainless-compiler/src/ownership.rs:817-1319 | the same for every state inside an expression, with the loans of the calls under way |
| LoansKept.FunctionsRespectLoans | crates/stainless-compiler/src/ownership.rs:806-815 | the same three facts at the end of a function and in every state recorded where it may raise |
| LoansKept.LoansReturnToZero | crates/stainless-compiler/src/ownership.rs:74-143 | in functions without `try` all counts are back to zero at the end |
| LoansKept.StatementKept | crates/stainless-compiler/src/ownership.rs:339-440 | every statement keeps the exact account of loans, up to what a handler may inherit |
| OwnershipLoans.BalancedRespectsLoans | crates/stainless-compiler/src/ownership.rs:1530-1594 | the account implies the flags, the exclusion and the counts |
| OwnershipLoans.RootOriginEnds | crates/stainless-compiler/src/ownership.rs:1695-1706 | following references ends at a binding that borrows nothing, or at a guard |
| OwnershipLoans.PersistentBalanced | crates/stainless-compiler/src/ownership.rs:1530-1570 | acquiring a lasting loan keeps the account |
| OwnershipLoans.EndLoanBalanced | crates/stainless-compiler/src/ownership.rs:1653-1661 | ending a loan keeps the account |
| Uses.FunctionReported | crates/stainless-compiler/src/ownership.rs:237-1661 | the diagnostics of a function are, one by one and in order, the complaints about what it does: every read, write, move, assignment, borrow, loan and returned reference, in the state it happens in; a complaint is about a missing value, a conflicting loan, a loan on nothing, or a reference from elsewhere |
| Uses.ExpressionReported | crates/stainless-compiler/src/ownership.rs:817-1409 | the same for an expression, with the usage each part is put to |
| UsesAllowed.AcceptedUsesAreAllowed | crates/stainless-compiler/src/ownership.rs:1460-1528 | in an accepted function nothing is moved, written, reassigned or lent mutably while any reference, call or loop has a loan on it, nothing is read or lent while there is a mutable loan on it, and nothing is used without its value |
| UsesAllowed.AllowedUsesAreAccepted | crates/stainless-compiler/src/ownership.rs:1460-1516 | without `try` the converse: a use is reported exactly if the binding has no value or such a loan stands against it |
| InheritedLoans.HandlersMayInheritLoans | crates/stainless-compiler/src/ownership.rs:806-815 | with `try` the converse fails: a handler that starts from a state recorded during a call may find a loan that nobody holds any more, and a harmless read is reported |
| UsesAllowed.ReturnsAreReported | crates/stainless-compiler/src/ownership.rs:1596-1621 | a returned reference is reported exactly if it has no origin, or its chain of loan owners does not end where that of the receiver, or of the only reference parameter, ends; with neither of those always |
| UsesAllowed.InputIsReturnBorrow | crates/stainless-compiler/src/ownership.rs:1708-1720 | references may be returned from the receiver, or else from the only reference parameter |
| UsesAllowed.RootIsTheEnd | crates/stainless-compiler/src/ownership.rs:1695-1706 | the root of a binding is the end of its chain of loan owners |
| UsesAllowed.AcceptedExactly | crates/stainless-compiler/src/ownership.rs:15-33 | a function is accepted exactly if every use finds its binding with a value and no conflicting flag or count, every lasting loan is on a binding, and every returned reference comes from the input |
| UsesAllowed.LoansLastToTheirLastUse | crates/stainless-compiler/src/ownership.rs:1630-1651 | a declared reference keeps its loan exactly up to its last use, and as long as a deeper loop is analysed |
| UsesAllowed.DueLoansEnd | crates/stainless-compiler/src/ownership.rs:1630-1651 | exactly the loans that are due end |
| UsesAllowed.LoansEndWithStatements | crates/stainless-compiler/src/ownership.rs:321-337 | behind a statement exactly the loans due at its end are over |
| UsesAllowed.LoansEndWithLoops | crates/stainless-compiler/src/ownership.rs:577-641 | no loan that is due at the end of a loop outlasts it |
| UsesAllowed.ReportedMovesDoNotHappen | crates/stainless-compiler/src/ownership.rs:1518-1528 | a move takes place exactly if there is no complaint about it |
| UsesAllowed.InputsComeFirst | crates/stainless-compiler/src/ownership.rs:237-271 | the first bindings are the receiver and the parameters, in order |
| OwnershipSteps.EmittedOnce | crates/stainless-compiler/src/ownership.rs:1623-1628 | diagnostics are kept once each, those made before in front |
| OwnershipFrames.ExpressionKeepsLoans | crates/stainless-compiler/src/ownership.rs:817-1319 | an expression leaves all loans as they were; states recorded inside it hold only additional loans that were free when taken |
| OwnershipScopes.StatementFramed | crates/stainless-compiler/src/ownership.rs:339-440 | the pass keeps scopes balanced and bindings in place |
| LoweringCorrect.CompilationPreservesMeaning | crates/stainless-compiler/src/hir_lowering.rs:713-841 | for every body lowering accepts, every label and temporary the numbering starts from, every environment, every behaviour of called functions and any amount of fuel, unless a run reaches the end of a body that must return a value: the emitted labelled-block program ends as the source does, with the same variables and the same calls made |
| LoweringCorrect.StaticallyEndsWithValue | crates/stainless-compiler/src/hir_lowering.rs:4133-4192 | no run reaches the end of a body that cannot end by its text: one that is judged not to fall through, or that has a loop without a condition and without a `break` where it would have to go on |
| LoweringCorrect.StatementAgrees | crates/stainless-compiler/src/hir_lowering.rs:839-934 | the same for every statement in every surrounding loop, `try` and handler |
| LoweringCorrect.EvalAgrees | crates/stainless-compiler/src/codegen.rs:1628-1641 | expressions agree; a raised error goes to the current target |
| LoweringCorrect.TryAgrees | crates/stainless-compiler/src/codegen.rs:852-927 | the labelled block and the test after it do what `try` does |
| LoweringCorrect.CatchesAgree | crates/stainless-compiler/src/codegen.rs:867-897 | the reverse-folded nested tests behave as the handlers in source order |
| LoweringCorrect.ProjectFindsBase | crates/stainless-compiler/src/codegen.rs:276-313 | the generated chain walk finds the part of the declared type |
| LoweringCorrect.ClassicForAgrees | crates/stainless-compiler/src/codegen.rs:929-977 | the `first` flag makes `continue` run the update exactly once before the next test |
| LoweringCorrect.WhileAgrees | crates/stainless-compiler/src/hir_lowering.rs:1152-1160 | `while` keeps its meaning with jumps out of nested blocks |
| LoweringCorrect.RangeForAgrees | crates/stainless-compiler/src/hir_lowering.rs:1026-1150 | range loops, with the checked JSON snapshot |
| LoweringCorrect.PropagationRaises | crates/stainless-compiler/src/codegen.rs:2258-2269 | propagation leaves through the labelled block or the function |
| RunFacts.MoreFuel | README.md:1684-1820 | a source run that ends does not depend on the fuel |
| RunFacts.EndIsUnique | README.md:1684-1820 | all ends of a source function are the same end |
| RunFacts.TerminationPreserved | crates/stainless-compiler/src/hir_lowering.rs:713-841 | under the same condition the emitted function ends exactly when the source function does |
| RunFacts.CatchDispatch | README.md:1716-1740 | the first handler in source order on the base chain runs; an unmatched error passes on unchanged |
| EmittedText.ReturnsFit | crates/stainless-compiler/src/codegen.rs:2258-2269 | all returns of an emitted function are of a `Result` exactly if the function may throw, or shields every throw and every call that may raise by the block of a `try`; so a function that may not throw and shields them never returns an error |
| EmittedText.UnmatchedErrorsAreReturned | crates/stainless-compiler/src/hir_lowering.rs:936-988 | where the function may throw, an error no handler of an outermost `try` accepts is returned as one |
| EmittedText.ReturningBodiesDiverge | crates/stainless-compiler/src/codegen.rs:852-927 | a body that returns on every path is emitted so that its end cannot be reached, as Rust asks of a function with a result |
| EmittedText.BlockJudgementsAgree | crates/stainless-compiler/src/hir_lowering.rs:4133-4192 | where no jump leaves a block, it is judged to return on every path exactly if it is judged not to fall through |
| EmittedText.ImplicitReturns | crates/stainless-compiler/src/hir_lowering.rs:776-801 | a return is added to a void body exactly if the function has something to return and the end of its body may be reached |
| DivergenceSound.StaticDivergenceIsSound | crates/stainless-compiler/src/hir_lowering.rs:4133-4192 | a block judged to return, or not to fall through, never ends normally, so the `unreachable!` arm is never reached |
| DivergenceSound.NormalStatementsFallThrough | crates/stainless-compiler/src/hir_lowering.rs:4140-4170 | what can end normally is judged to fall through |
| DivergenceSound.RunsEndAsWritten | crates/stainless-compiler/src/hir_lowering.rs:4140-4171 | every run of a statement ends as its text says: it breaks out only if there is a `break` of the surrounding loop, and ends normally only past returns, throws, jumps and loops without a condition and without a `break` |
| DivergenceSound.CanEndFallsThrough | crates/stainless-compiler/src/hir_lowering.rs:4140-4171 | what can end normally in that sense is judged to fall through |
| DivergenceSound.EndlessLoopsDoNotFallThrough | crates/stainless-compiler/src/hir_lowering.rs:4140-4171 | a loop without a condition whose body never breaks out of it never ends normally, so a body that must return a value may end in one |
| Labels.FunctionLabelDiscipline | crates/stainless-compiler/src/hir_lowering.rs:936-988 | all generated labels are distinct, within a function and from one function to the next; every jump sits inside the construct it names, every source jump names its innermost source loop |
| Labels.StatementDisciplined | crates/stainless-compiler/src/hir_lowering.rs:1026-1183 | the same for every statement in its surroundings |
| Validator.LoweringAccepts | crates/stainless-compiler/src/hir_lowering.rs:839-1183 | lowering succeeds exactly on the statements that meet a condition on their text |
| Validator.ValidatedJumps | crates/stainless-compiler/src/semantics.rs:130-210 | lowering never fails on a jump outside a loop in code that passes validation |
| Validator.ValidatedFunctionsLower | crates/stainless-compiler/src/semantics.rs:95-210 | a function that passes validation is lowered exactly if it has none of what validation overlooks: a lone `;` as a branch or loop body, and a rethrow in a `try` that itself stands in a handler |
| Validator.FunctionReportsAreBroken | crates/stainless-compiler/src/semantics.rs:130-210 | the reports on a function are, in order, the rules its statements and handlers break: a jump outside a loop, a rethrow outside a handler, a value returned or not against the signature, a catch-all that is not last |
| Validator.NestedRethrowIsValidButNotLowerable | crates/stainless-compiler/src/hir_lowering.rs:936-988 | a bare `throw;` in a `try` inside a handler passes validation and is not lowered |
| Validator.StructuralValidator.ValidateStatement | crates/stainless-compiler/src/semantics.rs:130-210 | the validator reports exactly the specified violations and restores its handler depth |
| Lowering.Lowerer.LowerOne | crates/stainless-compiler/src/hir_lowering.rs:839-934 | the stateful lowering of a statement computes the specified tree and counters and restores its fields |
| Lowering.Lowerer.LowerTry | crates/stainless-compiler/src/hir_lowering.rs:936-988 | target, caught error and label are set for the block and the handlers and put back |
| Lowering.Lowerer.LowerLoopBody | crates/stainless-compiler/src/hir_lowering.rs:1162-1167 | the label is pushed for the body and popped |
| Lowering.Lowerer.LowerLoopJump | crates/stainless-compiler/src/hir_lowering.rs:1169-1183 | jumps take the innermost label |
| Lowering.Lowerer.LowerFunctionBody | crates/stainless-compiler/src/hir_lowering.rs:713-826 | the body and its implicit return |
| Codegen.Emitter.Statement | crates/stainless-compiler/src/codegen.rs:709-830 | the stateful emission of a statement computes the specified Rust and temporaries |
| Codegen.Emitter.TryStatement | crates/stainless-compiler/src/codegen.rs:852-927 | labelled block, result and handlers built in a reverse loop |
| Codegen.Emitter.ClassicFor | crates/stainless-compiler/src/codegen.rs:929-1002 | `loop`, condition check, and update step with its flag |
| JsonThreads.AlwaysAcyclic | crates/stainless-runtime/src/lib.rs:1344 | in every interleaving of any number of threads that construct, read and mutate, the graph is acyclic at every moment |
| JsonThreads.StepKeepsInvariant | crates/stainless-runtime/src/lib.rs:1479-1612 | every lock, check, write and unlock step keeps the locks exclusive, the walks on paths and the graph acyclic |
| JsonThreads.NoDeadlock | crates/stainless-runtime/src/lib.rs:2026-2043 | in every reachable state some unfinished thread can step, even if a waiting writer keeps new readers out |
| JsonThreads.NoLockTwice | crates/stainless-runtime/src/lib.rs:2032-2043 | no thread asks for a lock it holds |
| JsonThreads.MutationsAreAtomic | crates/stainless-runtime/src/lib.rs:1479-1612 | a mutation changes nothing until its last step, which does to the heap of that moment what the whole mutation does at once, refusals included |
| JsonThreads.CheckComplete | crates/stainless-runtime/src/lib.rs:2046-2076 | a finished interleaved check has decided reachability in the heap of that moment |
| JsonProgress.OperationsEnd | crates/stainless-runtime/src/lib.rs:1479-1803 | a run of any threads that starts no new operation is no longer than a bound computed from its first state, and where no thread can step all operations are done |
| JsonProgress.OperationsCanFinish | crates/stainless-runtime/src/lib.rs:1479-1803 | from every reachable state the operations under way can all be completed |
| JsonProgress.StepsShrink | crates/stainless-runtime/src/lib.rs:1479-1803 | every step of an operation under way decreases a measure |
| JsonCycles.SearchDecidesReach | crates/stainless-runtime/src/lib.rs:2046-2076 | started from an empty visited set the search answers true exactly when the target is reachable |
| JsonCycles.CycleSearch.ContainsAggregate | crates/stainless-runtime/src/lib.rs:2046-2076 | the search with its shared visited set and early stop, as it runs |
| JsonHeaps.RewiringKeepsAcyclic | crates/stainless-runtime/src/lib.rs:2046-2054 | an edge to a node that does not lead back makes no cycle |
| JsonHeaps.RewiringMakesCycle | crates/stainless-runtime/src/lib.rs:2046-2054 | an edge to a node that does lead back makes one |
| JsonHeaps.NewNodeKeepsAcyclic | crates/stainless-runtime/src/lib.rs:1356-1380 | constructors keep the graph acyclic |
| JsonValues.MutationKeepsAcyclic | crates/stainless-runtime/src/lib.rs:1479-1612 | every mutator keeps the graph well formed and acyclic, touches one node, and changes nothing when it fails |
| JsonValues.CycleRefusedExactly | crates/stainless-runtime/src/lib.rs:1479-1612 | a mutation in range is refused as a cycle exactly when it would make one |
| JsonValues.PutOrdered | crates/stainless-runtime/src/lib.rs:1368-1380 | setting a member is a map update and keeps the order of names |
| JsonMeaning.ArraysAreLists | crates/stainless-runtime/src/lib.rs:1497-1614 | set, push, pop, insert, remove and clear act on an array as on a list: its new length, every element by index, and the value handed back; nothing else changes |
| JsonMeaning.ObjectsAreMaps | crates/stainless-runtime/src/lib.rs:1479-1614 | set, remove and clear act on an object as on a map: the value of every name and the value handed back; nothing else changes |
| JsonMeaning.FailsExactly | crates/stainless-runtime/src/lib.rs:1479-1614 | a mutation fails exactly if its receiver is of the wrong kind, else if it would close a cycle, else if its index is out of range, with the error of the first of these |
| JsonMeaning.PushThenPop | crates/stainless-runtime/src/lib.rs:1521-1542 | what was pushed is popped, and the array is as before |
| JsonMeaning.InsertThenRemove | crates/stainless-runtime/src/lib.rs:1550-1586 | what was inserted is removed at its index, and the array is as before |
| JsonMeaning.LaterMembersWin | crates/stainless-runtime/src/lib.rs:1366-1380 | an object made from members has for every name the value of the last of them |
| JsonMeaning.UnfoldingShows | crates/stainless-runtime/src/lib.rs:1787-1803 | a value unfolds kind by kind: scalars to themselves, elements by index, members by position |
| JsonTrees.ReadThenWrite | crates/stainless-runtime/src/lib.rs:1772-1803 | for every document `to_value(from_value(j)) == j`; reading touches only fresh nodes and changes no older unfolding |
| JsonTrees.MutationIsLocal | crates/stainless-runtime/src/lib.rs:1787-1803 | a mutation changes only the unfoldings of values that lead to the node |
| JsonTrees.SameUnfolding | crates/stainless-runtime/src/lib.rs:1787-1803 | an unfolding depends only on the nodes below the value |
| JsonRuntime.WriteThenRead | crates/stainless-runtime/src/lib.rs:1772-1803 | a copy through a document unfolds as the original and shares no node with it |
| JsonRuntime.MembersStayOrdered | crates/stainless-runtime/src/lib.rs:1479-1490 | member assignment and removal act as on a map and keep names ordered |
| JsonRuntime.Runtime.SetField | crates/stainless-runtime/src/lib.rs:1479-1488 | check before write; the new heap and the result are those specified |
| JsonRuntime.Runtime.SetIndex | crates/stainless-runtime/src/lib.rs:1497-1513 | replaces or extends with `null`, unless the index is the largest |
| JsonRuntime.Runtime.Push | crates/stainless-runtime/src/lib.rs:1521-1529 | appends after the check |
| JsonRuntime.Runtime.Pop | crates/stainless-runtime/src/lib.rs:1536-1542 | last element, or `null` when empty |
| JsonRuntime.Runtime.Insert | crates/stainless-runtime/src/lib.rs:1550-1565 | the cycle check comes before the bounds check |
| JsonRuntime.Runtime.RemoveIndex | crates/stainless-runtime/src/lib.rs:1573-1586 | removes in range, otherwise fails unchanged |
| JsonRuntime.Runtime.RemoveField | crates/stainless-runtime/src/lib.rs:1593-1599 | removes a member, or gives `null` |
| JsonRuntime.Runtime.Clear | crates/stainless-runtime/src/lib.rs:1606-1614 | empties an aggregate of its own kind |
| JsonRuntime.Runtime.NewObject | crates/stainless-runtime/src/lib.rs:1366-1380 | later duplicates replace earlier ones |
| JsonRuntime.Runtime.RejectCycle | crates/stainless-runtime/src/lib.rs:2046-2054 | accepts exactly the values that do not lead to the target |
| Packages.ResolutionIsComplete | crates/stainlessc/src/package.rs:45-160 | on success the roots are exactly the packages the root leads to, each once, dependencies first and under their own names; names are unique and no source is listed twice |
| Packages.CyclesAreFound | crates/stainlessc/src/package.rs:74-79 | where the root leads to a cycle, resolution fails |
| Packages.ReportedCyclesExist | crates/stainlessc/src/package.rs:74-79 | a reported cycle exists and is reachable |
| Packages.Resolver.VisitPackage | crates/stainlessc/src/package.rs:58-160 | the recursive visit over the fields of the resolver computes the specified state or error |
| Packages.Resolver.FinishPackage | crates/stainlessc/src/package.rs:127-160 | native dependencies, sources and the final bookkeeping; what they come to is stated by `EverythingIsGathered` and `SourcesAreOrdered` |
| Packages.ResolvePackage | crates/stainlessc/src/package.rs:45-55 | sources, roots and native dependencies, or the first error |
| PackageSuccess.ResolutionSucceedsExactly | crates/stainlessc/src/package.rs:45-160 | a package is resolved if and only if every package it leads to can be read and is in order, package names and the directories of native dependencies agree, and no package it leads to is on a cycle |
| PackageSuccess.EverythingIsGathered | crates/stainlessc/src/package.rs:127-160 | on success native dependencies are exactly those of the listed packages, and a file is gathered exactly if a listed package names it among its sources or it is the main file of the requested package; main files of others are neither gathered nor checked |
| PackageSuccess.SourcesAreOrdered | crates/stainlessc/src/package.rs:45-160 | sources come package by package in the order of the roots, in each as listed, the main file last, without repetitions |
| PackageSuccess.ErrorsAreTrue | crates/stainlessc/src/package.rs:58-160 | whatever error a resolution ends in, what it says is so, in a package the root leads to |
| JsonSupport.SupportDecided | crates/stainless-compiler/src/hir_lowering.rs:366-430 | the check accepts a struct exactly when all it leads to have bases in order, distinct flattened names and convertible types, and none contains itself |
| JsonSupport.SupportMeans | crates/stainless-compiler/src/hir_lowering.rs:366-430 | the same in terms of the structs themselves: bases that exist and do not repeat, and among the fields of a struct and all its bases distinct names and convertible types |
| JsonSupport.FieldsAreInherited | crates/stainless-compiler/src/hir_lowering.rs:374-396 | the fields that are checked are those of the struct and of all structs on its base chain, and none besides |
| JsonSupport.ContainedExactly | crates/stainless-compiler/src/hir_lowering.rs:388-396 | a struct leads to exactly those that these fields mention |
| JsonSupport.Checker.StructureSupported | crates/stainless-compiler/src/hir_lowering.rs:366-400 | terminates and restores the set of structs being visited |
| JsonSupport.Checker.Hierarchy | crates/stainless-compiler/src/hir_lowering.rs:374-387 | the base chain, or nothing where it repeats or breaks off |
| JsonSupport.Checker.IsSupported | crates/stainless-compiler/src/hir_lowering.rs:402-430 | the check on types |

## Left out

- Lambdas, callbacks, async functions, threads and generated wrappers: the ownership pass does not analyse their bodies.
- Constructors with member initializers, implicit-receiver field access, member macros and string formatting in the ownership pass.
- Native consuming receivers, which the pass only reads; consumption is modelled for explicit moves, returns and the unwrap forms.
- Spans of last uses are inputs; the collector that computes them is not modelled.
- MoveTheorem.AcceptedFunctionsNeverFault: asks for tracked code, because `MoveLimits` shows families of untracked code for which the property fails.
- LoansKept.LoansReturnToZero: asks for code without `try`, because a handler may start while loans of an interrupted call are still counted; there `LoanPoints.LoansHoldThroughout` states what holds in every state.
- UsesAllowed.AllowedUsesAreAccepted: asks for code without `try`, because `InheritedLoans.HandlersMayInheritLoans` shows a function with `try` for which it fails; `UsesAllowed.AcceptedExactly` holds for all code, in terms of flags and counts.
- Run-time validity of references declared in the initializer of a three-clause loop.
- LoweringCorrect.CompilationPreservesMeaning: an exception that escapes a function declared not to throw may also end in the generated `unreachable!`, because the effect checks that exclude it are not modelled; a run that reaches the end of a value-returning body has no Rust meaning and is excluded.
- Boxing of temporaries, borrowing modes, overloads, and the text of tokens in code generation; range loops bind plain variables.
- Type, name and overload resolution (the one fact used of it is the hypothesis `ResolvedBlock`), the parser, and the checks of local, parameter and handler declarations in the validator.
- Reclaiming and reusing the memory of JSON nodes: nodes are numbered and never reused.
- Text of JSON documents, numeric coercions, equality of values, and reading files.
- Errors of the file system in package resolution are part of the input: which manifests can be read and what paths resolve to.
- The multimap, import trees and import order, the fixed-width codecs and other runtime helpers: smaller, separate mechanisms.
