# Verified model of the console driver's platform-free logic

The repository drives Windows administration consoles and judges what a gesture did to the system. This project models
the logic that its verdicts rest on, in Dafny, and proves what that logic keeps. Floating point is not modelled; times are
reals.

| file | models |
|---|---|
| `Options.dfy`, `Text.dfy`, `Numerals.dfy` | optional values; ordering, sorting, splitting, joining and stripping of strings; decimal numerals |
| `Values.dfy`, `Formatting.dfy`, `Predicates.dfy` | the bounded predicate language: values and operators, `%` on strings, validator, evaluator, reference extractor |
| `OperatorLaws.dfy`, `FormattingLaws.dfy` | what the operators mean on each kind of value, and what a conversion shows |
| `EvaluationLaws.dfy`, `EvaluationPaths.dfy` | what the evaluator means, which parts of a predicate it comes to, and what it can raise |
| `Envelopes.dfy`, `Footprint.dfy` | bindings, clauses, delta and assertion of an envelope; what the evaluator reads against what the extractor reports |
| `Convergence.dfy` | the poll, freeze and reproduce loop |
| `Flattening.dfy`, `Literals.dfy`, `Arguments.dfy` | flattening of nested capability arguments and their substitution into predicates |
| `Transactions.dfy` | the transaction state machine and its log |
| `Executions.dfy`, `Interpolation.dfy`, `Executor.dfy` | a capability run from lease to record, over every behaviour of its collaborators |
| `RunProperties.dfy`, `RunOutputs.dfy` | what every run keeps, how runs end, and what they bank |
| `Records.dfy`, `RecordProperties.dfy`, `CanonicalJson.dfy` | the emitted record, its validator, and the canonical JSON it binds |
| `Channels.dfy` | the channel contract and the helper requests of the gesture primitives |
| `Leases.dfy`, `FileLeases.dfy` | the in-memory lease registry, and the lock-file registry shared by processes |
| `Transport.dfy` | request identifiers, client timeouts and the bounded drain of stale replies |
| `ScriptsIni.dfy`, `ScriptEntries.dfy`, `ScriptSlots.dfy`, `QuotedCsv.dfy` | the scripts.ini parser and the quoted-CSV fields of security templates |
| `CertTmpl.dfy`, `CertTmplEmission.dfy`, `CertTmplClaims.dfy` | the certificate-template observation, a faithful guest's emission, and what any accepted stream says |
| `Snapshots.dfy`, `ForbidScopes.dfy` | fact categories, per-file facts, the characterized delta over snapshots, and its forbid scopes |
| `HitTest.dfy` | the explicit-stack element hit test |

Collaborators that answer from outside (console, helper, scripts, observers, clock, file system) are parameters: a run's `World` fixes
every answer in advance, exceptions included, and theorems hold for all worlds. Case folding, SHA-256 and Python's `int` on a
text are function parameters; where a theorem needs hashing to be collision-free, it says so in a precondition.

Where the code and its documentation disagree, the model follows the code:

- Assertion is documented as total, but a repetition over the size limit raises `OverflowError` or `MemoryError` and formatting can
  raise `KeyError` or `OverflowError`, none of which the evaluator catches (`Envelopes.NoAnswerExactly` says exactly when;
  `Envelopes.TameAssertionIsTotal` gives a syntactic condition under which it is total).
- `facts` is documented as an alias of `post`, but a dotted `facts.k` never resolves (`Footprint.DottedAliasExactly`).
- An undeclared mutating boundary is documented as a hard stop; after the first crossing it is not looked at
  (`RunProperties.UndeclaredStopsOnlyFirst`).
- Every terminal path is documented to release the lease and emit a record; an exception its call site does not catch leaves with
  the lease held and no cleanup (`RunProperties.ExitDiscipline` gives the exact condition).
- Permitted run sheets are documented to use declared channels only; two actions and every crossing may not (`Channels.StepSound`).
- A capability that was accepted can still fail to compile once its arguments are substituted, after the crossing
  (`Arguments.CompilesUntilBound`, `RunProperties.EnvelopeExceptionLeaks`).
- The last sibling is documented to win a hit; between branches the earlier one does
  (`HitTest.OverlappingBranchesHitTheLowerOne`).
- Python compares `1 == True`: values are compared with their booleans read as integers, so a frozen `True` is reproduced by `1`
  (`Footprint.IdentityWithTrueIsNotCovered`, `Footprint.FormattingIsNotCovered`).

## Model

| member | source | states |
|---|---|---|
| Predicates.ValidateExact | src/wcd/envelope.py:239-309 | the validator accepts a tree exactly when it lies in the subset and within the nesting bound, and the count it returns is the size of the tree |
| Predicates.DottedInSubset | src/wcd/envelope.py:312-318 | an accepted attribute chain is rooted at a name, so it always has a dotted key |
| Values.ArithRespectsEq | src/wcd/envelope.py:402-413 | arithmetic gives `==` results for `==` operands, `True` and `1` included, but for what formatting shows of its right operand |
| Values.FormattingTellsTrueFromOne | src/wcd/envelope.py:413 | `'%s' % True` and `'%s' % 1` differ |
| Formatting.OneConversion | src/wcd/envelope.py:413 | a format of literal text around one conversion gives that text around the converted operand, or fails as the conversion does; doubled percent signs stand for themselves |
| Formatting.PlainConversions | src/wcd/envelope.py:413 | `%s` gives a string back unchanged, and `%d` an integer as the decimal that reads back as it |
| Formatting.KeyedConversion | src/wcd/envelope.py:413 | `%(key)s` shows the entry of that key, and raises exactly when there is none |
| Formatting.HarmlessFormat | src/wcd/envelope.py:413 | a format raises what the evaluator does not catch only through a key, a star, a precision, or a character or float conversion |
| FormattingLaws.DirectiveReads | src/wcd/envelope.py:413 | a directive's flags, decimal width and decimal precision are those written in it |
| FormattingLaws.StarReads | src/wcd/envelope.py:413 | a star takes the width from the next argument, and a negative one adjusts to the left |
| FormattingLaws.PaddedMeans | src/wcd/envelope.py:413 | a converted text is as wide as the width or as itself, whichever is more, filled with spaces on the right, zeros after the sign, or spaces on the left |
| FormattingLaws.IntegralMeans | src/wcd/envelope.py:413 | an integer conversion shows a sign, a base prefix if asked for, and at least as many digits as the precision, which read back in their base as the integer; it refuses exactly more than 4300 decimal digits, and raises exactly on a precision over the machine's |
| FormattingLaws.TextMeans | src/wcd/envelope.py:413 | a precision cuts a text; `%c` shows one character, which an integer gives by its code |
| FormattingLaws.ShownAlike | src/wcd/envelope.py:413 | `%s` and `%d` show an integer alike |
| FormattingLaws.FloatLimitIsMiddle | src/wcd/envelope.py:413 | integers convert to floats up to the middle between the largest float and the next power of two |
| FormattingLaws.ArgumentsLeftOver | src/wcd/envelope.py:413 | an argument left over refuses, unless a mapping or a list was given |
| FormattingLaws.ArgumentsMissing | src/wcd/envelope.py:413 | so does a conversion with no argument left |
| Values.CompareRespectsEq | src/wcd/envelope.py:373-440 | so does every comparison and containment, identity with `None` included |
| Values.FloorRemRange | src/wcd/envelope.py:411-413 | the remainder has the divisor's sign and is smaller than it |
| EvaluationLaws.FirstOperandDecides | src/wcd/envelope.py:391-394 | `and`/`or` are decided by their first deciding operand, fail with their first failing one, and read no further |
| EvaluationLaws.DeMorgan | src/wcd/envelope.py:391-398 | negating `and` is `or` of the negations, errors included, and the other way round |
| EvaluationLaws.ChainIsConjunction | src/wcd/envelope.py:414-441 | `a op b rest` evaluates as `(a op b) and (b rest)`, errors included |
| EvaluationLaws.DivisionLaw | src/wcd/envelope.py:411-413 | `l == r * (l // r) + l % r`, for every sign |
| EvaluationLaws.RepetitionLaw | src/wcd/envelope.py:409-410 | a repetition within the size limit is n copies end to end |
| EvaluationLaws.OrderLaws | src/wcd/envelope.py:422-429 | `<=` is `<` or `==` wherever values can be ordered, and `>`, `>=` are the mirrored orders |
| OperatorLaws.NumbersOrdered | src/wcd/envelope.py:422-429 | of two numbers `l < r` exactly when adding some positive number to l gives r |
| OperatorLaws.StringsOrdered | src/wcd/envelope.py:422-429 | of two strings `a < b` exactly when b properly extends a or their first difference is a smaller character in a |
| OperatorLaws.SequencesOrdered | src/wcd/envelope.py:422-429 | of two lists or tuples `xs < ys` exactly when ys properly extends xs up to `==`, or their first unequal elements are so ordered |
| OperatorLaws.UnorderedKinds | src/wcd/envelope.py:422-429 | values of different kinds, `None`s and maps have no order |
| OperatorLaws.ComparisonLaws | src/wcd/envelope.py:414-441 | how each comparison is decided: `==`, the orders, containment and identity, and what their negations and mirror images are |
| OperatorLaws.ContainmentLaws | src/wcd/envelope.py:373-385 | a text contains its stretches, a list or tuple what equals an element, a map its keys; which operands are type errors |
| OperatorLaws.TupleLookups | src/wcd/envelope.py:373-385 | looking a tuple up in a map is a type error if it has a list or a map in it, and finds nothing if it is of plain values |
| OperatorLaws.SumLaws | src/wcd/envelope.py:402-408 | numbers add commutatively, and zero and one as they should |
| OperatorLaws.DifferenceLaw | src/wcd/envelope.py:407-408 | adding the right operand to a difference gives back the left one |
| OperatorLaws.ProductLaws | src/wcd/envelope.py:409-410 | products are repeated sums |
| OperatorLaws.SequenceLaws | src/wcd/envelope.py:405-410 | sums of sequences put them end to end; how long a repeated string is, and when repeating it raises |
| OperatorLaws.OperandLaws | src/wcd/envelope.py:402-413 | for every operator exactly which operands are type errors, zero divisors included |
| OperatorLaws.SignLaws | src/wcd/envelope.py:395-401 | minus, plus and `not` |
| OperatorLaws.TruthLaw | src/wcd/envelope.py:391-397 | what is false: `None`, zero and everything empty |
| OperatorLaws.DisplayLaw | src/wcd/envelope.py:442-445 | a display of constants is the list or tuple of them; 32 elements are taken and 33 are not |
| Envelopes.BuildBindings | src/wcd/envelope.py:932-941 | the bindings hold `pre`, `post`, `facts` and every fact under its dotted names, and nothing else |
| Envelopes.BindingsAt | src/wcd/envelope.py:932-941 | what each dotted name is bound to, and that no other name is |
| Envelopes.DottedNames | src/wcd/envelope.py:936-941 | a fact of either state is bound under its dotted name, and none under a dotted `facts` |
| Envelopes.SameFrozenMeansAgreement | src/wcd/envelope.py:1079-1080 | two observations freeze alike exactly when they agree, value or absence, on every normalized key |
| Envelopes.PredictedExactly | src/wcd/envelope.py:944-967 | the predicted keys are the facts of require clauses and the post facts that require and derive clauses refer to; forbid clauses add theirs to the normalized ones |
| Envelopes.PredictedByPath | src/wcd/envelope.py:965-967 | a key lies under a predicted one exactly when the dotted parts of that one begin its own |
| Envelopes.ComputeDelta | src/wcd/envelope.py:721-762 | the delta lists every differing key once, in key order, under its kind, with both sides and its category |
| Envelopes.DeltaKinds | src/wcd/envelope.py:721-762 | changed keys are on both sides with unequal values, added ones on the post side only, removed ones on the pre side only; each with its two values |
| Envelopes.DeltaEntries | src/wcd/envelope.py:703-762 | over the three lists together every differing key occurs exactly once |
| Envelopes.DeltaLossless | src/wcd/envelope.py:721-762 | patching pre with the delta gives post and unpatching post gives pre, up to `==`, exactly on the differing keys |
| Envelopes.Classify | src/wcd/envelope.py:819-866 | the three clause lists are the clauses with that outcome, in order, unless some clause raises |
| Envelopes.ClauseMeans | src/wcd/envelope.py:895-929 | a clause is satisfied where it evaluates to something true, violated where to something false, and unresolved where a reference is absent or a type error comes up |
| Envelopes.ClauseBindingsMean | src/wcd/envelope.py:843-862 | a forbid clause sees its scope's post value and key besides; every other clause the plain bindings |
| Envelopes.FindUncovered | src/wcd/envelope.py:867-881 | the uncovered keys are those of the entries neither allowed nor predicted, in delta order |
| Envelopes.AssertEnvelope | src/wcd/envelope.py:793-892 | the assertion is the delta, the clause lists and the verdict; it has no answer exactly when a clause's evaluation escapes |
| Envelopes.AssertionUnique | src/wcd/envelope.py:793-892 | the states and the envelope determine the whole assertion, its delta and clause lists included |
| Envelopes.SatisfiedExactly | src/wcd/envelope.py:882-892 | satisfied exactly when every clause evaluates true and every differing key has an allowed category or begins with the dotted parts of a predicted one; every forbid scope is then present |
| Envelopes.NotSatisfiedExactly | src/wcd/envelope.py:882-892 | indeterminate exactly when some clause is unresolved; disproven exactly when none is, but one is violated or some change is neither allowed nor under a predicted key |
| Envelopes.AddedKeysArePredicted | src/wcd/exec_transaction.py:1094-1097 | with categories taken from the pre facts, satisfied means every added key begins with the dotted parts of a predicted one, unless `unclassified` is allowed |
| EvaluationPaths.UncaughtExactly | src/wcd/envelope.py:353-370 | an evaluation ends in an exception the evaluator does not catch exactly when it comes to a repetition over the size limit or a formatting that raises |
| EvaluationPaths.TameIsCaught | src/wcd/envelope.py:353-370 | a predicate in which no operand of `*` and no left operand of `%` can be a sequence, and identity is tested against singletons, ends in a value or in an error the evaluator names |
| Envelopes.NoAnswerExactly | src/wcd/envelope.py:793-892 | an assertion has no answer exactly when the evaluation of some clause comes to such an operation, or leaves the model |
| Envelopes.TameAssertionIsTotal | src/wcd/envelope.py:793-892 | assertion is total, as documented, for envelopes of such predicates |
| Envelopes.RepetitionRaisesExactly | src/wcd/envelope.py:409-410 | `post.k * n == ''` raises exactly when the count is no machine size or the result would be longer than one |
| Envelopes.FormattingRaisesExactly | src/wcd/envelope.py:413 | `'%(x)s' % post.k == ''` raises exactly when the map has no `x` |
| Envelopes.AssertionCanRaise | src/wcd/envelope.py:793-892 | so an envelope with such a clause has states over which its assertion has no answer |
| Footprint.EvalSame | src/wcd/envelope.py:932-941 | evaluation looks at no fact of the post state but those its dotted names and string subscripts name: states alike on these, exactly or up to `==`, give alike results |
| Footprint.ReadsAreReported | src/wcd/envelope.py:321-350 | these are among the keys the reference extractor reports, where no fact is subscripted under its dotted name |
| Footprint.DirectIsObserved | src/wcd/envelope.py:944-967 | so the normalized keys of an envelope of such predicates hold every post fact its clauses can look at |
| Footprint.NormalizedKeysDecideClauses | src/wcd/envelope.py:1180-1191 | where they do, two post states agreeing on the normalized keys give every clause the same outcome; agreement up to `==` also asks that identity be tested against `None` and nothing but a constant be formatted |
| Footprint.FrozenStateDecidesClauses | src/wcd/envelope.py:1180-1191 | so two post states that freeze alike give every clause the same outcome |
| Footprint.SubscriptedAttributeIsNotCovered | src/wcd/envelope.py:321-350 | `post.a["b"]` is recorded as key `a.b` while fact `a` is read: frozen alike, satisfied and violated |
| Footprint.SubscriptObservedByItsFact | src/wcd/envelope.py:944-967 | it is covered again where some clause is about fact `a` |
| Footprint.BarePostIsNotCovered | src/wcd/envelope.py:955-962 | a bare `post` reads every fact and is recorded as none: an envelope about one fact, whose clause any other fact decides unobserved |
| Footprint.IdentityWithTrueIsNotCovered | src/wcd/envelope.py:436-437 | `post.k is True` tells apart what the frozen comparison does not |
| Footprint.FormattingIsNotCovered | src/wcd/envelope.py:413 | and so does `'%s' % post.k == 'True'` |
| Footprint.DottedFactsNeverResolve | src/wcd/envelope.py:932-941 | a dotted `facts.k` is never bound, so such a clause is always unresolved, though `facts` is documented as an alias of `post` |
| Footprint.FactsIsPost | src/wcd/envelope.py:932-941 | the alias does hold for bare `facts` and for `facts['k']` |
| Footprint.DottedAliasExactly | src/wcd/envelope.py:932-941 | dotted, `facts.k` and `post.k` evaluate alike exactly when there is no fact `k` |
| Footprint.ReproductionMissesUnclassifiedChange | src/wcd/envelope.py:1144-1168 | a reproduction does not re-prove the unclassified-change check |
| Convergence.Converge | src/wcd/envelope.py:1049-1177 | the polling loop ends as `Converged` says: where it stops, what it freezes and asserts, how often it observes |
| Convergence.OutcomeDetermined | src/wcd/envelope.py:1049-1177 | the observations and clock readings determine the result: polls, status, cause, assertion, frozen state and reproductions |
| Convergence.LoopMeans | src/wcd/envelope.py:1082-1108 | on any clock: every poll but the first began within the window, an expiry is one on the clock, ten thousand is the bound, and what is frozen is the first observation that freezes like its predecessor |
| Convergence.SatisfiedMeans | src/wcd/envelope.py:1136-1177 | satisfied exactly when the first stable observation satisfies the envelope and every further one reproduces it |
| Convergence.SatisfiedInFull | src/wcd/envelope.py:1094-1177 | the same in terms of the observations: two alike, the second satisfying the envelope, and all further ones freezing like it |
| Convergence.DisprovenMeans | src/wcd/envelope.py:1108-1135 | disproven exactly when the first stable observation is; never from a timeout |
| Convergence.PollsBounded | src/wcd/envelope.py:1082-1092 | at most 10000 polls, and at most floor(window/poll)+1 when every sleep advances the clock by the interval |
| Convergence.UnstablePollsExactly | src/wcd/envelope.py:1082-1092 | with such a clock a run that never stabilizes takes exactly min(10000, floor(window/poll)+1) polls |
| Convergence.PollLongerThanWindow | src/wcd/envelope.py:1082-1108 | a poll interval longer than the window gives indeterminate after one poll |
| Convergence.ReproductionsReproveClauses | src/wcd/envelope.py:1144-1168 | every accepted reproduction satisfies every clause again, if the envelope observes all its clauses read |
| Flattening.Flattener.FlattenArgs | src/wcd/exec_transaction.py:1391-1399 | the recursion adds to the dictionary every scalar of the value under its dotted name, of equal names the one visited last |
| Flattening.Flatten | src/wcd/exec_transaction.py:1415-1416 | for keys that are nonempty and free of dots, the flat arguments hold under a dotted name exactly the scalar that walking along its parts reaches, and nothing where there is none |
| Flattening.BadKeyLosesALeaf | src/wcd/exec_transaction.py:1391-1399 | for every other key there are arguments using it in which two different scalars share a name, and one is lost |
| Flattening.BindsExactly | src/wcd/exec_transaction.py:1418-1421 | a predicate binds exactly when every dotted name it refers to leads to a scalar of the nested arguments |
| Literals.QuotedReadsBack | src/wcd/exec_transaction.py:1419-1423 | a string survives JSON escaping and Python's string literal exactly when it stays in the Basic Multilingual Plane |
| Literals.OperandRead | src/wcd/exec_transaction.py:1419-1423 | the operand Python reads back from the JSON text of a scalar: `null`, `true`, `false` become bare names |
| Arguments.BindPreservesMeaning | src/wcd/exec_transaction.py:1405-1445 | evaluating the substituted predicate equals evaluating the original with `args` bound, exactly as long as that comes to no boolean or null argument; then it is unresolved |
| Arguments.BoundClauseOutcome | src/wcd/exec_transaction.py:1405-1445 | a clause that evaluates a reference to a boolean or null is unresolved, never satisfied or violated; any other clause has the outcome it has as written |
| Arguments.BoundEnvelopeOutcome | src/wcd/exec_transaction.py:1405-1445 | over every pre and post state, so it is with each require, derive and forbid clause of a bound envelope, scope bindings included |
| Arguments.BareReferenceOutcome | src/wcd/exec_transaction.py:1405-1445 | a clause that is such a reference and nothing else is always unresolved |
| Arguments.ArgKeyMeans | src/wcd/exec_transaction.py:1402 | a reference's key is ASCII letters, digits, underscores and dots |
| Arguments.BindRefusesMissing | src/wcd/exec_transaction.py:1419-1423 | substitution refuses exactly when a referenced argument is missing |
| Arguments.BoundCompilesExactly | src/wcd/exec_transaction.py:1415-1445 | a predicate that compiles still compiles once its arguments are substituted exactly when the substituted text is within 1024 characters |
| Arguments.LongArgumentIsRefused | src/wcd/envelope.py:225-228 | a string argument of more than 1024 characters makes every predicate that refers to it too long to compile |
| Arguments.CompilesUntilBound | src/wcd/envelope.py:225-228 | `post.d == args['d']` compiles as written and with no such argument |
| Arguments.DeepReferenceCompilesOnlyBound | src/wcd/exec_transaction.py:1415-1445 | the other way round, a reference at the nesting bound is refused as written and accepted once bound |
| Transactions.Transaction.Prepare | src/wcd/transaction.py:188-214 | the state, log and refusals it leaves, for every flag combination |
| Transactions.Transaction.Arm | src/wcd/transaction.py:216-228 | the state, log and refusals it leaves |
| Transactions.Transaction.Commit | src/wcd/transaction.py:230-275 | the state, log and refusals it leaves; an undeclared crossing of a live transaction is the hard stop |
| Transactions.Transaction.Resolve | src/wcd/transaction.py:277-310 | the state, log and refusals it leaves |
| Transactions.Transaction.MarkIndeterminate | src/wcd/transaction.py:312-325 | the state, log and refusals it leaves |
| Transactions.FreshRuns | src/wcd/transaction.py:188-346 | over every call sequence the log is numbered 1..n, chained, spells one of nine words, and characterization and reason are set exactly in their states |
| Transactions.MovesExactly | src/wcd/transaction.py:188-325 | which calls move the machine and where to, for every state and every flag; every other is refused, but for the hard stop |
| Transactions.EventsSay | src/wcd/transaction.py:188-325 | each event says where the machine was, where it went and why; the characterization and the reason kept are those given |
| Transactions.RefusalsSay | src/wcd/transaction.py:188-346 | the guard a refusal names |
| Transactions.ResolutionMeansCommitted | src/wcd/transaction.py:277-310 | verified and disproven come only after prepared, armed, commit_attempted; no state is entered twice |
| Transactions.EverySpelledWordIsReached | src/wcd/transaction.py:188-346 | each of the nine words is the log of some run |
| Transactions.TerminalAbsorbs | src/wcd/transaction.py:188-346 | after a terminal state every call adds one refusal and changes nothing else |
| Transactions.EachCallIsAccounted | src/wcd/transaction.py:230-346 | each call adds one event or one refusal, and only the hard stop one of each |
| Executor.ExecuteTransaction | src/wcd/exec_transaction.py:659-1151 | the imperative executor leaves exactly the progress and exit that `Executed` specifies |
| Executor.Executor.OnCommit | src/wcd/exec_transaction.py:776-838 | one crossing: fresh context first, then at most one commit |
| Executor.Executor.ExecuteGesture | src/wcd/runsheets.py:392-456 | the gesture steps in order, each after its profile check, up to the first that does not complete |
| Executor.Executor.Cleanup | src/wcd/exec_transaction.py:1313-1379 | every cleanup step is tried once, whatever became of the others, its success is recorded, and then absence is asked for |
| RunProperties.CrossingExactly | src/wcd/exec_transaction.py:776-838 | a crossing completes exactly when its context matches the prepared session and, the first time, the boundary is declared mutating |
| RunProperties.CrossingComparesFields | src/wcd/exec_transaction.py:795-813 | a crossing answered with another session, another user or another desktop stops with a run-sheet error; one that differs in fingerprint or language alone does not |
| RunProperties.AdmissionByClass | src/wcd/runsheets.py:417-443 | only a profile action of the two mutating classes crosses; an undeclared one refuses the step |
| RunProperties.GesturedExactly | src/wcd/runsheets.py:392-456 | a gesture phase completes exactly when every step is good in turn, and what it has then done |
| RunProperties.GestureStopsExactly | src/wcd/runsheets.py:392-456 | and otherwise ends as its first step that is not good does, by that step's first failing answer |
| RunProperties.StepGoodMeans | src/wcd/runsheets.py:392-456 | a step is good exactly when its action is declared, each crossing it makes is answered with the prepared session, user and desktop, a first crossing is of a mutating class, and its primitive comes back |
| RunProperties.GatesCompareFields | src/wcd/exec_transaction.py:879-962 | the gates pass exactly when the fingerprint and every banked value are observed as banked |
| RunProperties.SetupGoodMeans | src/wcd/exec_transaction.py:980-1004 | setup succeeds exactly when every script's name resolves, its output comes back and no GUID is malformed |
| RunProperties.VerifiedMeans | src/wcd/exec_transaction.py:843-1151 | a record says verified exactly when every gate, step and crossing was good and the oracle converged satisfied; the run then did exactly the script, in order, and emitted exactly prepared, armed, commit_attempted, verified |
| RunProperties.VerifiedInFull | src/wcd/exec_transaction.py:843-1151 | the same answer by answer: every collaborator's answer that a verified record depends on, and every step's crossings |
| RunProperties.ResolvedCrossingsMatch | src/wcd/exec_transaction.py:795-813 | in every verified or disproven run each crossing was answered with the session, the user and the desktop read at prepare |
| RunProperties.DisprovenMeans | src/wcd/exec_transaction.py:1124-1132 | the same for disproven |
| RunProperties.VerifiedProvesClauses | src/wcd/exec_transaction.py:1089-1151 | a verified record over an envelope that observes all its clauses read means they hold in the frozen observation and in every reproduction |
| RunProperties.ExitDiscipline | src/wcd/exec_transaction.py:752-764 | a run leaves by an exception exactly when the first call that stops it raises what its call site does not catch, and exactly such a run keeps the lease; every other exit releases it and cleans up exactly once iff setup was attempted; emitted events are the whole log but for exactly two abort paths, which lose the last one |
| RunProperties.NoEscape | src/wcd/exec_transaction.py:850-1110 | no exception escapes if every collaborator fails only with what its call site catches |
| RunProperties.GestureExceptionLeaks | src/wcd/exec_transaction.py:1038-1074 | any exception but a run-sheet error out of the first failing gesture step leaves the lease held and nothing cleaned up |
| RunProperties.EnvelopeExceptionLeaks | src/wcd/exec_transaction.py:1089-1090 | so does an envelope that fails to parse, which is noticed only after the crossing |
| RunProperties.TransportErrorAfterCrossing | src/wcd/exec_transaction.py:1038-1074 | a witness run for the first |
| RunProperties.EnvelopeErrorAfterCrossing | src/wcd/exec_transaction.py:1089-1090 | a witness run for the second |
| RunProperties.UndeclaredStopsOnlyFirst | src/wcd/exec_transaction.py:820-824 | an undeclared boundary is the documented hard stop exactly when it is the first crossing |
| RunProperties.VerifiedWithUndeclaredCrossing | src/wcd/exec_transaction.py:820-824 | a run that crosses an undeclared boundary later and still ends verified |
| Channels.ValidateContract | src/wcd/runsheets.py:215-302 | the check accepts exactly the permitted sheets |
| Channels.PermittedByChannel | src/wcd/runsheets.py:215-302 | a sheet is permitted exactly when the oracle and requery channels are declared and every step's own channels are |
| Channels.StepSound | src/wcd/runsheets.py:91-101 | every request of a permitted gesture step is on a declared channel, exactly when the step is not one of three exceptions |
| Channels.ExceptionsArePermitted | src/wcd/runsheets.py:195-212 | all three pass the check: `keys` without a click, `wait_foreground`, and a crossing, which reads the helper's context, in a step that declares no `hwnd` |
| Channels.GestureExecutor.ExecuteStep | src/wcd/runsheets.py:429-442 | a crossing reads the helper's context; a step that is an exception and comes back has sent a request its contract does not declare, but for a wait that found a window without a number |
| Channels.GestureExecutor.Execute | src/wcd/runsheets.py:392-456 | over a permitted sheet without those exceptions every helper request is on a declared channel |
| Channels.GestureExecutor.LiveTarget | src/wcd/runsheets.py:701-724 | the newest window of the dialog chain not known dead; everything above it was reported dead, one enumeration each |
| Channels.GestureExecutor.KeysStep | src/wcd/runsheets.py:726-791 | a `keys` step that comes back has dumped its target and then sent the keys to a window |
| Channels.GestureExecutor.KeyStep | src/wcd/runsheets.py:1091-1107 | a key step that comes back has sent the key with the live window, or no window when there is none, as its focus |
| Channels.GestureExecutor.WaitForegroundStep | src/wcd/runsheets.py:571-614 | a window found by number is clicked on and pushed on the dialog chain |
| Channels.GestureExecutor.WaitElementStep | src/wcd/runsheets.py:616-699 | it comes back only with a dump the selector resolves against |
| Channels.GestureExecutor.WithFocusRetry | src/wcd/runsheets.py:1050-1089 | at most ten requests: the gesture, and for each retry an enumeration, a surfacing click and the gesture without its focus, but on the same window; the last one succeeded |
| Channels.GestureExecutor.ClickElementStep | src/wcd/runsheets.py:967-1029 | the click that succeeds names the dumped window, or no window when none is known |
| CanonicalJson.ReadPrinted | src/wcd/exec_transaction.py:1164-1170 | compact JSON text reads back as the value it was written from, whatever follows it |
| CanonicalJson.CanonicalRoundTrip | src/wcd/record_schema.py:241-243 | decoding the canonical text and writing it again gives the same text |
| CanonicalJson.FillingOrderIsIrrelevant | src/wcd/record_schema.py:241-243 | the order in which a dictionary was filled does not show in the canonical text |
| RecordProperties.ManifestAccepts | src/wcd/exec_transaction.py:1173-1191 | a setup output split into lines joins back to what was hashed |
| RecordProperties.InvocationAccepts | src/wcd/record_schema.py:246-282 | the emitted invocation block passes the validator, its argument digest recomputed |
| RecordProperties.EnvelopeAccepts | src/wcd/record_schema.py:144-163 | so does the emitted envelope result, which is empty only for an indeterminate early stop |
| RecordProperties.EmittedIsAccepted | src/wcd/exec_transaction.py:1448-1523 | every record a run emits is accepted: version 3 when the capability text was supplied, version 1 otherwise |
| RecordProperties.EmittedSays | src/wcd/exec_transaction.py:1448-1523 | the record emitted says the state and the events, in order, and has an envelope result exactly when there was an assertion |
| RecordProperties.EnvelopeSays | src/wcd/exec_transaction.py:1471-1493 | the envelope result says the status and clause lists of the assertion and holds one row for each delta entry |
| RecordProperties.DeltaRowSays | src/wcd/exec_transaction.py:1476-1484 | a delta row holds its key's value in the pre and in the post state, and its kind says which of them there is |
| RecordProperties.EventRowSays | src/wcd/exec_transaction.py:766-774 | an event row holds its event's number, states and the first 512 characters of its reason |
| RecordProperties.NamesTellStates | src/wcd/transaction.py:58-60 | every state has its own name |
| RecordProperties.TruncatedMeans | src/wcd/exec_transaction.py:135-142 | a long text keeps its first 1600 characters and says how many it had |
| RecordProperties.VerdictSays | src/wcd/exec_transaction.py:1457-1519 | the verdict is the reason of an indeterminate end, else the characterization, else the abort's note, in one line of at most 512 characters |
| RecordProperties.AcceptedMeans | src/wcd/record_schema.py:370-432 | an accepted record has exactly its five parts, a terminal state and accepted events, envelope and provenance |
| RecordProperties.AcceptedExactly | src/wcd/record_schema.py:344-432 | every such record is accepted, in the version of its provenance; an unstamped one only as legacy input |
| RecordProperties.AcceptedEventMeans | src/wcd/record_schema.py:166-190 | an accepted event has exactly its four parts, a number from one and known states |
| RecordProperties.AcceptedEnvelopeMeans | src/wcd/record_schema.py:144-163 | an accepted envelope result is complete, or empty for an indeterminate record |
| RecordProperties.AcceptedDeltaRowMeans | src/wcd/record_schema.py:132-141 | an accepted delta row has exactly its four parts and one of three kinds |
| RecordProperties.AcceptedProvenanceMeans | src/wcd/record_schema.py:193-238 | accepted provenance has exactly the stamp and the parts of its version |
| RecordProperties.AcceptedInvocationMeans | src/wcd/record_schema.py:246-282 | an accepted invocation digests to what it publishes, row by row |
| RunOutputs.RunBanks | src/wcd/exec_transaction.py:985-1004 | every run banks the outputs of a prefix of its setup scripts, a malformed last one included, each under its resolved name; a resolved run banks all of them |
| Interpolation.PlainMeansItself | src/wcd/runsheets.py:341-364 | a text without references is left as it is |
| Interpolation.ReferenceResolves | src/wcd/runsheets.py:341-364 | a reference stands for what its table holds under its key, and a text with one that holds nothing does not resolve |
| Interpolation.KeysAre | src/wcd/runsheets.py:341-364 | a key is of ASCII letters, digits, underscores and dots, and `{args.}` is plain text |
| RecordProperties.SheetBindingExactly | src/wcd/record_schema.py:285-335 | an emitted record matches its run sheet exactly when interpolation changed none of the banked script names |
| RecordProperties.SetupScriptsAre | src/wcd/record_schema.py:285-335 | the setup scripts of a sheet are those of its guest and host steps in the setup phase, in order |
| RecordProperties.PlainSheetMatches | src/wcd/record_schema.py:285-335 | so it always does when the setup script names hold no references |
| RecordProperties.AcceptedDigestsPinContent | src/wcd/record_schema.py:246-282 | with collision-free hashing, the digests in two accepted records pin the arguments and every setup output |
| Leases.LeaseRegistry.Acquire | src/wcd/leases.py:93-119 | the registry and answer it leaves, for both clock readings |
| Leases.LeaseRegistry.Release | src/wcd/leases.py:121-130 | only the registered lease is released |
| Leases.AtMostOneActive | src/wcd/leases.py:82-144 | at most one lease of a target is active |
| Leases.ActiveMeans | src/wcd/leases.py:139-144 | a registered lease is active until its expiry, and not at it; without one it always is |
| Leases.InvalidExactly | src/wcd/leases.py:93-119 | acquiring is invalid exactly for an empty target or holder or a time to live that is not positive; a granted lease is the one asked for, dated by the second reading |
| Leases.ReleaseExactly | src/wcd/leases.py:121-130 | a release succeeds exactly for the registered lease, which it alone takes away |
| Leases.LostStaysLost | src/wcd/leases.py:121-130 | a superseded or released lease is never registered again and its release is refused, whatever follows |
| Leases.InactiveStaysInactive | src/wcd/leases.py:139-144 | under a monotone clock an inactive lease never becomes active again |
| Leases.HeldStaysActive | src/wcd/leases.py:93-144 | a lease without expiry stays active until its holder releases it |
| Leases.AcquireRefusedExactly | src/wcd/leases.py:93-119 | acquire is refused exactly while the target has an active lease, and names its holder |
| Leases.ExpiredLeaseCanStillBeReleased | src/wcd/leases.py:121-130 | an expired lease nobody superseded is inactive, yet can be released |
| FileLeases.ExclusiveOwnership | src/wcd/leases.py:168-221 | over every interleaving of acquire, probe, release and crash a target has at most one live lease, whose handle owns the kernel lock |
| FileLeases.LeaseRefusesOthers | src/wcd/leases.py:168-206 | while a target is leased every other lock attempt on it, an acquire's or a probe's, is refused, naming the holder |
| FileLeases.AnswersMean | src/wcd/leases.py:168-239 | a granted acquire leaves a live lease and its holder's name in the file, a release none; a probe that says free held the lock or found no file |
| FileLeases.CrashFreesLock | src/wcd/leases.py:250-269 | a crash frees whatever lock the process held |
| FileLeases.RefusedExactly | src/wcd/leases.py:187-194 | over every run a lock attempt, an acquire's or a probe's, is refused exactly when some process leases the target or is in a call that holds its lock; there is one such process |
| FileLeases.SpuriousExactly | src/wcd/leases.py:223-239 | so it is refused although nobody leases the target exactly when a probe or an unfinished acquire holds the lock |
| FileLeases.RefusalNames | src/wcd/leases.py:187-209 | the refusal names the current owner exactly when that has written its name, or the text still there happens to say the same |
| FileLeases.RefusalCanBeSpurious | src/wcd/leases.py:223-239 | a run in which a probe makes an acquire fail while nobody holds the target, naming a crashed holder |
| Transport.SessionTransport.Request | src/wcd/transport.py:148-230 | the identifier, the queue and the outcome of a request |
| Transport.NoMisdelivery | src/wcd/transport.py:171-230 | over any run of calls, with timeouts, refusals and a peer that goes away, a call is answered only with the peer's reply to that very call, and no two calls share a number |
| Transport.AwaitExactly | src/wcd/transport.py:193-221 | a wait is decided by the first line that is no stale reply, if at most eight come before it and it comes in time |
| Transport.OneRequest | src/wcd/transport.py:193-221 | over m stale replies a request succeeds at once exactly when m <= 8, and otherwise consumes nine lines |
| Transport.Resynchronizes | src/wcd/transport.py:193-221 | and succeeds from then on after exactly ceil((m-8)/8) desync errors |
| ScriptsIni.SectionBuilder.Add | src/gpo_observers/scripts_ini.py:221-248 | what one key line leaves in its section |
| ScriptsIni.ParseLines | src/gpo_observers/scripts_ini.py:283-329 | the sections, in order of first opening, are the folds of their own key lines; the unparsed lines are exactly the others |
| ScriptSlots.PaddingIsNothing | src/gpo_observers/scripts_ini.py:291-294 | spaces around a line are nothing |
| ScriptSlots.KindMeans | src/gpo_observers/scripts_ini.py:291-318 | blank lines and comments are ignored, `[name]` is a header if the name has no closing bracket, any other line with an equals sign is a key and its value, and the rest is unparsed |
| ScriptSlots.ClassifyExactly | src/gpo_observers/scripts_ini.py:59-60 | a key is an index or a property of one exactly when digits begin it and nothing, or an ASCII letter and then ASCII letters, digits and underscores, follow them |
| ScriptSlots.SlotKeeps | src/gpo_observers/scripts_ini.py:221-248 | an entry keeps the first positional line of its index, the first line of each property, and of its CmdLine lines the first value and the last raw line |
| ScriptSlots.EntryKeeps | src/gpo_observers/scripts_ini.py:250-280 | the script and parameters of an entry are those of its first CmdLine and Parameters lines if it has any property line, else what its first positional line splits into; its style says which kinds of lines there are |
| ScriptSlots.PositionalMeans | src/gpo_observers/scripts_ini.py:168-181 | the first comma of a positional line separates script and parameters, and spaces around either are nothing |
| ScriptEntries.InterleavingIsIrrelevant | src/gpo_observers/scripts_ini.py:289-318 | exchanging neighbouring blocks of different sections changes no section's lines |
| ScriptEntries.SectionsDependOnTheirOwnLines | src/gpo_observers/scripts_ini.py:211-248 | equal lines in equal order give equal section content, whatever surrounds them |
| ScriptEntries.OpenedDistinct | src/gpo_observers/scripts_ini.py:297-318 | no two sections share a case-folded name, and the open section is one of them |
| ScriptEntries.EveryKeyLineIsKept | src/gpo_observers/scripts_ini.py:306-318 | each key line is kept, in place, by exactly one existing section |
| ScriptEntries.LinesAreContributions | src/gpo_observers/scripts_ini.py:221-248 | a line of a section is an other key, kept in order, or part of the entry of its index |
| ScriptEntries.SlotsAreWellFormed | src/gpo_observers/scripts_ini.py:250-269 | the assertion in `build` never fires |
| ScriptEntries.Build | src/gpo_observers/scripts_ini.py:250-280 | one entry for every index, in increasing order, each built from its slot |
| ScriptEntries.RawLineOfScript | src/gpo_observers/scripts_ini.py:261-265 | the raw line is the one that gave the script exactly when the index's first and last CmdLine lines read the same |
| ScriptEntries.RepeatedCmdLineMisattributes | src/gpo_observers/scripts_ini.py:238-242 | two CmdLine lines for one index where it is not |
| ScriptEntries.SplitStyleRoundTrip | src/gpo_observers/scripts_ini.py:283-329 | commands printed in split style parse back to one section with those commands |
| QuotedCsv.SplitQuotedCsv | src/gpo_observers/gpttmpl_inf.py:50-90 | the index loop terminates and returns the fields of the grammar |
| QuotedCsv.FieldsPrinted | src/gpo_observers/gpttmpl_inf.py:50-90 | every printed list of quoted or bare fields reads back as itself, empty and trailing ones included |
| QuotedCsv.ScanAcceptsOnlyPrints | src/gpo_observers/gpttmpl_inf.py:50-90 | whatever is accepted is the print of its fields |
| QuotedCsv.QuoteFreeIsSplit | src/gpo_observers/gpttmpl_inf.py:50-90 | on quote-free text the fields are those of splitting at commas |
| CertTmpl.DurationRoundTrip | src/gpo_observers/certtmpl.py:139-160 | every interval of 1 to 2**63 units is published as its magnitude |
| CertTmpl.CertTmplFactTree | src/gpo_observers/certtmpl.py:163-334 | the line loop refuses or returns the facts exactly as `Observe` says |
| CertTmplClaims.AcceptedClaims | src/gpo_observers/certtmpl.py:179-334 | an observation succeeds only if every line is known, no claim is repeated, every container claim recomputes from the name lines and the target lines repeat the one template of that name; what it publishes is what those lines claim |
| CertTmplClaims.LineMeans | src/gpo_observers/certtmpl.py:179-188 | of a line without its ends, nothing is blank and the first equals sign ends the key, which may be empty |
| CertTmplClaims.DurationExactly | src/gpo_observers/certtmpl.py:139-160 | an interval is read as n exactly from the eight little-endian bytes of -n, and as absent exactly from nothing |
| CertTmpl.MembershipFreeze | src/gpo_observers/certtmpl.py:240-307 | with collision-free hashing, equal `other_names_sha256` facts mean equal multisets of non-target names |
| CertTmpl.EqualMembershipEqualDigests | src/gpo_observers/certtmpl.py:240-246 | and that digest depends on nothing else |
| CertTmplEmission.FaithfulEmissionAccepted | src/gpo_observers/certtmpl.py:179-334 | every faithful emission of a container with at most one target is accepted with that container's facts |
| Snapshots.FingerprintsAreUnclassified | src/gpo_observers/facts.py:78-208 | for every file name the two fingerprint keys match no rule of the table |
| Snapshots.FileFactsSay | src/gpo_observers/snapshots.py:139-149 | a non-system file's two facts say exactly what the fingerprint says, and an absent file has none |
| Snapshots.FileFactsByName | src/gpo_observers/snapshots.py:53-148 | which files other observers speak for, by their case-folded names; every other file leaves its own two facts |
| Snapshots.CaptureSnapshot | src/gpo_observers/snapshots.py:100-181 | the loop fills in the snapshot the specification describes |
| ForbidScopes.CheckExtensionLists | src/gpo_observers/delta.py:152-186 | a missing extension list is reported, and a forbidden GUID exactly when some list holds it |
| ForbidScopes.CheckContainment | src/gpo_observers/delta.py:189-229 | silent exactly when every path lies under the GPO's directory; what is reported are the paths that do not |
| ForbidScopes.CheckForbids | src/gpo_observers/delta.py:276-288 | nothing is reported exactly when all three scopes are there and clean |
| ForbidScopes.AllCleanMeans | src/gpo_observers/delta.py:152-288 | what the three scopes demand of the two snapshots, in full |
| ForbidScopes.ContainerViolationSays | src/gpo_observers/delta.py:232-273 | the violation says on which sides the container's fact is missing, or which objects came and which went |
| ForbidScopes.TokenIgnoresBrackets | src/gpo_observers/delta.py:146-149 | a GUID is the same token however it is bracketed |
| Snapshots.Evaluate | src/gpo_observers/delta.py:291-325 | the outcome lists every differing key once, in order, with its category and whether it is covered, and the violations of the forbid scopes; allowing `unclassified` is refused |
| Snapshots.OutcomeUnique | src/gpo_observers/delta.py:291-325 | the snapshots and what is allowed determine the list of changes: which, in what order, and what is said of each |
| Snapshots.OutcomeSatisfiedExactly | src/gpo_observers/delta.py:89-95 | satisfied exactly when the forbid scopes are clean and every differing key is allowed |
| Snapshots.ChangesMean | src/gpo_observers/delta.py:106-143 | a listed change is covered exactly when its category's word, or for a volatile one its subcategory's, is allowed; its kind says on which sides its key is |
| Snapshots.NothingAllowed | src/gpo_observers/delta.py:89-143 | with nothing allowed, satisfied exactly when the scopes are clean and no key differs |
| Snapshots.FirstRuleDecides | src/gpo_observers/facts.py:199-208 | a key has the category of the first rule that fits it, and none when no rule does |
| Snapshots.GlobMeans | src/gpo_observers/facts.py:205-207 | a pattern without a star fits itself only, and a star stands for any text |
| Snapshots.UndeclaredFilesDisprove | src/gpo_observers/delta.py:138-143 | snapshots that differ in a non-system file are disproven for every permitted allow set |
| Snapshots.SystemFilesAreSilent | src/gpo_observers/snapshots.py:95-97 | and files that do not differ change no fingerprint fact |
| HitTest.FindElementAt | src/wcd/fake.py:600-616 | the explicit-stack loop returns the winner of the recursive visit |
| HitTest.HitCharacterized | src/wcd/fake.py:600-616 | None exactly when no node contains the point; otherwise a containing node of maximal depth, ties going to the one visited last |
| HitTest.RectLaws | src/wcd/fake.py:84-85 | a rectangle holds its left and top edges but not its right and bottom ones |
| HitTest.VisitIsTree | src/wcd/fake.py:600-616 | the visit reaches every node of the tree and nothing else |
| HitTest.OverlappingBranchesHitTheLowerOne | src/wcd/fake.py:600-605 | among equally deep nodes of different branches the earlier branch wins, unlike the documented painted-on-top rule |

## Left out

- Floats: mixed integer and float arithmetic, and NaN.
- Envelopes.AssertEnvelope: gives no answer either where a clause tests the identity of two ordinary objects, or formats what
  only floats, `repr` or a lone surrogate would show; the evaluator then ends in a fault of its own, `Unmodelled`.
- Envelopes.NoAnswerExactly: counts these as no answer, although the code evaluates them.
- EvaluationPaths.UncaughtExactly: does not count exhaustion of memory below the size limit, or of the recursion limit.
- Arguments.BoundCompilesExactly: predicates are syntax trees, and that a text parses as a tree is taken as given; substitution in
  the text and in the tree coincide where a match is a whole subscript expression, not part of a literal or of a longer name.
- Arguments.BindPreservesMeaning: string arguments a predicate refers to stay within the Basic Multilingual Plane, beyond which they
  change (`Literals.QuotedReadsBack`); the `ValueError` of writing an integer beyond 4300 digits as JSON is not modelled.
- Executor.ExecuteTransaction: begins at the lease; a `Plan` is what passed the capability schema, profile and run sheet loading.
  The lease is taken to stay active until the run releases it, which `Leases.HeldStaysActive` proves of the in-memory registry.
- RecordProperties.ManifestAccepts: outputs are texts without lone surrogates, which could not be encoded for hashing: the code
  raises `UnicodeEncodeError` on them.
- RunOutputs.RunBanks: what `{out.key}` refers to at each step is given, not parsed from the outputs before it.
- RecordProperties.EmittedIsAccepted: human-readable texts (reasons, labels, characterizations, elapsed times) are parameters,
  of which only the truncation is modelled; the capability-text check and the legacy-source lookup by path are not modelled.
- CanonicalJson.ReadPrinted: covers the compact form the writer produces, not white space, exponents or surrogate escapes.
- Channels.GestureExecutor.Execute: leaves out pixel coordinates, pauses, and the writing of screenshots and dumps.
- FileLeases.ExclusiveOwnership: leaves out raw `OSError`s from opening, truncating or writing a lock file.
- Transport.SessionTransport.Request: leaves out process spawning, reader threads and the standard-error ring; the line queue is a sequence.
- ScriptsIni.ParseLines: begins at lines, after decoding and splitting; digits in keys are ASCII digits.
- Fields of the helper's context beyond session, user, desktop, fingerprint and language.
- PowerShell scripts, TOML, XML and schema loading, console unlocking, the estate canary, version packing and WMI filters: foreign code,
  library calls, or members that would be easy.
