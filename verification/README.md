# Codeflux: a verified model of its core protocols

Codeflux runs an untrusted model against a repository under an approved plan. This project
models the parts of it that must be right for that to be safe, and proves what they promise,
in Dafny 4.11. `dafny verify dfyconfig.toml` checks everything.

- **The agent loop** (`AgentPlan`, `AgentTrace`, `AgentHistory`, `AgentLoop`, `Limits`, `Utf8`).
  A run observes control, takes a model turn, accounts tokens and exact cost, binds each
  proposed call to a plan step, routes authority, persists a start, checkpoints, executes,
  records and moves the step. Every port may answer anything and fail at any point, also after
  its effect has happened. The run returns its history: the events it made durable, the control
  states it read and what it otherwise observed of its ports. A monitor says which histories follow
  the protocol, and the theorems read the laws, and the cause of the outcome, off the history.
- **Checkpoint capture** (`CheckpointState`, `CheckpointCapture`, `CaptureService`, `Ordering`).
  A capture coordinates a private Git ref with a store that commits a row and its event. The
  world is refs, rows and requests. Captures are proved one by one against whatever other
  captures may do in between, with a log of the steps each one takes, every one enabled where it
  was taken. Every interleaving of such steps is safe, and shows each capture that has its identity
  and key to itself no more than that. Snapshots are canonicalized by sorting with a routine that
  promises nothing about equal keys.
- **Atom documentation** (`DocSchema`, `DocFields`, `DocParser`, `DocValidator`, `DocPrinter`,
  `DocRoundTrip`, `DocWords`, `DocWrapping`, `DocEncoding`). The printer and the line-oriented
  parser are modelled as they loop; the round trip is proved as an equivalence whose right side a
  caller can check before printing. What any comment is admitted as is said in words and lines
  alone, and breaking lines at white space is shown not to matter. The unescaped canonical string
  is proved injective from the control-byte rejection.
- **Names** (`Identifier`, `Lexicon`, `Naming`, `Embedding`, `EmbeddingStream`). The word
  splitter, the names derived from it, aliases, renames, the embedding input with its
  invalidation triggers, and the length-prefixed stream that is hashed, with a decoder.
- **Smaller cores** (`AppLog`, `Acceptance`). The rotating log as an in-place buffer refining a
  pure history, and the acceptance gate with its pigeonhole argument.

`Text`, `Common` and `Ordering` hold the string, sequence and order facts these share. Loops of
the source are methods with loops, proved equal to a function whose properties are then proved;
objects that change are classes; pure decisions are functions.

Some readings of the code, where its comments leave room:

- A schema header of `v01` is read as version 1, as the number parser does.
- An opening sentence that starts with the naming-exception prefix is passed over, so the round
  trip fails for it; a declaration's own identifier can never be that prefix.
- `RenameAuthorizedIff` and the splitter theorems are stated for any vocabulary with the
  property `GoodVocabulary`; `Lexicon` proves it of the compiled one, where only AUTH0 holds a
  digit and can therefore never be matched inside a run of capitals.
- The cleanup in a capture trusts that the store never returns an inconsistent record; the
  branch that refuses one is proved unreachable for a store that keeps its contract.

## Model

| member | source | states |
|---|---|---|
| AgentLoop.Run | internal/agent/loop.go:88-908 | For every input, every answer of the model and every failure of every port, the run terminates; its events obey every law of `AgentHistory.Lawful`; rounds and tool calls keep within their limits, and the model turns in the history within its started calls plus 13; the reported tool calls are the starts in the history and the reported rounds its turns, plus the one still waited for; a run that ends on a completion either declared it for the fourth time, or can no longer call the tests, or has every edit tested and the latest test passed; folding the durable plan log over the input plan gives the reported plan and only moves forward; reported tokens and cost are what the turns add up to, the cost as known exactly when a 64-bit fraction states it; the run ends only for a cause its history shows (`Caused`): paused and stopped exactly when the latest control read says so, cancelled by control exactly when it says cancelled, policy-blocked and budget-exhausted exactly for an active read with that flag down, a limit only when the history has reached that limit, approval or denial only for that authority outcome, every completion outcome from what the latest turn declared, the plan and the validation evidence, and every error from its own observation; a validation-complete report means the validation-required steps were validated in the input; the invalid-transition error needs a plan outside pending, in-progress and implemented; the run is refused exactly when the input is invalid |
| AgentLoop.StopsWellIsSafe | internal/agent/loop.go:88-908 | Whatever ended a run, its final variables and report have the meaning `Safe` gives them, read off the event sequence alone |
| AgentHistory.AcceptedIsLawful | internal/agent/loop.go:477-900 | Every event sequence the protocol accepts satisfies all laws together: covered executions inside both budgets, settled and distinct starts, calls of a turn handled one after the other at the steps they belong to, refusals only of calls no step may carry, no further turn before the last one is settled, records that name the call in progress and say what the executor answered, bounded identical failures, and nothing after a cancelled or exhausted call |
| AgentHistory.ExecutionsAreCovered | internal/agent/loop.go:616-746 | Every tool execution follows a start nothing has executed yet, with the same request, the current round and plan revision, an automatic or task-scoped authority bound to the action hash and policy, and a before-risky checkpoint in between when the action is risky; tokens and exact cost are within their limits at that moment |
| AgentHistory.StartsAreDistinct | internal/agent/loop.go:495-507 | No two persisted starts carry the same request identity |
| AgentHistory.EarlierStartsAreSettled | internal/agent/loop.go:658-781 | Between two starts the first one is executed and its result recorded under the same request and step |
| AgentHistory.EarlierExecutionsAreRecorded | internal/agent/loop.go:739-781 | Between two executions the result of the first is recorded |
| AgentHistory.SoleExecution | internal/agent/loop.go:699-746 | One start is executed at most once |
| AgentHistory.PlanAdvances | internal/agent/loop.go:1610-1659 | The durable transitions change nothing but step states, never backward and never to validated |
| AgentHistory.TransitionsAreLegal | internal/agent/loop.go:1610-1659 | Each logged transition leaves the state the log itself gave that step, by an allowed move, and names the call in progress |
| AgentHistory.ValidatedBeforeTheRun | internal/agent/loop.go:1233-1248 | If the validation-required steps are complete after a run they were validated before it |
| AgentHistory.StartsAreAttributed | internal/agent/loop.go:508-615 | Every start is for the next call of the latest turn, and at the one step it belongs to as the log then stood |
| AgentHistory.RefusalsAreJustified | internal/agent/loop.go:530-590 | Only the call whose turn it is is passed over, and only when the named step does not admit it and no step owns what it touches |
| AgentHistory.TurnsAreComplete | internal/agent/loop.go:344-476 | Before the next turn every call of the last one was started or refused, once each and in order; or its declared completion was sent back, over unverified work that can still be tested and at most three times; or it was empty or over-batched |
| AgentHistory.ResultsAreRendered | internal/agent/loop.go:1555-1702 | Every recorded result says what the executor answered to that execution: its own result with texts cut to the bound, or for an error never a success, a cancellation exactly for a deadline or cancellation, with the output kept exactly when the result was the request's own |
| AgentHistory.EndsAreFinal | internal/agent/loop.go:835-890 | After a cancelled call, or one that has failed as often as the limit, nothing is started and no turn is taken |
| AgentHistory.TurnStateMeaning | internal/agent/loop.go:169-901 | The latest control state, the latest turn, its handled calls and the identities used are the readings of the history |
| AgentHistory.IdenticalFailures | internal/agent/loop.go:1746-1760 | Two failures count as identical exactly when action, state, exit code and both flags agree |
| AgentHistory.RecordsNameOneStep | internal/agent/loop.go:642-832 | Checkpoints and results name the step, request and round of the start they belong to |
| AgentHistory.FailuresAreBounded | internal/agent/loop.go:854-890 | No failed-action fingerprint is recorded more often than the limit |
| AgentHistory.GuardFlagsMeaning | internal/agent/loop.go:782-790 | The two flags that guard completion mean exactly: some successful edit has no later successful test; the latest test did not succeed |
| AgentHistory.CountersMeaning | internal/agent/loop.go:312-343 | Plan, round, token, cost, started-call and completion-declaration counters are the readings of the event history |
| AgentHistory.PhaseMeaning | internal/agent/loop.go:477-900 | The protocol phase tells which call was started last, whether it was checkpointed, executed and recorded |
| AgentHistory.InFlight | internal/agent/loop.go:312-343 | A call is in flight only while the turn that proposed it is inside every budget |
| AgentTrace.AcceptedAt | internal/agent/loop.go:88-908 | Every event of an accepted sequence was in place when it happened |
| AgentLoop.Gate | internal/agent/loop.go:1114-1173 | After a control read the run either continues live or stops with an honest report, by a failed read or a reason control gives |
| AgentLoop.ControlStop | internal/agent/loop.go:1135-1173 | Nothing stops the run exactly when it is active with current policy and available budget; which stop it is, `ControlIsCaused` states |
| AgentLoop.ControlIsCaused | internal/agent/loop.go:1135-1173 | The outcome reported for a control read that stops the run is the one `FinishCaused` allows for that read |
| AgentLoop.ObserveThink | internal/agent/loop.go:197-292 | A model turn, or an honest stop on blocked actions, cancellation, deadline or port failure, each for its own observed cause |
| AgentLoop.AccountTurn | internal/agent/loop.go:293-343 | A turn that goes on is identified, fresh and within the per-round, cumulative and cost limits; every other turn stops with the limit it breaks, the first in the order they are checked |
| AgentLoop.BindCall | internal/agent/loop.go:495-615 | A call is bound to the one step it is attributed to: the named one when that admits it, and only otherwise the sole owner; refused exactly when no step may carry it; every failure names its cause |
| AgentLoop.RouteTool | internal/agent/loop.go:616-642 | A returned authority is valid for this request and policy; one that is not is noted with its answer |
| AgentLoop.StartCall | internal/agent/loop.go:643-700 | After starting a call its start, its risky checkpoint and its begun step are durable and the call is counted once; if it fails, at most this one start is in the history uncounted |
| AgentLoop.PersistStart | internal/agent/loop.go:643-663 | Persisting a start leaves an accepted history whether or not the port reports success |
| AgentLoop.CheckpointRisky | internal/agent/loop.go:664-683 | The before-risky checkpoint carries the decision and action hash of the start |
| AgentLoop.BeginStep | internal/agent/loop.go:684-698 | A pending step is moved to in-progress in the log and in memory together |
| AgentLoop.ClassifyResult | internal/agent/loop.go:1555-1599 | Without an execution error the result is untouched; with one it is cancelled exactly for a deadline or cancellation, timed out exactly for a deadline, and keeps the executor's output exactly when the result is the request's own |
| AgentLoop.BoundedToolResult | internal/agent/loop.go:1671-1702 | A result is accepted exactly when identity, schema and state fit, and its texts then share the byte bound as `Utf8.SharesBudget` says |
| AgentLoop.ExecuteAndRecord | internal/agent/loop.go:739-781 | After execution and recording, the protocol state is the one the result implies |
| AgentLoop.CompleteStep | internal/agent/loop.go:1610-1640 | Completing a step logs exactly its move to implemented; the invalid-transition error implies a plan outside the run states |
| AgentLoop.PayDebts | internal/agent/loop.go:787-832 | A successful material edit is checkpointed and an open step completed before the call settles |
| AgentLoop.CountFailure | internal/agent/loop.go:854-862 | Counts below the limit stay below it exactly when the run goes on; when it does not, the action just counted has failed exactly as often as the limit |
| AgentLoop.FinishCall | internal/agent/loop.go:835-900 | Cancellation, repeated failure and the closing control read end the call or the run honestly |
| AgentLoop.RunCalls | internal/agent/loop.go:476-901 | Every call of a turn keeps the protocol, the budgets and the payment of rounds by calls and retries |
| AgentLoop.RefuseCall | internal/agent/loop.go:530-590 | A call no step may carry is passed over twice in a run, and ends it the third time |
| AgentLoop.ValidateModelTurn | internal/agent/loop.go:1045-1074 | No fault is found exactly in a well-formed turn; an empty turn and an over-batched one are told apart from every other fault |
| AgentLoop.AnswerFault | internal/agent/loop.go:344-408 | A malformed turn is answered exactly when it is over-batched with one of three retries left or empty with one of four left, and costs that retry |
| AgentLoop.CompletionReason | internal/agent/loop.go:1175-1220 | Fully validated is reported only with all validation steps complete, implementation or validation complete only with all implementation steps complete |
| AgentLoop.CompletionIsCaused | internal/agent/loop.go:1175-1220 | What a declared completion is classified as, with its validation flag, is what declaration, plan and evidence call for |
| AgentLoop.CompleteWorkIsNotRefused | internal/agent/loop.go:442-474 | The unverified-completion guard never refuses a completion that would be classified implementation- or validation-complete |
| AgentLoop.ActOnTurn | internal/agent/loop.go:409-476 | A declared completion is refused only while the guard refuses it, at the cost of one refusal; unless the control read ends the run, one not refused ends it; tool calls keep the loop invariant |
| AgentLoop.RunRound | internal/agent/loop.go:169-901 | One round keeps the loop invariant and spends exactly one round |
| AgentLoop.CheckpointPlan | internal/agent/loop.go:145-167 | The approved plan is checkpointed before the first round |
| AgentPlan.TransitionsMoveForward | internal/agent/loop.go:1642-1659 | Every allowed transition moves a step strictly forward |
| AgentPlan.StepOwningPathInState | internal/agent/loop.go:1897-1922 | Finds a step exactly when it is the only one of its open or closed class that names the path |
| AgentPlan.StepOwningPath | internal/agent/loop.go:1828-1874 | Finds a step exactly when the request owns it through its path argument or patch target, open owners first |
| AgentPlan.OwnedThroughUnique | internal/agent/loop.go:1828-1874 | A request owns at most one step |
| AgentPlan.RequestArgument | internal/agent/loop.go:1373-1390 | The value of an argument given exactly once, and nothing otherwise |
| AgentPlan.PatchDeclaredTarget | internal/agent/loop.go:1880-1893 | The target a patch argument declares, and nothing without one |
| AgentPlan.ExecutableStepIndex | internal/agent/loop.go:1250-1297 | Finds the named step exactly when the identity is well formed and in the plan |
| AgentPlan.ValidateToolStepPathScope | internal/agent/loop.go:1338-1371 | Accepts exactly the requests whose sole canonical path argument lies in the scope of the step |
| AgentPlan.AttributedPathIsCovered | internal/agent/loop.go:1299-1371 | A path-scoped step that carries a call has an expected file that equals or is a directory prefix of the path |
| AgentPlan.CorrectedStepIsSoleOwner | internal/agent/loop.go:1828-1922 | A step other than the one the model named is the only owner of the path in its class |
| AgentPlan.AttributionIsUnique | internal/agent/loop.go:495-615 | A call belongs to at most one step, and an attributed call is never unowned |
| AgentPlan.TargetIsFirstMarked | internal/agent/loop.go:1880-1893 | The declared target is the one the first marker line names; without such a line there is none |
| AgentPlan.CompletePlanOffersNoTool | internal/agent/loop_types.go:496-509 | When all implementation steps are complete no step still offers the test tool |
| Limits.UsageTokenCount | internal/agent/limits.go:101-129 | The sum of the counts; absent exactly on a negative count or a sum above the unsigned 64-bit range |
| Limits.TokenCountOrderIndependent | internal/agent/limits.go:101-129 | The token count does not depend on the order the counts are visited in |
| Limits.AddTokens | internal/agent/limits.go:131-139 | Exact addition, refused exactly on overflow |
| Limits.CostAccumulator.Add | internal/agent/limits.go:48-69 | Adds the exact rational amount exactly when currency and sign allow it, and changes nothing otherwise |
| Limits.RationalAddIsExact | internal/agent/limits.go:48-69 | Adding and reducing loses nothing and leaves lowest terms |
| Limits.ReducedIsLowest | internal/agent/limits.go:48-69 | No equal fraction has a smaller numerator or denominator |
| Limits.AmountKnownIff | internal/agent/limits.go:84-99 | The reported amount is the exact sum, and known exactly when some fraction of 64-bit integers states it |
| Utf8.BoundText | internal/agent/loop.go:1704-1720 | The longest rune-aligned prefix of the sanitized text that fits what is left; lost text sets the flag |
| Utf8.BoundToolTexts | internal/agent/loop.go:1671-1702 | Summary, stdout and stderr share the bound: each is the longest valid cut of its sanitized input that fits what the ones before it left, nothing follows a text that was cut, and any loss sets a flag |
| Utf8.ValidPrefixIffBoundary | internal/agent/loop.go:1704-1720 | A prefix of valid text is valid exactly at a character boundary |
| Utf8.LongestCutIsTight | internal/agent/loop.go:1704-1720 | Cutting at the last boundary loses at most three bytes of room |
| Utf8.SanitizeIdentity | internal/agent/loop.go:1671-1702 | Sanitizing leaves a text alone exactly when it is valid |
| Utf8.SanitizeIsValid | internal/agent/loop.go:1671-1702 | Sanitized text is valid |
| Utf8.SanitizeKeepsText | internal/agent/loop.go:1671-1702 | Well-formed text in front of anything is kept as it is |
| Utf8.SanitizeReplacesRun | internal/agent/loop.go:1671-1702 | A whole run of bytes where no character starts becomes one replacement character, and what follows is sanitized on its own |
| Utf8.BoundUtf8 | internal/agent/repair_completion.go:674-683 | A text that fits is kept; a longer one becomes its longest valid cut followed by the mark, within the bound |
| Utf8.TruncateRuneSafe | internal/atomdoc/embeddinginput.go:201-210 | A text that fits is kept; a longer one becomes its longest cut |
| Utf8.ScansAgree | internal/atomdoc/embeddinginput.go:201-210 | On valid text the rune-start scan and the trim-until-valid scan choose the same cut |
| Utf8.EncodeTextIsInjective | internal/atomname/atomembedding.go:138-142 | Two texts have the same UTF-8 bytes exactly when they are the same text |
| Utf8.EncodeTextIsValid | internal/atomname/atomembedding.go:138-142 | The bytes of a text are well-formed, by the definition the byte cuts use |
| CaptureService.Service.Capture | internal/checkpoint/capture.go:210-406 | Under every pattern of port failures, also after a commit has taken effect, and with other captures between any two port calls that touch refs, rows or requests: every change the capture makes is a step enabled where it was taken, and everything else is what other captures are permitted; every committed checkpoint keeps its ref at the committed revision; a ref without a checkpoint remains only if a removal failed, the lookup after a failed commit failed too, or it was there before and the worktree was not preserved again; the ports are called in the one order of the protocol, and a text is committed or returned only after the secret guard has passed that very text; a new request's state says exactly what the worktree and runtime ports reported, field by field, with every list in order and each plan step under what became of it, and is captured whenever no port fails and the report is fit; a request that has an answer is answered from its record with lookups and the guard only, successfully when no port fails |
| CaptureService.Service.CaptureTwice | internal/checkpoint/capture.go:210-464 | Repeating a command that succeeded returns the same record without touching the worktree or runtime ports, whatever happened in between, and the state that record holds; this is the first state exactly when the record holds its text, always so when the record is the command's own, and otherwise two texts share one digest |
| CaptureService.Service.CaptureNew | internal/checkpoint/capture.go:236-405 | A new request is committed with its ref held, or leaves no unexcused ref behind |
| CaptureService.Service.CaptureHeld | internal/checkpoint/capture.go:262-405 | Between preserving the worktree and the deferred cleanup: when cleanup will run the command has no committed row; when the ref is kept without a row the commit is unreconciled |
| CaptureService.Service.CommitAndReconcile | internal/checkpoint/capture.go:324-366 | After a failed commit the lookup tells committed from not committed, and only a failed lookup leaves it unknown; an own row holds the text of the state |
| CaptureService.Service.Conclude | internal/checkpoint/capture.go:367-405 | The ref is kept exactly when the record is the command's own; otherwise it is removed or the capture fails |
| CaptureService.Service.Assemble | internal/checkpoint/capture.go:262-323 | A state is built exactly when the runtime is at the revisions asked for and the report makes a valid snapshot, unless a port fails; it reflects the report, is canonical, and its row passes the store's check |
| CaptureService.SnapshotReflects | internal/checkpoint/capture.go:284-310 | The sorted snapshot has each field from where the source takes it, and the reported files, actions and steps as multisets |
| CaptureService.ReflectionIsUnique | internal/checkpoint/capture.go:284-310 | Any snapshot that reflects a report is that one up to list order, so a fit report is never refused |
| CaptureService.Service.ReplayedCapture | internal/checkpoint/capture.go:427-464 | A record is replayed exactly when it answers the command, its text is canonical and the guard passes that text, and then with the stored state |
| CaptureService.Service.Commit | internal/storage/checkpoint_repository.go:218-434 | The transaction answers an old request only under its own digest, attaches the request to a checkpoint that holds the state, or inserts row and request together when no checkpoint of the run holds it, as a step that is enabled when the ref is held; it may do so and report failure |
| CaptureService.Service.Find | internal/storage/checkpoint_repository.go:187-213 | A lookup that does not fail finds exactly the recorded answer |
| CaptureService.Service.Preserve | internal/gitwork/checkpoint_snapshot.go:41-103 | Success sets exactly the command's ref, which was absent or at that revision; failure leaves the world alone or toggles that ref, with its own cleanup logged; without a committed row every change is an enabled step |
| CaptureService.Service.Remove | internal/gitwork/checkpoint_snapshot.go:107-136 | Deletes only the command's ref, and only at the given revision; without a committed row this is an enabled step |
| CaptureService.CommitKeeps | internal/checkpoint/capture.go:150-164 | Whatever the transaction did, the world stays sound and the request is answered or still open |
| CaptureService.AnswerIsValid | internal/checkpoint/capture.go:583-607 | A record of a store that keeps its contract always passes the consistency check |
| CheckpointCapture.EveryInterleavingIsSafe | internal/checkpoint/capture.go:210-406 | Under every interleaving of the steps of any number of captures, every committed checkpoint keeps its ref, no state of a run is stored twice, and no row or request is changed or lost |
| CheckpointCapture.OthersArePermitted | internal/checkpoint/capture.go:210-406 | Captures with other identities and keys do between two steps only what `Service.Others` allows |
| CheckpointCapture.EveryScheduleIsInterleaved | internal/checkpoint/capture.go:210-406 | However captures are scheduled, one with its identity and key to itself sees exactly what the contract of `Service.Capture` describes: its own enabled steps, with only permitted changes in between |
| CheckpointCapture.StepKeeps | internal/checkpoint/capture.go:210-406 | No single step separates a committed checkpoint from its ref |
| CheckpointCapture.StepIsPermitted | internal/checkpoint/capture.go:210-406 | A step leaves the ref, row and request of every other command untouched |
| CheckpointCapture.SharedIdentityLosesTheRef | internal/checkpoint/capture.go:244-261 | A second command with the same identity can release the ref before the first creates its row; that is no permitted change, and the row would then be created without its ref |
| CheckpointCapture.SplitPlanSteps | internal/checkpoint/capture.go:534-552 | Splits exactly when every state is known, in order |
| CheckpointCapture.SplitLosesNothing | internal/checkpoint/capture.go:534-552 | The split neither drops nor repeats a step |
| CheckpointCapture.AttributionTellsTheTrigger | internal/checkpoint/capture.go:497-532 | A valid command names exactly the cause its trigger asks for, and its attribution tells its trigger, up to pause and shutdown which have no cause |
| CheckpointState.OrderIsInvisible | internal/checkpoint/schema.go:145-181 | From snapshots that differ only in list order, any two sorting routines, stable or not, lead to the same verdict and on acceptance to the same snapshot |
| CheckpointState.Canonicalize | internal/checkpoint/schema.go:145-181 | With a sort that promises nothing about equal keys the result is still one function of the snapshot |
| CheckpointState.CanonicalizeIgnoresOrder | internal/checkpoint/schema.go:145-181 | Permuting any of the four lists changes neither acceptance nor result |
| CheckpointState.CanonicalizeIsIdempotent | internal/checkpoint/schema.go:145-181 | Canonicalizing a canonical snapshot gives it back |
| CheckpointState.DecodesIffCanonical | internal/checkpoint/schema.go:185-223 | A text is admitted exactly when it encodes some canonicalized snapshot and the expected digest is its own; that snapshot's state is returned |
| CheckpointState.DecodeCanonicalState | internal/checkpoint/schema.go:185-223 | The decoder computes that admission |
| CheckpointState.ValidateDirtyFiles | internal/checkpoint/schema.go:293-315 | The pass with one remembered path accepts exactly valid files with strictly increasing paths |
| CheckpointState.ValidatePlanSteps | internal/checkpoint/schema.go:317-347 | Accepts exactly steps in the right states whose identifiers are distinct across both lists |
| CheckpointState.ValidateAmbiguousActions | internal/checkpoint/schema.go:377-395 | Accepts exactly valid actions with strictly increasing identifiers |
| CheckpointState.ValidateSnapshot | internal/checkpoint/schema.go:225-291 | Accepts exactly the valid snapshots |
| Ordering.SortIsUnique | internal/checkpoint/schema.go:145-172 | Lists with distinct keys have one sorted order |
| Ordering.BeforeIsTotalOrder | internal/checkpoint/schema.go:145-172 | Go's string order is a strict total order |
| Ordering.BeforeIff | internal/checkpoint/schema.go:145-172 | A text comes first exactly if, where the two first differ, it ends or has the smaller character |
| DocRoundTrip.ParsingUndoesPrinting | internal/atomdoc/generate.go:19-53 | Whenever the printer accepts its input, reading the comment back gives the same opening, version and document if and only if the opening is normalized, holds no header phrase and no exception prefix, the document is in normal form, no prose starts with the exception prefix and the comment keeps its byte bound |
| DocFields.SchemaRoundTrip | internal/atomdoc/schema.go:98-118 | That round trip for the nineteen fields of schema version 1 |
| DocRoundTrip.FieldRoundTrip | internal/atomdoc/extract.go:300-334 | A field in normal form is read back as itself, or refused exactly when it looks like a naming exception |
| DocRoundTrip.RawFieldsOfDoc | internal/atomdoc/extract.go:274-293 | The printed lines parse into one raw field per heading, in order, with exactly the printed bodies the parser keeps |
| DocRoundTrip.ValidatedReread | internal/atomdoc/validate.go:27-69 | The validator returns a normal document unchanged unless some prose looks like an exception |
| DocRoundTrip.FramedTrip | internal/atomdoc/extract.go:189-214 | Which of opening, header and size decide whether a framed comment is read at all |
| DocRoundTrip.AdmittedIsNormal | internal/atomdoc/validate.go:27-69 | Whatever comment is admitted, its opening and document are in normal form |
| DocFields.SchemaIsGood | internal/atomdoc/schema.go:98-124 | All nineteen headings are header-shaped and distinct |
| DocPrinter.GenerateComment | internal/atomdoc/generate.go:19-53 | Prints exactly when identifier, opening, version and fields allow it, one line per body or item |
| DocParser.CommentGroupLines | internal/atomdoc/extract.go:91-109 | The lines of every comment without their markers |
| DocParser.CommentsReadAs | internal/atomdoc/extract.go:91-109 | A line comment is one line, a block comment its trimmed lines without one leading star each, and anything else is no comment |
| DocParser.FirstDescriptiveLine | internal/atomdoc/extract.go:222-244 | The first paragraph that is neither directive nor exception, normalized |
| DocParser.LocateSchemaHeader | internal/atomdoc/extract.go:246-268 | The first decisive line when it is a supported header, and nothing otherwise |
| DocParser.HeaderVersionIff | internal/atomdoc/extract.go:246-268 | A line is a header for a version exactly if it is the fixed start, digits that spell the number, and the fixed end |
| DocParser.ParseRawFields | internal/atomdoc/extract.go:274-293 | The fields and bodies as one left fold over the lines |
| DocParser.SplitListItems | internal/atomdoc/extract.go:314-334 | Items at dashes, continued by the lines after them, each collapsed |
| DocParser.AcceptedFieldIsNormal | internal/atomdoc/extract.go:300-312 | Any body whose field is accepted yields a field in normal form |
| DocValidator.CheckHeadings | internal/atomdoc/validate.go:27-57 | The unknown, duplicate, missing, count and order checks together accept exactly the schema's own list |
| DocValidator.ValidateSchema | internal/atomdoc/validate.go:27-69 | Returns the normalized fields exactly when headings and contents are acceptable; what they say is `DocWords.DocumentIsSpelled` |
| DocValidator.ValidatedIsNormal | internal/atomdoc/validate.go:27-69 | Every returned document is in normal form |
| DocValidator.AdmitComment | internal/atomdoc/extract.go:189-214 | The whole path from comment group to admitted document; what is admitted is `DocWords.CommentIsSpelled` |
| DocWords.CommentIsSpelled | internal/atomdoc/extract.go:189-214 | For every comment: it is admitted with a document exactly if it fits the byte bound, its first paragraph has the words of the opening, its first header-like line is a supported header, and the lines after it spell the document |
| DocWords.DocumentIsSpelled | internal/atomdoc/validate.go:27-69 | Lines are accepted as a document exactly if it is in normal form and they hold one block per schema field, in order, whose body says what the field says, word for word |
| DocWords.FieldIsSpelled | internal/atomdoc/extract.go:300-334 | A body is read as a field exactly if all its words are the prose, or the words after `None:` are the reason, or each dashed line with the lines up to the next dash has the words of one item |
| DocWords.OpeningIsSpelled | internal/atomdoc/extract.go:222-244 | The opening is the normal text with the words of the first paragraph, all its lines and no others |
| DocWords.FieldsAreBlocks | internal/atomdoc/extract.go:274-293 | The raw fields are the blocks of lines from one field header to the next |
| DocWrapping.BreakingABodyLine | internal/atomdoc/extract.go:274-334 | Breaking any line of a field at white space leaves what is admitted as it was, if both parts are kept as body lines and the second starts no item |
| DocWrapping.BreakingAnOpeningLine | internal/atomdoc/extract.go:216-244 | Breaking a line of the opening at white space leaves what is admitted as it was, if no part ends the paragraph or looks like a header |
| DocWrapping.PrintedLinesMayBreak | internal/atomdoc/generate.go:19-53 | Every prose, reason or item line the printer writes may be broken so |
| DocWrapping.PrintedOpeningMayBreak | internal/atomdoc/generate.go:19-53 | And so may the printed opening |
| DocWrapping.ListBreakIff | internal/atomdoc/extract.go:314-334 | A list broken at white space is read as the same list if and only if the second part is not dashed |
| DocWrapping.DroppedPartIsMissed | internal/atomdoc/extract.go:274-293 | A part that is dropped, as one that looks like a naming exception is, takes its words with it |
| DocSchema.ValidateFieldContent | internal/atomdoc/validate.go:71-118 | Accepts exactly the content policy of the field kind |
| DocSchema.FirstDisallowedControl | internal/atomdoc/validate.go:138-149 | Finds the first disallowed control character, and nothing exactly when there is none |
| DocEncoding.CanonicalIsInjective | internal/atomdoc/hash.go:85-111 | Two documents that pass field validation share a canonical string only if they say the same under every heading and carry the same version |
| DocEncoding.CanonicalDeterminesDocument | internal/atomdoc/hash.go:85-111 | On normal forms the canonical string determines version and document, both directions |
| DocFields.SchemaCanonical | internal/atomdoc/hash.go:85-111 | That determination for schema version 1 |
| DocEncoding.BodyIsRecoverable | internal/atomdoc/hash.go:91-108 | Absence, list and prose bodies cannot imitate each other and item boundaries are recoverable |
| DocEncoding.SeparatorInItemCollides | internal/atomdoc/validate.go:120-137 | Without the control-byte rejection a separator inside an item collides with an item boundary |
| DocEncoding.CanonicalizeDocument | internal/atomdoc/hash.go:85-111 | The writer computes that string |
| Identifier.SplitIdentifierWords | internal/atomname/identifier.go:173-262 | The loop over runs computes the split, which `Identifier.SplitIsTheOnlyOne` characterizes |
| Identifier.SplitObeysLaws | internal/atomname/identifier.go:173-262 | Where words end: digits join the word before them; a lowercase run is a word or makes a token plural; capitals on their own are their greedy tokens; of capitals before a lowercase run the longest token is a word and the rest starts the next, a whole token takes only a plural, and without a token two capitals stay and of more the last one starts the next word |
| Identifier.SplitLawsDecide | internal/atomname/identifier.go:173-262 | Those laws leave no choice: two splittings that obey them agree on every identifier |
| Identifier.SplitIsTheOnlyOne | internal/atomname/identifier.go:173-262 | An answer is the split exactly if some splitting that obeys the laws gives it |
| Identifier.SplitSpells | internal/atomname/identifier.go:173-262 | The words concatenate to the identifier, nothing lost or invented |
| Identifier.SplitShapes | internal/atomname/identifier.go:173-262 | Every word is non-empty: characters that are no digits, then digits |
| Identifier.GroupIdentifierRuns | internal/atomname/identifier.go:266-294 | One pass computes the maximal runs |
| Identifier.RunsSpell | internal/atomname/identifier.go:266-294 | The runs spell the identifier, each of one class, and no two neighbours could be merged |
| Identifier.FindLongestAbbreviationPrefix | internal/atomname/identifier.go:341-353 | Probing from the longest token length finds the longest prefix in the vocabulary |
| Identifier.LongestPrefixMatches | internal/atomname/identifier.go:341-353 | What is found is a token and no longer prefix is one |
| Identifier.DecomposeUpperRun | internal/atomname/identifier.go:362-374 | Consuming from the left computes the decomposition |
| Identifier.DecomposeIsGreedy | internal/atomname/identifier.go:362-374 | Every token is the longest match at its place or a single letter when there is none |
| Identifier.GreedyIsUnique | internal/atomname/identifier.go:362-374 | No other tokenization is greedy |
| Lexicon.SplitterTokensAreGood | internal/atomname/identifier.go:310-331 | The compiled tokens meet what the splitter theorems ask of a vocabulary, and the longest has ten letters |
| Lexicon.CompiledNames | internal/atomname/identifier.go:380-394 | With the compiled vocabulary display names are injective, phrases spell the lowercased name and aliases agree with phrases |
| Naming.DisplayNamesAreDistinct | internal/atomname/identifier.go:380-382 | Different names never share a display name |
| Naming.DisplayNameSpellsName | internal/atomname/identifier.go:380-382 | A display name is the words of the name with single spaces between them; without the spaces it is the name |
| Naming.PhraseSpellsLoweredName | internal/atomname/identifier.go:387-394 | A phrase is the lowercased words with single spaces between them; without the spaces it is the lowercased name |
| Naming.DeriveNormalizedPhrase | internal/atomname/identifier.go:387-394 | The loop computes the phrase |
| Naming.NormalizeAliasText | internal/atomname/alias.go:134-142 | The nested loops compute the normalized alias |
| Naming.AliasNormalizationIsIdempotent | internal/atomname/alias.go:134-142 | Normalizing a normalized alias changes nothing, for every text under the ASCII classes |
| Naming.NormalizedAliasWords | internal/atomname/alias.go:117-142 | A normalized alias is the lowercased words of each field of the text in turn, with single spaces between them |
| Naming.AliasAgreesWithPhrase | internal/atomname/alias.go:117-142 | On an identifier alias normalization is the phrase |
| Naming.PriorNameAlias | internal/atomname/alias.go:51-85 | The alias of a prior canonical name is always created and carries its phrase |
| Naming.SameNormalizedWords | internal/atomname/rename.go:92-104 | The pairwise comparison holds exactly when the phrases are equal |
| Naming.FormattingOnlyIffSamePhrase | internal/atomname/rename.go:71-104 | With the contract kept and no change asserted, a rename is formatting-only exactly when the phrases are equal and semantic-preserving exactly when they are not |
| Naming.RenameAuthorizedIff | internal/atomname/rename.go:189-241 | Exactly which renames are authorized, with the classification, version and alias each leaves |
| Embedding.ComposeNameEmbeddingInput | internal/atomname/embeddinginput.go:54-90 | The pass with a set of seen texts computes the declarative selection |
| Embedding.SurvivorsAreFresh | internal/atomname/embeddinginput.go:67-87 | Selected aliases are eligible and never repeat each other or the phrase |
| Embedding.EligibleAliasesAreSaid | internal/atomname/embeddinginput.go:67-87 | A text is said by the eligible aliases or the phrase exactly when it is said by the selection or the phrase |
| Embedding.SurvivorsInOrder | internal/atomname/embeddinginput.go:67-87 | Taken in order, an alias is selected exactly if it is eligible and neither the phrase nor an eligible alias before it says the same |
| Embedding.SegmentRoles | internal/atomname/embeddinginput.go:54-90 | Name and phrase lead with full weight, then the selected aliases in order with low weight |
| Embedding.FormattingAliasIsExcluded | internal/atomname/embeddinginput.go:67-87 | The alias of a formatting-only rename is excluded from the renamed atom's input wherever it stands, and nothing else changes |
| Embedding.InvalidatedAliasIsExcluded | internal/atomname/alias.go:99-115 | An invalidated alias keeps its lineage, is excluded from the embedding input wherever it stands while nothing else changes, and cannot be invalidated again |
| Embedding.DetermineEmbeddingInvalidationTriggers | internal/atomname/embeddinginput.go:109-144 | The comparison of joined texts and alias lists computes the triggers; which fires when is `TriggersSayWhatChanged` |
| Embedding.TriggersSayWhatChanged | internal/atomname/embeddinginput.go:109-144 | The content trigger fires exactly when name or phrase changed and the alias trigger exactly when the selected alias texts did |
| Embedding.NoTriggerIffSameSegments | internal/atomname/embeddinginput.go:109-132 | Between composed inputs no trigger fires exactly when the segments are equal |
| Embedding.DerivedTextsHaveNoSeparator | internal/atomname/embeddinginput.go:122-132 | Names and phrases hold no unit separator, so that condition is met |
| Embedding.SeparatorsCanBeForged | internal/atomname/embeddinginput.go:122-132 | Without that condition two different inputs look alike |
| EmbeddingStream.DecodeOfEncode | internal/atomname/atomembedding.go:116-155 | Every input whose lengths fit 32 bits can be read back from its byte stream, whatever bytes its texts hold |
| EmbeddingStream.EncodeIsInjective | internal/atomname/atomembedding.go:116-155 | Two inputs feed the hash the same bytes exactly when they are equal |
| EmbeddingStream.DecodesIffEncoded | internal/atomname/atomembedding.go:116-155 | The streams that can be read are exactly those some input writes |
| EmbeddingStream.LengthsWrap | internal/atomname/atomembedding.go:138-142 | With 2^32 segments two different inputs are written as the same bytes, so the bound is needed |
| EmbeddingStream.NoTriggerIffSameStream | internal/atomname/embeddinginput.go:109-144 | No trigger fires exactly when the name part of the stream is unchanged, for any Unicode text whose lengths fit 32 bits |
| EmbeddingStream.WriteInput | internal/atomname/atomembedding.go:116-155 | The writer produces that stream |
| AppLog.EveryHistoryIsSound | internal/applog/applog.go:225-475 | Over every sequence of log, clear, verbosity and settings operations the record bound holds, accepted since the last clear equals retained plus dropped, stored records are clean and a debug filter implies verbose |
| AppLog.EveryHistoryIsInOrder | internal/applog/applog.go:276-350 | Under a clock that never goes back the retained records are a suffix of the accepted ones |
| AppLog.RotationKeepsSurvivors | internal/applog/applog.go:332-350 | Rotation keeps, in order, exactly the unexpired records that fewer than the bound follow, so as many as are unexpired up to the bound |
| AppLog.EveryHistoryIsExact | internal/applog/applog.go:276-350 | Under a clock that never goes back a record is gone exactly if some rotation since it was stored found it expired or found as many newer records as the bound then was |
| AppLog.LatestRotationDecides | internal/applog/applog.go:332-350 | Unless earlier bounds were tighter, what is retained is exactly the unexpired ones among the last records up to the bound |
| AppLog.VerbosityGatesDebug | internal/applog/applog.go:421-434 | Switching verbosity decides about debug records only, and when it is off none is stored |
| AppLog.Compact | internal/applog/applog.go:332-350 | The in-place compaction equals the simple filter |
| AppLog.RotateBuffer | internal/applog/applog.go:332-350 | Both passes in place equal the rotation that `AppLog.RotationKeepsSurvivors` characterizes |
| AppLog.Logger.Log | internal/applog/applog.go:276-328 | Stores exactly the acceptable records, redacted, and rotates |
| AppLog.Logger.Clear | internal/applog/applog.go:386-398 | Empties the log and reports how many records it held |
| AppLog.Logger.SetVerbose | internal/applog/applog.go:421-434 | Changes verbosity and filter as the history step says |
| AppLog.Logger.ApplySettings | internal/applog/applog.go:462-475 | Applies exactly settings above the minimums |
| AppLog.New | internal/applog/applog.go:225-251 | A logger exists exactly with a redactor, a clock, a known or empty level, and a debug filter only when verbose; it starts empty with normalized options |
| AppLog.RedactedIsClean | internal/applog/applog.go:276-328 | A stored record holds only redacted text, no forbidden field, and a known event attributed to its task |
| Acceptance.ExactRequiredCheckSet | internal/acceptance/model.go:246-268 | Accepts live checks exactly when they are the reviewed ones, each once |
| Acceptance.Pigeonhole | internal/acceptance/model.go:246-268 | As many distinct values drawn from the other list can only be a reordering of it |
| Acceptance.EvaluateAcceptanceWithLiveChecks | internal/acceptance/model.go:178-244 | A gate can accept exactly when the review is not stale, every live check is passed, failed or waived and the acknowledgements are exactly the failed or waived ones |
| Acceptance.EvaluateChecks | internal/acceptance/model.go:191-244 | A gate is returned exactly for valid input, lists the checks that hold acceptance up by why and in order, and has no gate error exactly when it can accept |
| Acceptance.TallyChecks | internal/acceptance/model.go:205-236 | Lists the identifiers of the running, unacknowledged and blocking checks, each list in the order of the checks |
| Acceptance.EmptyLists | internal/acceptance/model.go:205-236 | No check is listed exactly when none runs or blocks and every failed or waived one is acknowledged |
| Acceptance.GateErrorNames | internal/acceptance/model.go:270-283 | The gate error names what is to be dealt with first: staleness, running checks, missing acknowledgements, then blocks, each exactly when that is so |
| Acceptance.CollectAcknowledgements | internal/acceptance/model.go:196-204 | Collects the acknowledgements exactly when none is repeated |
| Acceptance.Validate | internal/acceptance/model.go:117-152 | Accepts exactly the valid reviews |

## Left out

- Ports behind interfaces (model provider, tool executor, SQLite, Git, redaction): they answer arbitrarily within the contract their comments state; wall-clock deadlines appear as an arbitrary stop.
- JSON and SHA-256: an encoder with a decoder that undoes it and a digest function, passed as parameters; claims about hashes are claims about the bytes that are hashed, and no claim assumes that digests do not collide.
- Tool feedback and advice texts of the loop, the repository context it refreshes, and declarations shown to the model: they reach only the model, whose answers are arbitrary here.
- Unicode letters in identifiers and case folding: `Identifier` and `Naming` use ASCII classes, where the source's byte slicing and its rune classes agree; the embedding stream is about arbitrary text and bytes.
- Go syntax trees, comment location and `path.Clean`: documentation starts from the comments of a group, and paths are described by what cleaning leaves alone.
- Invalid UTF-8 in documentation, names and snapshots: strings are sequences of Unicode scalar values; `Utf8` treats bytes.
- Documentation quality flags, naming grammar, filler words and naming exceptions, name collisions, label truncation, embedding provenance and lifecycle triggers: single decisions without state.
- Snapshot ledger details that no check inspects are one opaque field of the budget.
- Validation and run digests of repair completion: their file and step lists are written without a boundary, so the encoding is not injective.
- Recovery, worktree discovery, command-line, HTTP and desktop code: plumbing around these cores.
- AppLog.EveryHistoryIsInOrder: needs a clock that never goes back, because expiry drops records by time wherever they stand.
- DocRoundTrip.ParsingUndoesPrinting: takes the printed lines as the comments of the group; that the Go scanner reads them so is not part of this model.
