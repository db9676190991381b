/**
 The bounded observe-think-act loop. Every port may answer anything or fail; a failing write
 may or may not have landed. Whatever the ports do, the events stay within the protocol of
 AgentTrace, and what a run reports is what its events say.
 */
module AgentLoop {
  import opened Common
  import opened AgentPlan
  import opened AgentTrace
  import opened AgentHistory
  import opened Limits
  import Utf8

  const MAXIMUM_EMPTY_TURN_RETRIES: nat := 4
  const MAXIMUM_OUT_OF_SCOPE_RETRIES: nat := 2
  const MAXIMUM_BATCHING_RETRIES: nat := 3

  // ---------------------------------------------------------------- outcomes

  datatype OutcomeKind =
    | OutcomeImplementationComplete | OutcomeValidationComplete | OutcomeAwaitingDirection
    | OutcomeAwaitingApproval | OutcomePermissionDenied | OutcomePaused | OutcomeCancelled
    | OutcomeStopped | OutcomeBudgetExhausted | OutcomePolicyBlocked | OutcomeLimitReached

  datatype Reason =
    | WallClock | TaskPaused | TaskCancelled | TaskStopped | PolicyNotCurrent | HardBudget
    | ModelCancelled | ModelDeadline | PerRoundTokens | CumulativeTokens | CostReached
    | DeclaredTooEarly | RequestedDirection | FullyValidated | EvidenceIncomplete | ImplementationOnly
    | ToolCallLimit | ApprovalNeeded | DeniedByPolicy | ToolCancelled | RepeatedFailure | RoundLimit

  function KindOf(reason: Reason): OutcomeKind {
    match reason
    case TaskPaused => OutcomePaused
    case TaskCancelled | ModelCancelled | ToolCancelled => OutcomeCancelled
    case TaskStopped => OutcomeStopped
    case PolicyNotCurrent => OutcomePolicyBlocked
    case HardBudget => OutcomeBudgetExhausted
    case DeclaredTooEarly | RequestedDirection | RepeatedFailure => OutcomeAwaitingDirection
    case FullyValidated => OutcomeValidationComplete
    case EvidenceIncomplete | ImplementationOnly => OutcomeImplementationComplete
    case ApprovalNeeded => OutcomeAwaitingApproval
    case DeniedByPolicy => OutcomePermissionDenied
    case WallClock | ModelDeadline | PerRoundTokens | CumulativeTokens | CostReached | ToolCallLimit | RoundLimit =>
      OutcomeLimitReached
  }

  /** Reasons that end a run because a completion signal was accepted. */
  predicate FromCompletion(reason: Reason) {
    reason in {DeclaredTooEarly, RequestedDirection, FullyValidated, EvidenceIncomplete, ImplementationOnly}
  }

  /** Reasons that may end a run whose model has not yet answered in the round it counts. */
  predicate WhileWaiting(reason: Reason) {
    reason in {TaskPaused, TaskCancelled, TaskStopped, PolicyNotCurrent, HardBudget, ModelCancelled, ModelDeadline}
  }

  datatype LoopOutcome = LoopOutcome(
    kind: OutcomeKind, reason: Reason, rounds: nat, toolCalls: nat, tokens: nat,
    cost: ExactAmount, plan: Plan, validationRequired: bool)

  datatype RunError =
    | InvalidInput | PortError | MalformedTurn | AccountingUnknown | UnknownTool | StepRefused
    | OutOfScope | AuthorityInvalid | InvalidTransition | ResultInvalid

  datatype Exit = Finished(outcome: LoopOutcome) | Aborted(error: RunError)

  /** The variables of one run, and the events it has produced. */
  datatype RunState = RunState(
    rounds: nat, toolCalls: nat, tokens: nat, plan: Plan,
    batchingRetries: nat, emptyTurnRetries: nat, outOfScopeRetries: nat, refusals: nat,
    writesSinceLastTest: bool, lastTestFailed: bool,
    failureCounts: map<Fingerprint, nat>, callIDs: set<string>, modelRequestIDs: set<string>,
    trace: Trace)

  function Finish(s: RunState, cost: ExactAmount, reason: Reason, validationRequired: bool): Exit {
    Finished(LoopOutcome(KindOf(reason), reason, s.rounds, s.toolCalls, s.tokens, cost, s.plan, validationRequired))
  }

  // ---------------------------------------------------------------- causes

  /** A turn that is not the fixed model's own, or not a new one. */
  ghost predicate Misidentified(input: LoopInput, k: Facts, turn: ModelTurn) {
    turn.model != input.model || turn.requestID == "" || turn.requestID in k.earlier
  }

  /** Why a run may end without an outcome. */
  ghost predicate AbortCaused(x: Executor, input: LoopInput, k: Facts, error: RunError) {
    match error
    case InvalidInput => false
    case PortError => k.note == Some(PortFailed)
    case InvalidTransition => !OnlyRunStates(input.plan)
    case AuthorityInvalid =>
      k.note.Some? && k.note.value.CallRouted?
      && !AuthorizationValid(x, input, k.note.value.routed, k.note.value.authorization)
    case ResultInvalid =>
      && k.note.Some? && k.note.value.ResultRejected?
      && k.request.Some? && Rejectable(k.note.value.rejected, k.request.value.id)
    case AccountingUnknown =>
      k.turn.Some? && (TokenCount(k.turn.value.usage).None? || !Chargeable(input.limits.maximumCost.currency, k.turn.value.cost))
    case MalformedTurn =>
      && k.turn.Some?
      && (|| Misidentified(input, k, k.turn.value)
          || !WellFormedTurn(k.turn.value, input.limits.maximumToolCallsPerRound)
          || (k.call.Some? && (k.call.value.id in k.started || k.note == Some(CallUndecodable(k.call.value.id)))))
    case UnknownTool => k.call.Some? && k.call.value.name !in input.tools
    case StepRefused =>
      && k.call.Some? && k.call.value.name in input.tools
      && forall request, index: nat :: Carries(k.call.value, request) ==>
           !Attributed(k.plan, k.call.value.step, input.tools[k.call.value.name], request, index)
    case OutOfScope =>
      k.call.Some? && exists request :: Carries(k.call.value, request) && Unowned(k.plan, k.call.value.step, request)
  }

  /** The request a proposed call stands for. */
  predicate Carries(call: ProposedCall, request: ToolRequest) {
    call.arguments == Some(request.arguments) && request.id == call.id && request.name == call.name
  }

  /** The latest turn declared this and nothing else. */
  predicate Declared(k: Facts, signal: Completion) {
    k.turn.Some? && Declares(k.turn.value) && k.turn.value.completion == signal
  }

  /** Why a run that durable control lets go on may end with an outcome. */
  ghost predicate LiveCause(input: LoopInput, k: Facts, validated: bool, kind: OutcomeKind, reason: Reason)
    requires input.limits.maximumCost.denominator >= 1
  {
    match kind
    case OutcomeCancelled =>
      || (reason == ModelCancelled && k.note.Some? && k.note.value.ModelFailed? && k.note.value.cancelled)
      || (reason == ToolCancelled && k.result.Some? && k.result.value.state == WasCancelled)
    case OutcomeAwaitingApproval =>
      k.note.Some? && k.note.value.CallRouted? && k.note.value.authorization.classification.outcome == ApprovalRequired
    case OutcomePermissionDenied =>
      k.note.Some? && k.note.value.CallRouted? && k.note.value.authorization.classification.outcome == Denied
    case OutcomeLimitReached =>
      || (reason == WallClock && k.note == Some(DeadlinePassed))
      || (reason == ModelDeadline && k.note == Some(ModelFailed(false, true)))
      || (reason == PerRoundTokens && k.turn.Some? && TokenCount(k.turn.value.usage).Some?
          && TokenCount(k.turn.value.usage).value > input.limits.maximumTokensPerRound)
      || (reason == CumulativeTokens && k.tokens > input.limits.maximumTokens)
      || (reason == CostReached && k.cost > CostLimit(input))
      || (reason == ToolCallLimit && |k.started| == input.limits.maximumToolCalls && k.call.Some?)
      || (reason == RoundLimit && k.round == input.limits.maximumRounds && k.complete)
    case OutcomeAwaitingDirection =>
      || (reason == RepeatedFailure && k.result.Some? && k.result.value.state != Succeeded)
      || (reason == RequestedDirection && Declared(k, NeedsDirection))
      || (reason == DeclaredTooEarly && !ImplementationStepsComplete(k.plan)
          && (Declared(k, ImplementationComplete) || Declared(k, ValidationComplete)))
    case OutcomeImplementationComplete =>
      && ImplementationStepsComplete(k.plan)
      && (|| (reason == ImplementationOnly && Declared(k, ImplementationComplete))
          || (reason == EvidenceIncomplete && Declared(k, ValidationComplete) && !validated))
    case OutcomeValidationComplete =>
      reason == FullyValidated && ImplementationStepsComplete(k.plan) && Declared(k, ValidationComplete) && validated
    case _ => false
  }

  /**
   Why a run may report an outcome. A control read that stops the run decides the outcome, and
   only such a read gives the outcomes that name it; otherwise the cause is in the history.
   */
  ghost predicate FinishCaused(input: LoopInput, k: Facts, o: LoopOutcome)
    requires input.limits.maximumCost.denominator >= 1
  {
    && k.control.Some?
    && var c := k.control.value;
    && var validated := c.validationComplete && ValidationStepsComplete(k.plan);
    && (o.kind == OutcomePaused <==> c.disposition == PauseRequested || c.disposition == Paused)
    && (o.kind == OutcomeStopped <==> c.disposition == Stopped)
    && (c.disposition == Cancelled ==> o.kind == OutcomeCancelled) && (o.reason == TaskCancelled <==> c.disposition == Cancelled)
    && (o.kind == OutcomePolicyBlocked <==> c.disposition == Active && !c.policyCurrent)
    && (o.kind == OutcomeBudgetExhausted <==> c.disposition == Active && c.policyCurrent && !c.budgetAvailable)
    && (Live(c) ==> LiveCause(input, k, validated, o.kind, o.reason))
    && (o.validationRequired <==>
          !(o.kind in {OutcomeImplementationComplete, OutcomeValidationComplete} && validated))
    && (k.tokens > input.limits.maximumTokens <==> o.reason == CumulativeTokens)
    && (k.cost > CostLimit(input) <==> o.reason == CostReached)
  }

  /** A run ends only for a cause its history shows. */
  ghost predicate Caused(x: Executor, input: LoopInput, k: Facts, exit: Exit) {
    match exit
    case Finished(o) => input.limits.maximumCost.denominator >= 1 && FinishCaused(input, k, o)
    case Aborted(error) => AbortCaused(x, input, k, error)
  }

  // ---------------------------------------------------------------- invariants

  function Retries(s: RunState): nat {
    s.batchingRetries + s.emptyTurnRetries + s.outOfScopeRetries + s.refusals
  }

  /** Counters inside their bounds; each finished round paid for itself. */
  predicate Bounded(input: LoopInput, s: RunState) {
    && s.rounds <= input.limits.maximumRounds
    && s.toolCalls <= input.limits.maximumToolCalls
    && s.batchingRetries <= MAXIMUM_BATCHING_RETRIES
    && s.emptyTurnRetries <= MAXIMUM_EMPTY_TURN_RETRIES
    && s.outOfScopeRetries <= MAXIMUM_OUT_OF_SCOPE_RETRIES
    && s.refusals <= MAXIMUM_UNVERIFIED_COMPLETION_REFUSALS
    && s.rounds <= s.toolCalls + Retries(s) + 1
  }

  predicate UniqueIDs(plan: Plan) {
    forall i, j :: 0 <= i < j < |plan.steps| ==> plan.steps[i].id != plan.steps[j].id
  }

  /** The failures counted are those recorded, and none has reached the limit. */
  ghost predicate FailuresOpen(input: LoopInput, m: Monitor, s: RunState) {
    && m.failures == s.failureCounts
    && Below(s.failureCounts, input.limits.maximumIdenticalFailures)
  }

  /** The run's counters follow its events: at most one turn, start or declaration is not yet accounted for. */
  ghost predicate Tallies(m: Monitor, s: RunState) {
    && m.round <= s.rounds <= m.round + 1
    && s.toolCalls <= |m.started| <= s.toolCalls + 1
    && s.refusals <= m.completions <= s.refusals + 1
  }

  /** The run's variables are what the monitor read off its events. */
  ghost predicate Agrees(m: Monitor, s: RunState) {
    && m.plan == s.plan && m.started == s.callIDs && m.modelIDs == s.modelRequestIDs
    && m.tokens == s.tokens
    && m.untested == s.writesSinceLastTest && m.testFailed == s.lastTestFailed
    && |s.callIDs| == s.toolCalls && Tallies(m, s) && UniqueIDs(s.plan)
  }

  ghost predicate Costs(input: LoopInput, cost: CostAccumulator, m: Monitor)
    reads cost
  {
    cost.Valid() && cost.Total() == m.cost && cost.currency == input.limits.maximumCost.currency
  }

  /** A point of the run where the next event may follow. */
  ghost predicate At(x: Executor, input: LoopInput, s: RunState, m: Monitor) {
    && Replay(x, input, s.trace) == Some(m) && Agrees(m, s)
    && Bounded(input, s) && ValidInput(input) && s.tokens <= input.limits.maximumTokens && m.cost <= CostLimit(input)
  }

  /** What a finished run reports, against its events. */
  ghost predicate Honest(x: Executor, input: LoopInput, s: RunState, o: LoopOutcome) {
    && Accepts(x, input, s.trace)
    && var m := Replay(x, input, s.trace).value;
    && o.kind == KindOf(o.reason) && o.rounds == s.rounds && o.toolCalls == s.toolCalls
    && o.plan == m.plan && o.tokens == m.tokens
    && o.tokens <= input.limits.maximumTokens + input.limits.maximumTokensPerRound
    && (o.cost.known <==> Statable(m.cost))
    && (o.cost.known ==> o.cost.denominator >= 1 && AmountValue(o.cost) == m.cost)
    && (o.reason == FullyValidated ==> ValidationStepsComplete(o.plan))
    && (o.kind in {OutcomeImplementationComplete, OutcomeValidationComplete} ==> ImplementationStepsComplete(o.plan))
    && (FromCompletion(o.reason) ==>
          && m.completions == s.refusals + 1
          && (|| s.refusals == MAXIMUM_UNVERIFIED_COMPLETION_REFUSALS
              || !ToolCanStillBeCalled(o.plan, TOOL_TEST)
              || (!m.untested && !m.testFailed)))
    && |m.started| == o.toolCalls && (m.round == o.rounds || WhileWaiting(o.reason))
    && (o.reason == RepeatedFailure ==> Repeated(x, input, s.trace, m))
  }

  /** The action that just failed has now failed as often as the limit. */
  ghost predicate Repeated(x: Executor, input: LoopInput, t: Trace, m: Monitor) {
    && m.phase.Settling? && Latest(ResultOf, t).Some?
    && var f := FailedActionFingerprint(x, m.phase.rec.request, Latest(ResultOf, t).value);
       FailureCount(m.failures, f) == input.limits.maximumIdenticalFailures
  }

  /** Everything a run guarantees when it stops, however it stops. */
  ghost predicate StopsWell(x: Executor, input: LoopInput, s: RunState, exit: Exit) {
    && Accepts(x, input, s.trace) && Bounded(input, s) && Tallies(Replay(x, input, s.trace).value, s)
    && (exit.Finished? ==> Honest(x, input, s, exit.outcome))
    && CausedWhen(x, input, FactsIn(input, s.trace, Replay(x, input, s.trace).value), exit)
  }

  // Marks the facts whose causes are to be looked at.
  predicate FactsAt(k: Facts) { true }

  ghost predicate CausedWhen(x: Executor, input: LoopInput, facts: Facts, exit: Exit) {
    forall k {:trigger FactsAt(k)} :: FactsAt(k) && k == facts ==> Caused(x, input, k, exit)
  }

  /** Since the monitor was in `m`, no turn was taken and no call started. */
  ghost predicate Within(x: Executor, input: LoopInput, t: Trace, m: Monitor) {
    && Accepts(x, input, t)
    && var k := Replay(x, input, t).value;
    && k.round == m.round && k.started == m.started && k.completions == m.completions
  }

  /** A failed port ends the run, whether or not its write landed. */
  lemma FailureAborts(x: Executor, input: LoopInput, s: RunState, s': RunState, m: Monitor)
    requires At(x, input, s, m) && s' == s.(trace := s'.trace, plan := s'.plan)
    requires Within(x, input, s'.trace, m) && PortHasFailed(s'.trace)
    ensures StopsWell(x, input, s', Aborted(PortError))
  {}

  /** An ordinary stop between events reports the current variables. */
  lemma FinishIsHonest(x: Executor, input: LoopInput, s: RunState, m: Monitor, cost: CostAccumulator, reason: Reason, v: bool)
    requires Replay(x, input, s.trace) == Some(m) && Bounded(input, s) && ValidInput(input)
    requires m.plan == s.plan && m.tokens == s.tokens && cost.Valid() && m.cost == cost.Total()
    requires s.tokens <= input.limits.maximumTokens + input.limits.maximumTokensPerRound
    requires Tallies(m, s) && |m.started| == s.toolCalls && (m.round == s.rounds || WhileWaiting(reason))
    requires !FromCompletion(reason) && (reason == RepeatedFailure ==> Repeated(x, input, s.trace, m))
    requires FinishCaused(input, FactsIn(input, s.trace, m), Finish(s, cost.Amount(), reason, v).outcome)
    ensures StopsWell(x, input, s, Finish(s, cost.Amount(), reason, v))
  {
    AmountKnownIff(cost);
  }

  /** A stop that durable control did not ask for. */
  lemma LiveFinishIsHonest(x: Executor, input: LoopInput, s: RunState, m: Monitor, cost: CostAccumulator, reason: Reason)
    requires Replay(x, input, s.trace) == Some(m) && Bounded(input, s) && ValidInput(input) && m.live
    requires m.plan == s.plan && m.tokens == s.tokens && cost.Valid() && m.cost == cost.Total()
    requires s.tokens <= input.limits.maximumTokens + input.limits.maximumTokensPerRound
    requires Tallies(m, s) && |m.started| == s.toolCalls && (m.round == s.rounds || WhileWaiting(reason))
    requires KindOf(reason) !in {OutcomeImplementationComplete, OutcomeValidationComplete}
    requires !FromCompletion(reason) && (reason == RepeatedFailure ==> Repeated(x, input, s.trace, m))
    requires m.tokens > input.limits.maximumTokens <==> reason == CumulativeTokens
    requires m.cost > CostLimit(input) <==> reason == CostReached
    requires LiveCause(input, FactsIn(input, s.trace, m), true, KindOf(reason), reason)
    ensures StopsWell(x, input, s, Finish(s, cost.Amount(), reason, true))
  {
    TurnStateMeaning(x, input, s.trace);
    FinishIsHonest(x, input, s, m, cost, reason, true);
  }

  /** Noting what was learned changes nothing else. */
  lemma NoteKeeps(x: Executor, input: LoopInput, s: RunState, m: Monitor, note: Observation)
    requires At(x, input, s, m) && !note.CallRefused? && !note.ToolAnswered?
    ensures At(x, input, s.(trace := s.trace + [Note(note)]), m)
    ensures Latest(NoteOf, s.trace + [Note(note)]) == Some(note)
  {
    NoteReplay(x, input, s.trace, note);
    LatestAppend(NoteOf, s.trace, Note(note));
  }

  /** The run ends here without an outcome. */
  lemma AbortIsHonest(x: Executor, input: LoopInput, s: RunState, m: Monitor, error: RunError)
    requires At(x, input, s, m) && AbortCaused(x, input, FactsIn(input, s.trace, m), error)
    ensures StopsWell(x, input, s, Aborted(error))
  {}

  // ---------------------------------------------------------------- ports

  ghost predicate PortHasFailed(t: Trace) {
    Latest(NoteOf, t) == Some(PortFailed)
  }

  /** A write that may fail, and may have landed even so; a failure is noted. */
  method Persist(x: Executor, input: LoopInput, t: Trace, e: Event) returns (ok: bool, after: Trace)
    requires Accepts(x, input, t) && Accepts(x, input, t + [e]) && input.limits.maximumCost.denominator >= 1
    ensures ok ==> after == t + [e]
    ensures !ok ==> PortHasFailed(after)
    ensures Replay(x, input, after) == Replay(x, input, t) || Replay(x, input, after) == Replay(x, input, t + [e])
  {
    var landed: bool := *;
    ok := *;
    if ok {
      return true, t + [e];
    }
    var seen := if landed then t + [e] else t;
    NoteReplay(x, input, seen, PortFailed);
    LatestAppend(NoteOf, seen, Note(PortFailed));
    return false, seen + [Note(PortFailed)];
  }

  function ControlStop(control: ControlState): (r: Option<Reason>)
    ensures r.None? <==> Live(control)
    ensures r.Some? ==> WhileWaiting(r.value)
  {
    match control.disposition
    case PauseRequested | Paused => Some(TaskPaused)
    case Cancelled => Some(TaskCancelled)
    case Stopped => Some(TaskStopped)
    case Active =>
      if !control.policyCurrent then Some(PolicyNotCurrent)
      else if !control.budgetAvailable then Some(HardBudget)
      else None
  }

  /** The run ended at a control read: it failed, or it found that the run may not go on. */
  predicate ByControl(exit: Exit) {
    exit == Aborted(PortError) || (exit.Finished? && WhileWaiting(exit.outcome.reason))
  }

  /** A control read that stops the run gives the outcome that names it. */
  lemma ControlIsCaused(input: LoopInput, k: Facts, control: ControlState, o: LoopOutcome)
    requires input.limits.maximumCost.denominator >= 1 && k.control == Some(control) && ControlStop(control).Some?
    requires k.tokens <= input.limits.maximumTokens && k.cost <= CostLimit(input)
    requires o.reason == ControlStop(control).value && o.kind == KindOf(o.reason) && o.validationRequired
    ensures FinishCaused(input, k, o)
  {}

  lemma ControlFinishes(x: Executor, input: LoopInput, s: RunState, m: Monitor, cost: CostAccumulator, control: ControlState)
    requires At(x, input, s, m) && cost.Valid() && m.cost == cost.Total() && ControlStop(control).Some?
    requires Latest(ControlOf, s.trace) == Some(control)
    ensures StopsWell(x, input, s, Finish(s, cost.Amount(), ControlStop(control).value, true))
  {
    var reason := ControlStop(control).value;
    ControlIsCaused(input, FactsIn(input, s.trace, m), control, Finish(s, cost.Amount(), reason, true).outcome);
    FinishIsHonest(x, input, s, m, cost, reason, true);
  }

  /** Reads durable control and stops the run unless it may go on. */
  method Gate(x: Executor, input: LoopInput, s: RunState, cost: CostAccumulator, ghost m: Monitor)
    returns (s': RunState, control: ControlState, stop: Option<Exit>)
    requires At(x, input, s, m) && Costs(input, cost, m)
    ensures s' == s.(trace := s'.trace)
    ensures stop.None? ==> Live(control) && At(x, input, s', m.(live := true)) && s'.trace == s.trace + [ControlRead(control)]
    ensures stop.Some? ==> StopsWell(x, input, s', stop.value) && ByControl(stop.value)
  {
    var ok: bool := *;
    control := *;
    if !ok {
      s' := s.(trace := s.trace + [Note(PortFailed)]);
      NoteKeeps(x, input, s, m, PortFailed);
      AbortIsHonest(x, input, s', m, PortError);
      return s', control, Some(Aborted(PortError));
    }
    s' := s.(trace := s.trace + [ControlRead(control)]);
    ReplayAppend(x, input, s.trace, ControlRead(control));
    LatestAppend(ControlOf, s.trace, ControlRead(control));
    var reason := ControlStop(control);
    if reason.Some? {
      ControlFinishes(x, input, s', m.(live := false), cost, control);
      return s', control, Some(Finish(s', cost.Amount(), reason.value, true));
    }
    return s', control, None;
  }

  datatype ModelAnswer = BindBlocked | BindError | ModelError(cancelled: bool, deadline: bool) | Answer(turn: ModelTurn)

  /** Asks the model for one turn; the answer is untrusted. */
  method ObserveThink(x: Executor, input: LoopInput, s: RunState, cost: CostAccumulator, ghost m: Monitor)
    returns (s': RunState, turn: Option<ModelTurn>, stop: Option<Exit>)
    requires At(x, input, s, m) && m.live && Costs(input, cost, m)
    ensures stop.None? ==> s' == s && turn.Some?
    ensures stop.Some? ==> StopsWell(x, input, s', stop.value)
  {
    var answer: ModelAnswer := *;
    if answer.Answer? {
      return s, Some(answer.turn), None;
    }
    turn := None;
    if answer.ModelError? && (answer.cancelled || answer.deadline) {
      s', stop := ModelInterrupted(x, input, s, cost, m, answer.cancelled, answer.deadline);
    } else {
      s', stop := ActionBlocked(x, input, s, cost, m, !answer.BindError?);
    }
  }

  lemma InterruptionFinishes(x: Executor, input: LoopInput, s: RunState, m: Monitor, cost: CostAccumulator, cancelled: bool, deadline: bool)
    requires At(x, input, s, m) && cost.Valid() && m.cost == cost.Total() && m.live && (cancelled || deadline)
    requires Latest(NoteOf, s.trace) == Some(ModelFailed(cancelled, deadline))
    ensures StopsWell(x, input, s, Finish(s, cost.Amount(), if cancelled then ModelCancelled else ModelDeadline, true))
  {
    if cancelled {
      LiveFinishIsHonest(x, input, s, m, cost, ModelCancelled);
    } else {
      LiveFinishIsHonest(x, input, s, m, cost, ModelDeadline);
    }
  }

  /** The model did not answer in time or was cancelled: control may say why. */
  method ModelInterrupted(x: Executor, input: LoopInput, s: RunState, cost: CostAccumulator, ghost m: Monitor, cancelled: bool, deadline: bool)
    returns (s': RunState, stop: Option<Exit>)
    requires At(x, input, s, m) && Costs(input, cost, m) && (cancelled || deadline)
    ensures stop.Some? && StopsWell(x, input, s', stop.value)
  {
    var note := ModelFailed(cancelled, deadline);
    NoteKeeps(x, input, s, m, note);
    var noted := s.(trace := s.trace + [Note(note)]);
    var control;
    s', control, stop := Gate(x, input, noted, cost, m);
    if stop.Some? {
      return;
    }
    LatestAppend(NoteOf, noted.trace, ControlRead(control));
    var reason := if cancelled then ModelCancelled else ModelDeadline;
    InterruptionFinishes(x, input, s', m.(live := true), cost, cancelled, deadline);
    stop := Some(Finish(s', cost.Amount(), reason, true));
  }

  /** The action failed or could not be bound: control may say why, and otherwise the port has failed. */
  method ActionBlocked(x: Executor, input: LoopInput, s: RunState, cost: CostAccumulator, ghost m: Monitor, asks: bool)
    returns (s': RunState, stop: Option<Exit>)
    requires At(x, input, s, m) && Costs(input, cost, m)
    ensures s' == s.(trace := s'.trace) && stop.Some? && StopsWell(x, input, s', stop.value)
  {
    NoteKeeps(x, input, s, m, PortFailed);
    s' := s.(trace := s.trace + [Note(PortFailed)]);
    if asks {
      ghost var noted := s'.trace;
      var control;
      s', control, stop := Gate(x, input, s', cost, m);
      if stop.Some? {
        return;
      }
      LatestAppend(NoteOf, noted, ControlRead(control));
      AbortIsHonest(x, input, s', m.(live := true), PortError);
    }
    stop := Some(Aborted(PortError));
  }

  // ---------------------------------------------------------------- accounting

  lemma EarlierIsBefore(x: Executor, input: LoopInput, t: Trace, e: Event)
    requires Accepts(x, input, t) && e.Turn?
    ensures EarlierTurnIDs(t + [e]) == Replay(x, input, t).value.modelIDs
  {
    TurnStateMeaning(x, input, t);
    assert (t + [e])[..|t|] == t;
  }

  lemma TurnAborts(x: Executor, input: LoopInput, s: RunState, s': RunState, m: Monitor, turn: ModelTurn, error: RunError)
    requires At(x, input, s, m) && CanTurn(input, m, s.rounds) && m.completions == s.refusals
    requires s' == s.(trace := s'.trace, tokens := s'.tokens, modelRequestIDs := s'.modelRequestIDs)
    requires Replay(x, input, s'.trace) == Some(AfterTurn(input, m, s.rounds, turn))
    requires AbortCaused(x, input, FactsIn(input, s'.trace, AfterTurn(input, m, s.rounds, turn)), error)
    ensures StopsWell(x, input, s', Aborted(error))
  {}

  /** The turn breaks this limit, and no limit that is checked before it. */
  ghost predicate Breaks(input: LoopInput, m: Monitor, n: Monitor, turn: ModelTurn, reason: Reason)
    requires input.limits.maximumCost.denominator >= 1
  {
    match reason
    case PerRoundTokens =>
      && TokenCount(turn.usage).Some? && TokenCount(turn.usage).value > input.limits.maximumTokensPerRound
      && n.tokens == m.tokens && n.cost == m.cost
    case CumulativeTokens =>
      input.limits.maximumTokens < n.tokens <= input.limits.maximumTokens + input.limits.maximumTokensPerRound && n.cost == m.cost
    case CostReached => n.tokens <= input.limits.maximumTokens && n.cost > CostLimit(input)
    case _ => false
  }

  lemma TurnFinishes(x: Executor, input: LoopInput, s: RunState, s': RunState, m: Monitor, turn: ModelTurn, cost: CostAccumulator, reason: Reason)
    requires At(x, input, s, m) && CanTurn(input, m, s.rounds) && m.completions == s.refusals && m.live
    requires s' == s.(trace := s'.trace, tokens := s'.tokens, modelRequestIDs := s'.modelRequestIDs)
    requires Replay(x, input, s'.trace) == Some(AfterTurn(input, m, s.rounds, turn))
    requires var n := AfterTurn(input, m, s.rounds, turn);
             s'.tokens == n.tokens && cost.Valid() && n.cost == cost.Total() && Breaks(input, m, n, turn, reason)
    ensures StopsWell(x, input, s', Finish(s', cost.Amount(), reason, true))
  {
    LiveFinishIsHonest(x, input, s', AfterTurn(input, m, s.rounds, turn), cost, reason);
  }

  /** Identity, token and cost accounting of one turn, before any of its content is acted on. */
  method AccountTurn(x: Executor, input: LoopInput, s: RunState, cost: CostAccumulator, ghost m: Monitor, turn: ModelTurn)
    returns (s': RunState, stop: Option<Exit>)
    requires At(x, input, s, m) && m.live && Costs(input, cost, m) && CanTurn(input, m, s.rounds)
    requires m.completions == s.refusals
    modifies cost
    ensures stop.None? ==>
              && At(x, input, s', AfterTurn(input, m, s.rounds, turn))
              && Costs(input, cost, AfterTurn(input, m, s.rounds, turn))
              && AfterTurn(input, m, s.rounds, turn).admitted
              && s' == s.(trace := s'.trace, tokens := s'.tokens, modelRequestIDs := s'.modelRequestIDs)
    ensures stop.Some? ==> StopsWell(x, input, s', stop.value)
  {
    ghost var n := AfterTurn(input, m, s.rounds, turn);
    s' := s.(trace := s.trace + [Turn(s.rounds, turn)]);
    ReplayAppend(x, input, s.trace, Turn(s.rounds, turn));
    if turn.model != input.model || turn.requestID == "" || turn.requestID in s.modelRequestIDs {
      EarlierIsBefore(x, input, s.trace, Turn(s.rounds, turn));
      TurnAborts(x, input, s, s', m, turn, MalformedTurn);
      return s', Some(Aborted(MalformedTurn));
    }
    s' := s'.(modelRequestIDs := s'.modelRequestIDs + {turn.requestID});
    var error, reason;
    s', error, reason := ChargeTurn(x, input, s', cost, m, n, turn);
    if error.Some? {
      TurnAborts(x, input, s, s', m, turn, AccountingUnknown);
      return s', Some(Aborted(AccountingUnknown));
    }
    if reason.Some? {
      TurnFinishes(x, input, s, s', m, turn, cost, reason.value);
      return s', Some(Finish(s', cost.Amount(), reason.value, true));
    }
    TurnAccounted(x, input, s, s', m, turn);
    stop := None;
  }

  lemma TurnAccounted(x: Executor, input: LoopInput, s: RunState, s': RunState, m: Monitor, turn: ModelTurn)
    requires At(x, input, s, m) && CanTurn(input, m, s.rounds) && m.completions == s.refusals
    requires turn.model == input.model && turn.requestID != "" && turn.requestID !in s.modelRequestIDs
    requires Replay(x, input, s'.trace) == Some(AfterTurn(input, m, s.rounds, turn))
    requires var n := AfterTurn(input, m, s.rounds, turn);
             && s' == s.(trace := s'.trace, tokens := n.tokens, modelRequestIDs := s.modelRequestIDs + {turn.requestID})
             && CountsCost(input, m.tokens, turn) && n.tokens <= input.limits.maximumTokens && n.cost <= CostLimit(input)
    ensures At(x, input, s', AfterTurn(input, m, s.rounds, turn)) && AfterTurn(input, m, s.rounds, turn).admitted
  {}

  /** Adds the turn's tokens and cost, up to the first limit they break. */
  method ChargeTurn(x: Executor, input: LoopInput, s: RunState, cost: CostAccumulator, ghost m: Monitor, ghost n: Monitor, turn: ModelTurn)
    returns (s': RunState, error: Option<RunError>, reason: Option<Reason>)
    requires ValidInput(input) && Costs(input, cost, m) && m.tokens == s.tokens <= input.limits.maximumTokens
    requires n == AfterTurn(input, m, s.rounds, turn)
    modifies cost
    ensures s' == s.(tokens := s'.tokens) && cost.Valid()
    ensures error.None? ==> s'.tokens == n.tokens && Costs(input, cost, n)
    ensures error.Some? ==>
              && reason.None? && error.value == AccountingUnknown
              && (TokenCount(turn.usage).None? || !Chargeable(input.limits.maximumCost.currency, turn.cost))
    ensures reason.None? && error.None? ==>
              && CountsCost(input, m.tokens, turn) && n.tokens <= input.limits.maximumTokens && n.cost <= CostLimit(input)
    ensures reason.Some? ==> Breaks(input, m, n, turn, reason.value)
  {
    s', error, reason := s, None, None;
    var roundTokens := UsageTokenCount(turn.usage);
    if roundTokens.None? {
      return s', Some(AccountingUnknown), None;
    }
    if roundTokens.value > input.limits.maximumTokensPerRound {
      return s', None, Some(PerRoundTokens);
    }
    var tokens := AddTokens(s'.tokens, roundTokens.value);
    assert tokens.Some?;
    s' := s'.(tokens := tokens.value);
    if s'.tokens > input.limits.maximumTokens {
      return s', None, Some(CumulativeTokens);
    }
    var charged := cost.Add(turn.cost);
    if !charged {
      return s', Some(AccountingUnknown), None;
    }
    if cost.Exceeds(input.limits.maximumCost) {
      return s', None, Some(CostReached);
    }
  }

  // ---------------------------------------------------------------- binding a call

  datatype Binding = Bound(index: nat, request: ToolRequest, tool: ApprovedTool) | Refused(refused: ToolRequest)
                   | Undecodable | BindFailed(error: RunError)

  /** Finds the step a proposed call belongs to, correcting a label only to a sole owner. */
  method BindCall(input: LoopInput, s: RunState, call: ProposedCall) returns (b: Binding)
    ensures b.Bound? ==>
              && call.id !in s.callIDs && call.name in input.tools && b.tool == input.tools[call.name]
              && Carries(call, b.request) && Attributed(s.plan, call.step, b.tool, b.request, b.index)
    ensures b.Refused? ==> call.id !in s.callIDs && Carries(call, b.refused) && Unowned(s.plan, call.step, b.refused)
    ensures b.BindFailed? ==>
              match b.error
              case MalformedTurn => call.id in s.callIDs
              case UnknownTool => call.name !in input.tools
              case StepRefused =>
                && call.name in input.tools
                && forall request, index: nat :: Carries(call, request) ==>
                     !Attributed(s.plan, call.step, input.tools[call.name], request, index)
              case _ => false
  {
    if call.id in s.callIDs {
      return BindFailed(MalformedTurn);
    }
    if call.name !in input.tools {
      return BindFailed(UnknownTool);
    }
    var tool := input.tools[call.name];
    var named := ExecutableStepIndex(s.plan, call.step);
    if named.None? || !Compatible(s.plan.steps[named.value], tool) {
      return BindFailed(StepRefused);
    }
    var decodes: bool := *;
    if call.arguments.None? || !decodes {
      return Undecodable;
    }
    var request := ToolRequest(call.id, call.name, call.arguments.value);
    var admitted := ValidateToolStepPathScope(s.plan.steps[named.value], request);
    if admitted {
      return Bound(named.value, request, tool);
    }
    var corrected := StepOwningPath(s.plan, request);
    if corrected.None? {
      return Refused(request);
    }
    if !Compatible(s.plan.steps[corrected.value], tool) {
      forall other, index: nat | Carries(call, other) ensures !Attributed(s.plan, call.step, tool, other, index) {
        assert other == request;
        if Attributed(s.plan, call.step, tool, other, index) { OwnedThroughUnique(s.plan, request, index, corrected.value); }
      }
      return BindFailed(StepRefused);
    }
    return Bound(corrected.value, request, tool);
  }

  /** Asks the router; what it answers is noted before it is judged. */
  method RouteTool(x: Executor, input: LoopInput, s: RunState, ghost m: Monitor, request: ToolRequest)
    returns (s': RunState, r: Option<Authorization>, error: RunError)
    requires At(x, input, s, m)
    ensures s' == s.(trace := s'.trace) && At(x, input, s', m)
    ensures r.Some? ==> AuthorizationValid(x, input, request, r.value) && Latest(NoteOf, s'.trace) == Some(CallRouted(request, r.value))
    ensures r.None? ==>
              && error in {PortError, AuthorityInvalid}
              && AbortCaused(x, input, FactsIn(input, s'.trace, m), error)
  {
    var ok: bool := *;
    var a: Authorization := *;
    var note := if ok then CallRouted(request, a) else PortFailed;
    s' := s.(trace := s.trace + [Note(note)]);
    NoteKeeps(x, input, s, m, note);
    if !ok {
      return s', None, PortError;
    }
    if !AuthorizationValid(x, input, request, a) {
      return s', None, AuthorityInvalid;
    }
    return s', Some(a), PortError;
  }

  lemma StepIndexOfOwnID(plan: Plan, i: nat)
    requires UniqueIDs(plan) && i < |plan.steps|
    ensures StepIndex(plan, plan.steps[i].id) == i
  {}

  // ---------------------------------------------------------------- one call

  /** The monitor once a call is started, checkpointed if risky, and its step begun. */
  ghost predicate CallStarted(x: Executor, m: Monitor, n: Monitor, rec: StartRecord) {
    && n.phase == Started(rec, Risky(x, rec.request))
    && n == m.(phase := n.phase, started := m.started + {rec.request.id}, handled := m.handled + [rec.request.id], plan := n.plan)
    && (n.plan == m.plan || n.plan == WithState(m.plan, rec.step, InProgress))
    && StateOf(n.plan, rec.step).Some? && StateOf(n.plan, rec.step) != Some(Pending)
  }

  method StartCall(x: Executor, input: LoopInput, s: RunState, ghost m: Monitor, rec: StartRecord, index: nat)
    returns (s': RunState, ghost n: Monitor, stop: Option<Exit>)
    requires At(x, input, s, m) && m.live && CanStart(x, input, m, rec)
    requires index < |s.plan.steps| && s.plan.steps[index].id == rec.step
    ensures stop.None? ==> At(x, input, s', n) && CallStarted(x, m, n, rec)
    ensures stop.None? ==> s' == s.(trace := s'.trace, plan := s'.plan, callIDs := s'.callIDs, toolCalls := s.toolCalls + 1)
    ensures stop.None? ==> index < |s'.plan.steps| && s'.plan.steps[index].id == rec.step
    ensures stop.Some? ==> StopsWell(x, input, s', stop.value)
  {
    var ok;
    s', n, ok := OpenAndBegin(x, input, s, m, rec, index);
    if !ok {
      StartAborts(x, input, s, s', m, rec);
      return s', n, Some(Aborted(PortError));
    }
    StartCounts(x, input, s, s', m, n, rec);
    s' := s'.(callIDs := s'.callIDs + {rec.request.id}, toolCalls := s'.toolCalls + 1);
    stop := None;
  }

  lemma StartCounts(x: Executor, input: LoopInput, s: RunState, s': RunState, m: Monitor, n: Monitor, rec: StartRecord)
    requires At(x, input, s, m) && CanStart(x, input, m, rec) && s' == s.(trace := s'.trace, plan := s'.plan)
    requires Replay(x, input, s'.trace) == Some(n) && CallStarted(x, m, n, rec) && s'.plan == n.plan && UniqueIDs(s'.plan)
    ensures At(x, input, s'.(callIDs := s'.callIDs + {rec.request.id}, toolCalls := s'.toolCalls + 1), n)
  {}

  /** At most the start that is being made has landed. */
  ghost predicate StartPending(x: Executor, input: LoopInput, t: Trace, m: Monitor, rec: StartRecord) {
    Within(x, input, t, m) || Within(x, input, t, m.(started := m.started + {rec.request.id}))
  }

  lemma StartAborts(x: Executor, input: LoopInput, s: RunState, s': RunState, m: Monitor, rec: StartRecord)
    requires At(x, input, s, m) && CanStart(x, input, m, rec)
    requires s' == s.(trace := s'.trace, plan := s'.plan) && StartPending(x, input, s'.trace, m, rec)
    requires PortHasFailed(s'.trace)
    ensures StopsWell(x, input, s', Aborted(PortError))
  {}

  method OpenAndBegin(x: Executor, input: LoopInput, s: RunState, ghost m: Monitor, rec: StartRecord, index: nat)
    returns (s': RunState, ghost n: Monitor, ok: bool)
    requires Replay(x, input, s.trace) == Some(m) && m.live && ValidInput(input) && CanStart(x, input, m, rec)
    requires m.plan == s.plan && UniqueIDs(s.plan) && index < |s.plan.steps| && s.plan.steps[index].id == rec.step
    ensures s' == s.(trace := s'.trace, plan := s'.plan) && StartPending(x, input, s'.trace, m, rec)
    ensures !ok ==> PortHasFailed(s'.trace)
    ensures ok ==> Replay(x, input, s'.trace) == Some(n) && CallStarted(x, m, n, rec)
    ensures ok ==> s'.plan == n.plan && UniqueIDs(s'.plan) && index < |s'.plan.steps| && s'.plan.steps[index].id == rec.step
  {
    s', n, ok := OpenCall(x, input, s, m, rec);
    StepIndexOfOwnID(s.plan, index);
    if ok && s'.plan.steps[index].state == Pending {
      s', n, ok := BeginStep(x, input, s', n, rec, index);
    }
  }

  /** Persists the start and, for a risky action, the checkpoint that must precede it. */
  method OpenCall(x: Executor, input: LoopInput, s: RunState, ghost m: Monitor, rec: StartRecord)
    returns (s': RunState, ghost n: Monitor, ok: bool)
    requires Replay(x, input, s.trace) == Some(m) && m.live && ValidInput(input) && CanStart(x, input, m, rec)
    ensures s' == s.(trace := s'.trace)
    ensures StartPending(x, input, s'.trace, m, rec) && (!ok ==> PortHasFailed(s'.trace))
    ensures ok ==> n == m.(started := m.started + {rec.request.id}, handled := m.handled + [rec.request.id], phase := Started(rec, Risky(x, rec.request)))
    ensures ok ==> Replay(x, input, s'.trace) == Some(n)
  {
    s', n, ok := PersistStart(x, input, s, m, rec);
    if ok && Risky(x, rec.request) {
      s', n, ok := CheckpointRisky(x, input, s', n, rec);
    }
  }

  method PersistStart(x: Executor, input: LoopInput, s: RunState, ghost m: Monitor, rec: StartRecord)
    returns (s': RunState, ghost n: Monitor, ok: bool)
    requires Replay(x, input, s.trace) == Some(m) && m.live && ValidInput(input) && CanStart(x, input, m, rec)
    ensures s' == s.(trace := s'.trace)
    ensures n == m.(started := m.started + {rec.request.id}, handled := m.handled + [rec.request.id], phase := Started(rec, false))
    ensures StartPending(x, input, s'.trace, m, rec) && (!ok ==> PortHasFailed(s'.trace))
    ensures ok ==> Replay(x, input, s'.trace) == Some(n)
  {
    n := m.(started := m.started + {rec.request.id}, handled := m.handled + [rec.request.id], phase := Started(rec, false));
    ReplayAppend(x, input, s.trace, Start(rec));
    var t;
    ok, t := Persist(x, input, s.trace, Start(rec));
    s' := s.(trace := t);
  }

  method CheckpointRisky(x: Executor, input: LoopInput, s: RunState, ghost m: Monitor, rec: StartRecord)
    returns (s': RunState, ghost n: Monitor, ok: bool)
    requires Replay(x, input, s.trace) == Some(m) && m.live && ValidInput(input)
    requires m.phase == Started(rec, false) && Risky(x, rec.request)
    ensures s' == s.(trace := s'.trace) && n == m.(phase := Started(rec, true))
    ensures Within(x, input, s'.trace, m) && (!ok ==> PortHasFailed(s'.trace))
    ensures ok ==> Replay(x, input, s'.trace) == Some(n)
  {
    var e := Checkpoint(BeforeRisky, rec.revision, rec.step, rec.request.id, rec.modelRequestID, rec.round,
                        rec.authorization.decisionID, x.actionHash(rec.request));
    ReplayAppend(x, input, s.trace, e);
    var t;
    ok, t := Persist(x, input, s.trace, e);
    s' := s.(trace := t);
    n := m.(phase := Started(rec, true));
  }

  method BeginStep(x: Executor, input: LoopInput, s: RunState, ghost m: Monitor, rec: StartRecord, index: nat)
    returns (s': RunState, ghost n: Monitor, ok: bool)
    requires Replay(x, input, s.trace) == Some(m) && m.live && ValidInput(input)
    requires m.phase == Started(rec, Risky(x, rec.request)) && m.plan == s.plan && UniqueIDs(s.plan)
    requires index < |s.plan.steps| && s.plan.steps[index].id == rec.step && s.plan.steps[index].state == Pending
    requires rec.revision == s.plan.revision
    ensures s' == s.(trace := s'.trace, plan := s'.plan)
    ensures n == m.(plan := WithState(m.plan, rec.step, InProgress))
    ensures Within(x, input, s'.trace, m) && (!ok ==> PortHasFailed(s'.trace))
    ensures ok ==> Replay(x, input, s'.trace) == Some(n) && s'.plan == n.plan && UniqueIDs(s'.plan)
                   && |s'.plan.steps| == |s.plan.steps| && s'.plan.steps[index] == s.plan.steps[index].(state := InProgress)
                   && StateOf(s'.plan, rec.step) == Some(InProgress)
  {
    StepIndexOfOwnID(s.plan, index);
    WithStateIndex(s.plan, rec.step, InProgress);
    n := m.(plan := WithState(m.plan, rec.step, InProgress));
    var e := Transition(s.plan.revision, rec.step, Pending, InProgress, rec.request.id, rec.modelRequestID);
    ReplayAppend(x, input, s.trace, e);
    var t;
    ok, t := Persist(x, input, s.trace, e);
    s' := s.(trace := t);
    if ok {
      s' := s'.(plan := Moved(s.plan, index, InProgress));
    }
  }

  // ---------------------------------------------------------------- execution

  datatype Boundary = AtDeadline | AtCancellation | AtUnknown

  /** The summary the loop writes in place of the executor's own. */
  function BoundarySummary(b: Boundary): Utf8.Bytes {
    match b
    case AtDeadline => Utf8.EncodeText("tool execution reached its mediated deadline")
    case AtCancellation => Utf8.EncodeText("tool execution was cancelled at the mediated boundary")
    case AtUnknown => Utf8.EncodeText("tool execution outcome is unknown at the mediated boundary")
  }

  /** What the executor's answer counts as; an error is never a success. */
  function ClassifyResult(summary: Boundary -> Utf8.Bytes, result: ToolResult, executeErr: ExecuteError, contextErr: ExecuteError,
                          requestID: string): (r: ToolResult)
    ensures executeErr == NoError ==> r == result
    ensures executeErr != NoError ==>
              && r.requestID == requestID && r.schemaVersion == TOOL_SCHEMA_VERSION
              && r.state in {WasCancelled, OutcomeUnknown}
              && (r.state == WasCancelled <==> DeadlineExceeded in {executeErr, contextErr} || Canceled in {executeErr, contextErr})
              && (r.timedOut <==> DeadlineExceeded in {executeErr, contextErr})
              && (r.cancelled <==> r.state == WasCancelled && !r.timedOut)
              && (r == result || r.exitCode == -1)
              && (if Rejectable(result, requestID) then r.texts.stdout == [] && r.texts.stderr == []
                  else r.texts == result.texts.(summary := r.texts.summary))
  {
    if executeErr == NoError then result
    else
      var trustworthy := result.requestID == requestID && result.schemaVersion == TOOL_SCHEMA_VERSION
                         && ValidResultState(result.state);
      var envelope := if trustworthy then result
                      else ToolResult(requestID, TOOL_SCHEMA_VERSION, OtherState(""), 0, false, false,
                                      Utf8.BoundedResult([], [], [], false, false));
      if executeErr == DeadlineExceeded || contextErr == DeadlineExceeded then
        envelope.(state := WasCancelled, timedOut := true, cancelled := false, exitCode := -1,
                  texts := envelope.texts.(summary := summary(AtDeadline)))
      else if executeErr == Canceled || contextErr == Canceled then
        envelope.(state := WasCancelled, timedOut := false, cancelled := true, exitCode := -1,
                  texts := envelope.texts.(summary := summary(AtCancellation)))
      else if trustworthy && result.state == OutcomeUnknown && !result.cancelled && !result.timedOut then result
      else
        envelope.(state := OutcomeUnknown, timedOut := false, cancelled := false, exitCode := -1,
                  texts := envelope.texts.(summary := summary(AtUnknown)))
  }

  method BoundedToolResult(result: ToolResult, requestID: string, maximumBytes: nat) returns (r: Option<ToolResult>)
    ensures r.Some? <==> result.requestID == requestID && result.schemaVersion == TOOL_SCHEMA_VERSION
                         && ValidResultState(result.state)
    ensures r.Some? ==> r.value == result.(texts := r.value.texts) && WithinBytes(r.value.texts, maximumBytes)
    ensures r.Some? ==> Utf8.SharesBudget(result.texts, maximumBytes, r.value.texts)
  {
    if result.requestID != requestID || result.schemaVersion != TOOL_SCHEMA_VERSION || !ValidResultState(result.state) {
      return None;
    }
    var texts := Utf8.BoundToolTexts(result.texts, maximumBytes);
    return Some(result.(texts := texts));
  }

  method ExecuteCall(x: Executor, input: LoopInput, s: RunState, cost: CostAccumulator, ghost m: Monitor, rec: StartRecord)
    returns (s': RunState, result: ToolResult, ghost answer: Option<ToolAnswer>, stop: Option<Exit>)
    requires At(x, input, s, m) && m.live && Costs(input, cost, m) && FailuresOpen(input, m, s)
    requires m.phase == Started(rec, Risky(x, rec.request)) && StateOf(m.plan, rec.step) != Some(Pending)
    ensures s' == s.(trace := s'.trace)
    ensures stop.None? ==> ValidResultState(result.state) && Latest(ResultOf, s'.trace) == Some(result)
    ensures stop.None? ==> Replay(x, input, s'.trace) == Some(AfterResult(x, input, m.(phase := Executed(rec), answer := answer), result))
    ensures stop.Some? ==> StopsWell(x, input, s', stop.value)
  {
    result := *;
    answer := None;
    var bindError: bool := *;
    if bindError {
      var blocked: bool := *;
      s', stop := ActionBlocked(x, input, s, cost, m, blocked);
      return;
    }
    var error;
    s', result, answer, error := ExecuteAndRecord(x, input, s, m, rec);
    stop := if error.None? then None else Some(Aborted(error.value));
  }

  lemma RejectionIsNoted(x: Executor, input: LoopInput, t: Trace, m: Monitor, rec: StartRecord, result: ToolResult)
    requires Replay(x, input, t) == Some(m) && m.phase == Executed(rec) && input.limits.maximumCost.denominator >= 1
    ensures var after := t + [Note(ResultRejected(result))];
            && Replay(x, input, after) == Some(m) && RecordedRequest(after) == Some(rec.request)
            && Latest(NoteOf, after) == Some(ResultRejected(result))
  {
    NoteReplay(x, input, t, ResultRejected(result));
    LatestAppend(NoteOf, t, Note(ResultRejected(result)));
    PhaseMeaning(x, input, t + [Note(ResultRejected(result))]);
  }

  /** Executes the request the start covers and persists its bounded result. */
  method ExecuteAndRecord(x: Executor, input: LoopInput, s: RunState, ghost m: Monitor, rec: StartRecord)
    returns (s': RunState, result: ToolResult, ghost answer: Option<ToolAnswer>, error: Option<RunError>)
    requires Replay(x, input, s.trace) == Some(m) && m.live && FailuresOpen(input, m, s) && ValidInput(input)
    requires m.phase == Started(rec, Risky(x, rec.request)) && StateOf(m.plan, rec.step) != Some(Pending)
    ensures s' == s.(trace := s'.trace) && Within(x, input, s'.trace, m)
    ensures error.Some? ==> RecordingFailed(s'.trace, rec, error.value)
    ensures error.None? ==> ValidResultState(result.state) && Latest(ResultOf, s'.trace) == Some(result)
    ensures error.None? ==> Replay(x, input, s'.trace) == Some(AfterResult(x, input, m.(phase := Executed(rec), answer := answer), result))
  {
    var e := Execute(rec.request, rec.authorization.classification);
    ReplayAppend(x, input, s.trace, e);
    var raw: ToolResult := *;
    var executeErr: ExecuteError := *;
    var contextErr: ExecuteError := *;
    var note := Note(ToolAnswered(ToolAnswer(raw, executeErr, contextErr)));
    ReplayAppend(x, input, s.trace + [e], note);
    s' := s.(trace := s.trace + [e] + [note]);
    answer := Some(ToolAnswer(raw, executeErr, contextErr));
    s', result, error := RenderAndPersist(x, input, s', m.(phase := Executed(rec), answer := answer), rec,
                                          ToolAnswer(raw, executeErr, contextErr));
  }

  lemma BoundedRenders(answer: ToolAnswer, requestID: string, maximumBytes: nat, classified: ToolResult, result: ToolResult)
    requires classified == ClassifyResult(BoundarySummary, answer.raw, answer.executeErr, answer.contextErr, requestID)
    requires result == classified.(texts := result.texts) && Utf8.SharesBudget(classified.texts, maximumBytes, result.texts)
    ensures Renders(answer, requestID, maximumBytes, result)
  {
    assert Utf8.Sanitize([]) == [];
  }

  /** What counts as the result of an answered call, bounded and persisted. */
  method RenderAndPersist(x: Executor, input: LoopInput, s: RunState, ghost m: Monitor, rec: StartRecord, answer: ToolAnswer)
    returns (s': RunState, result: ToolResult, error: Option<RunError>)
    requires Replay(x, input, s.trace) == Some(m) && m.live && FailuresOpen(input, m, s) && ValidInput(input)
    requires m.phase == Executed(rec) && m.answer == Some(answer)
    ensures s' == s.(trace := s'.trace) && Within(x, input, s'.trace, m)
    ensures error.Some? ==> RecordingFailed(s'.trace, rec, error.value)
    ensures error.None? ==> ValidResultState(result.state) && Latest(ResultOf, s'.trace) == Some(result)
    ensures error.None? ==> Replay(x, input, s'.trace) == Some(AfterResult(x, input, m, result))
  {
    result := answer.raw;
    var classified := ClassifyResult(BoundarySummary, answer.raw, answer.executeErr, answer.contextErr, rec.request.id);
    var bounded := BoundedToolResult(classified, rec.request.id, input.limits.maximumResultBytes);
    if bounded.None? {
      RejectionIsNoted(x, input, s.trace, m, rec, answer.raw);
      return s.(trace := s.trace + [Note(ResultRejected(answer.raw))]), result, Some(ResultInvalid);
    }
    result := bounded.value;
    BoundedRenders(answer, rec.request.id, input.limits.maximumResultBytes, classified, result);
    var ok;
    s', ok := PersistResult(x, input, s, m, rec, result);
    error := if ok then None else Some(PortError);
  }

  /** Why a result was not recorded: the port failed, or the result is not acceptable. */
  ghost predicate RecordingFailed(t: Trace, rec: StartRecord, error: RunError) {
    match error
    case PortError => PortHasFailed(t)
    case ResultInvalid =>
      && Latest(NoteOf, t).Some? && Latest(NoteOf, t).value.ResultRejected? && RecordedRequest(t) == Some(rec.request)
      && Rejectable(Latest(NoteOf, t).value.rejected, rec.request.id)
    case _ => false
  }

  method PersistResult(x: Executor, input: LoopInput, s: RunState, ghost m: Monitor, rec: StartRecord, result: ToolResult)
    returns (s': RunState, ok: bool)
    requires Replay(x, input, s.trace) == Some(m) && m.live && FailuresOpen(input, m, s) && ValidInput(input)
    requires m.phase == Executed(rec) && result.requestID == rec.request.id
    requires result.schemaVersion == TOOL_SCHEMA_VERSION && ValidResultState(result.state)
    requires WithinBytes(result.texts, input.limits.maximumResultBytes)
    requires m.answer.Some? && Renders(m.answer.value, rec.request.id, input.limits.maximumResultBytes, result)
    ensures s' == s.(trace := s'.trace) && Within(x, input, s'.trace, m) && (!ok ==> PortHasFailed(s'.trace))
    ensures ok ==> Replay(x, input, s'.trace) == Some(AfterResult(x, input, m, result)) && Latest(ResultOf, s'.trace) == Some(result)
  {
    var e := Result(rec.revision, rec.step, rec.round, rec.request.id, result);
    ReplayAppend(x, input, s.trace, e);
    LatestAppend(ResultOf, s.trace, e);
    var t;
    ok, t := Persist(x, input, s.trace, e);
    s' := s.(trace := t);
  }

  // ---------------------------------------------------------------- settling a call

  /** What a recorded result changes in the completion guard. */
  function WithFlags(s: RunState, rec: StartRecord, material: bool, succeeded: bool): RunState {
    var afterTest := if rec.request.name == TOOL_TEST
                     then s.(writesSinceLastTest := !succeeded && s.writesSinceLastTest, lastTestFailed := !succeeded)
                     else s;
    if material && succeeded then afterTest.(writesSinceLastTest := true) else afterTest
  }

  method CheckpointEdit(x: Executor, input: LoopInput, s: RunState, ghost m: Monitor, rec: StartRecord)
    returns (s': RunState, ghost n: Monitor, ok: bool)
    requires Replay(x, input, s.trace) == Some(m) && m.live && ValidInput(input)
    requires m.phase.Settling? && m.phase.rec == rec && m.phase.owesCheckpoint
    ensures s' == s.(trace := s'.trace) && n == m.(phase := m.phase.(owesCheckpoint := false))
    ensures ok ==> Latest(ResultOf, s'.trace) == Latest(ResultOf, s.trace)
    ensures Within(x, input, s'.trace, m) && (!ok ==> PortHasFailed(s'.trace))
    ensures ok ==> Replay(x, input, s'.trace) == Some(n)
  {
    var e := Checkpoint(MaterialEdit, rec.revision, rec.step, rec.request.id, rec.modelRequestID, rec.round, "", "");
    ReplayAppend(x, input, s.trace, e);
    LatestAppend(ResultOf, s.trace, e);
    var t;
    ok, t := Persist(x, input, s.trace, e);
    s' := s.(trace := t);
    n := m.(phase := m.phase.(owesCheckpoint := false));
  }

  /** A step in a state no run moves out of was given that state by the input plan. */
  lemma TerminalStateWasGiven(x: Executor, input: LoopInput, t: Trace, index: nat)
    requires Accepts(x, input, t)
    requires var plan := Replay(x, input, t).value.plan;
             index < |plan.steps| && Progress(plan.steps[index].state) == 3
    ensures !OnlyRunStates(input.plan)
  {
    CountersMeaning(x, input, t);
    PlanAdvances(x, input, t);
    assert Progress(input.plan.steps[index].state) == 3;
  }

  method CompleteStep(x: Executor, input: LoopInput, s: RunState, ghost m: Monitor, rec: StartRecord, index: nat)
    returns (s': RunState, ghost n: Monitor, error: Option<RunError>)
    requires Replay(x, input, s.trace) == Some(m) && m.live && ValidInput(input)
    requires m.phase == Settling(rec, false, true) && m.plan == s.plan && UniqueIDs(s.plan)
    requires index < |s.plan.steps| && s.plan.steps[index].id == rec.step && rec.revision == s.plan.revision
    requires s.plan.steps[index].state != Pending && s.plan.steps[index].state != Implemented
    ensures s' == s.(trace := s'.trace, plan := s'.plan)
    ensures Within(x, input, s'.trace, m)
    ensures error.Some? ==>
              || (error.value == PortError && PortHasFailed(s'.trace))
              || (error.value == InvalidTransition && !OnlyRunStates(input.plan))
    ensures error.None? ==> n == m.(plan := WithState(m.plan, rec.step, Implemented), phase := Settling(rec, false, false))
    ensures error.None? ==> Latest(ResultOf, s'.trace) == Latest(ResultOf, s.trace)
    ensures error.None? ==> Replay(x, input, s'.trace) == Some(n) && s'.plan == n.plan && UniqueIDs(s'.plan)
  {
    n := m;
    var from := s.plan.steps[index].state;
    if !StepTransitionAllowed(from, Implemented) {
      TerminalStateWasGiven(x, input, s.trace, index);
      return s, n, Some(InvalidTransition);
    }
    var ok;
    s', n, ok := PersistCompletion(x, input, s, m, rec, index);
    error := if ok then None else Some(PortError);
  }

  method PersistCompletion(x: Executor, input: LoopInput, s: RunState, ghost m: Monitor, rec: StartRecord, index: nat)
    returns (s': RunState, ghost n: Monitor, ok: bool)
    requires Replay(x, input, s.trace) == Some(m) && m.live && ValidInput(input)
    requires m.phase == Settling(rec, false, true) && m.plan == s.plan && UniqueIDs(s.plan)
    requires index < |s.plan.steps| && s.plan.steps[index].id == rec.step && rec.revision == s.plan.revision
    requires StepTransitionAllowed(s.plan.steps[index].state, Implemented)
    ensures s' == s.(trace := s'.trace, plan := s'.plan) && Within(x, input, s'.trace, m) && (!ok ==> PortHasFailed(s'.trace))
    ensures ok ==> n == m.(plan := WithState(m.plan, rec.step, Implemented), phase := Settling(rec, false, false))
    ensures ok ==> Latest(ResultOf, s'.trace) == Latest(ResultOf, s.trace)
    ensures ok ==> Replay(x, input, s'.trace) == Some(n) && s'.plan == n.plan && UniqueIDs(s'.plan)
  {
    StepIndexOfOwnID(s.plan, index);
    var e := Transition(s.plan.revision, rec.step, s.plan.steps[index].state, Implemented, rec.request.id, rec.modelRequestID);
    ReplayAppend(x, input, s.trace, e);
    n := m.(plan := WithState(m.plan, rec.step, Implemented), phase := Settling(rec, false, false));
    LatestAppend(ResultOf, s.trace, e);
    var t;
    ok, t := Persist(x, input, s.trace, e);
    s' := s.(trace := t);
    if ok {
      s' := s'.(plan := Moved(s.plan, index, Implemented));
    }
  }

  /** Writes what a recorded result owes: the edit checkpoint, then the step's completion. */
  method PayDebts(x: Executor, input: LoopInput, s: RunState, ghost m: Monitor, rec: StartRecord, index: nat,
                  edited: bool, completes: bool)
    returns (s': RunState, ghost n: Monitor, error: Option<RunError>)
    requires Replay(x, input, s.trace) == Some(m) && m.live && ValidInput(input)
    requires m.phase == Settling(rec, edited, completes) && m.plan == s.plan && UniqueIDs(s.plan)
    requires index < |s.plan.steps| && s.plan.steps[index].id == rec.step && rec.revision == s.plan.revision
    requires s.plan.steps[index].state != Pending
    requires completes ==> s.plan.steps[index].state != Implemented
    ensures s' == s.(trace := s'.trace, plan := s'.plan)
    ensures Within(x, input, s'.trace, m)
    ensures error.Some? ==>
              || (error.value == PortError && PortHasFailed(s'.trace))
              || (error.value == InvalidTransition && !OnlyRunStates(input.plan))
    ensures error.None? ==> n == m.(plan := s'.plan, phase := Settling(rec, false, false))
    ensures error.None? ==> Latest(ResultOf, s'.trace) == Latest(ResultOf, s.trace)
    ensures error.None? ==> Replay(x, input, s'.trace) == Some(n) && UniqueIDs(s'.plan)
  {
    s', n := s, m;
    if edited {
      var ok;
      s', n, ok := CheckpointEdit(x, input, s', n, rec);
      if !ok {
        return s', n, Some(PortError);
      }
    }
    error := None;
    if completes {
      s', n, error := CompleteStep(x, input, s', n, rec, index);
    }
  }

  predicate Below(failureCounts: map<Fingerprint, nat>, limit: nat) {
    forall f :: f in failureCounts ==> failureCounts[f] < limit
  }

  /**
   Counts a failed action. Counts below the limit stay below it exactly as long as the run goes
   on; when they do not, the action just counted is the one that reached the limit.
   */
  method CountFailure(input: LoopInput, s: RunState, f: Fingerprint) returns (s': RunState, exhausted: bool)
    ensures s' == s.(failureCounts := s.failureCounts[f := FailureCount(s.failureCounts, f) + 1])
    ensures exhausted <==> ReachesLimit(input, s.failureCounts, f)
    ensures Below(s.failureCounts, input.limits.maximumIdenticalFailures) ==>
              && (exhausted <==> !Below(s'.failureCounts, input.limits.maximumIdenticalFailures))
              && (exhausted && input.limits.maximumIdenticalFailures > 0 ==> s'.failureCounts[f] == input.limits.maximumIdenticalFailures)
  {
    s' := s.(failureCounts := s.failureCounts[f := FailureCount(s.failureCounts, f) + 1]);
    exhausted := s'.failureCounts[f] >= input.limits.maximumIdenticalFailures;
  }

  /** A call whose result is recorded, seen just before the record. */
  ghost predicate ResultRecorded(x: Executor, input: LoopInput, s: RunState, m: Monitor, rec: StartRecord, index: nat, result: ToolResult) {
    && ValidInput(input) && Bounded(input, s) && s.tokens <= input.limits.maximumTokens
    && Agrees(m, s) && FailuresOpen(input, m, s) && m.live && m.phase == Executed(rec) && m.cost <= CostLimit(input)
    && Replay(x, input, s.trace) == Some(AfterResult(x, input, m, result))
    && index < |s.plan.steps| && s.plan.steps[index].id == rec.step && rec.revision == s.plan.revision
    && s.plan.steps[index].state != Pending
    && rec.request.name in input.tools && m.round == s.rounds && Latest(ResultOf, s.trace) == Some(result) && !m.ended
  }

  lemma EffectsAbort(x: Executor, input: LoopInput, s: RunState, s': RunState, m: Monitor, rec: StartRecord, index: nat, result: ToolResult, error: RunError)
    requires ResultRecorded(x, input, s, m, rec, index, result) && Within(x, input, s'.trace, m)
    requires s' == s.(trace := s'.trace, plan := s'.plan, writesSinceLastTest := s'.writesSinceLastTest, lastTestFailed := s'.lastTestFailed)
    requires (error == PortError && PortHasFailed(s'.trace)) || (error == InvalidTransition && !OnlyRunStates(input.plan))
    ensures StopsWell(x, input, s', Aborted(error))
  {}

  /** Everything after a result is recorded: flags, debts, cancellation, repeated failures, control. */
  method SettleCall(x: Executor, input: LoopInput, s: RunState, cost: CostAccumulator, ghost m: Monitor,
                    rec: StartRecord, index: nat, result: ToolResult)
    returns (s': RunState, ghost n: Monitor, stop: Option<Exit>)
    requires ResultRecorded(x, input, s, m, rec, index, result) && Costs(input, cost, m)
    ensures stop.None? ==> At(x, input, s', n) && FailuresOpen(input, n, s') && Costs(input, cost, n)
    ensures stop.None? ==> Quiescent(n.phase) && n.live && !n.ended && n.turn == m.turn && n.admitted == m.admitted
                           && n.round == m.round && n.approved == m.approved && n.completions == m.completions && n.handled == m.handled
    ensures stop.None? ==> s'.rounds == s.rounds && s'.toolCalls == s.toolCalls && s'.refusals == s.refusals && Retries(s') == Retries(s)
    ensures stop.Some? ==> StopsWell(x, input, s', stop.value)
  {
    var error;
    s', n, error := RecordEffects(x, input, s, m, rec, index, result);
    if error.Some? {
      EffectsAbort(x, input, s, s', m, rec, index, result, error.value);
      return s', n, Some(Aborted(error.value));
    }
    EffectsRecorded(x, input, m, n, s'.plan, rec, result);
    s', n, stop := FinishCall(x, input, s', cost, n, m.failures, rec, result);
  }

  /** The flags and the durable records a recorded result leads to. */
  method RecordEffects(x: Executor, input: LoopInput, s: RunState, ghost m: Monitor, rec: StartRecord, index: nat, result: ToolResult)
    returns (s': RunState, ghost n: Monitor, error: Option<RunError>)
    requires ResultRecorded(x, input, s, m, rec, index, result)
    ensures s' == s.(trace := s'.trace, plan := s'.plan, writesSinceLastTest := s'.writesSinceLastTest, lastTestFailed := s'.lastTestFailed)
    ensures Within(x, input, s'.trace, m)
    ensures error.Some? ==>
              || (error.value == PortError && PortHasFailed(s'.trace))
              || (error.value == InvalidTransition && !OnlyRunStates(input.plan))
    ensures error.None? ==> Latest(ResultOf, s'.trace) == Some(result)
    ensures error.None? ==> At(x, input, s', n)
    ensures error.None? ==> n == AfterResult(x, input, m, result).(plan := s'.plan, phase := Settling(rec, false, false))
  {
    var succeeded := result.state == Succeeded;
    var material := input.tools[rec.request.name].materialEdit;
    var completes := succeeded && s.plan.steps[index].state != Implemented;
    s' := WithFlags(s, rec, material, succeeded);
    n := AfterResult(x, input, m, result);
    StepIndexOfOwnID(s.plan, index);
    s', n, error := PayDebts(x, input, s', n, rec, index, material && succeeded, completes);
  }

  /** A cancelled call ends the run, after one more control read. */
  method FinishCancelled(x: Executor, input: LoopInput, s: RunState, cost: CostAccumulator, ghost m: Monitor)
    returns (s': RunState, exit: Exit)
    requires At(x, input, s, m) && Costs(input, cost, m) && m.live && Quiescent(m.phase) && m.round == s.rounds
    requires Latest(ResultOf, s.trace).Some? && Latest(ResultOf, s.trace).value.state == WasCancelled
    ensures StopsWell(x, input, s', exit)
  {
    var control, stop;
    s', control, stop := Gate(x, input, s, cost, m);
    if stop.Some? {
      return s', stop.value;
    }
    LatestAppend(ResultOf, s.trace, ControlRead(control));
    LiveFinishIsHonest(x, input, s', m, cost, ToolCancelled);
    exit := Finish(s', cost.Amount(), ToolCancelled, true);
  }

  lemma RepetitionFinishes(x: Executor, input: LoopInput, s: RunState, m: Monitor, cost: CostAccumulator, rec: StartRecord, result: ToolResult)
    requires At(x, input, s, m) && cost.Valid() && m.cost == cost.Total() && m.live && m.round == s.rounds && result.state != Succeeded
    requires m.phase.Settling? && m.phase.rec == rec && Latest(ResultOf, s.trace) == Some(result)
    requires FailureCount(m.failures, FailedActionFingerprint(x, rec.request, result)) == input.limits.maximumIdenticalFailures
    ensures StopsWell(x, input, s, Finish(s, cost.Amount(), RepeatedFailure, true))
  {
    LiveFinishIsHonest(x, input, s, m, cost, RepeatedFailure);
  }

  /** The monitor has just read this result of this call. */
  ghost predicate JustRecorded(x: Executor, input: LoopInput, m: Monitor, failures: map<Fingerprint, nat>, rec: StartRecord, result: ToolResult) {
    var f := FailedActionFingerprint(x, rec.request, result);
    && m.phase.Settling? && m.phase.rec == rec
    && (m.ended <==> result.state == WasCancelled || (result.state != Succeeded && ReachesLimit(input, failures, f)))
    && m.failures == if result.state == Succeeded then failures else failures[f := FailureCount(failures, f) + 1]
  }

  lemma EffectsRecorded(x: Executor, input: LoopInput, m: Monitor, n: Monitor, plan: Plan, rec: StartRecord, result: ToolResult)
    requires m.phase == Executed(rec) && !m.ended
    requires n == AfterResult(x, input, m, result).(plan := plan, phase := Settling(rec, false, false))
    ensures JustRecorded(x, input, n, m.failures, rec, result) && Quiescent(n.phase)
    ensures n.live == m.live && n.turn == m.turn && n.admitted == m.admitted && n.round == m.round && n.approved == m.approved
    ensures n.completions == m.completions && n.handled == m.handled && n.cost == m.cost
  {}

  /** Counts a failure, and ends the run when it has happened too often. */
  method TallyFailure(x: Executor, input: LoopInput, s: RunState, cost: CostAccumulator, ghost m: Monitor,
                      ghost failures: map<Fingerprint, nat>, rec: StartRecord, result: ToolResult)
    returns (s': RunState, stop: Option<Exit>)
    requires At(x, input, s, m) && Costs(input, cost, m) && m.live && m.round == s.rounds
    requires s.failureCounts == failures && Latest(ResultOf, s.trace) == Some(result)
    requires Below(failures, input.limits.maximumIdenticalFailures) && JustRecorded(x, input, m, failures, rec, result)
    requires result.state != Succeeded && result.state != WasCancelled
    ensures stop.None? ==> At(x, input, s', m) && FailuresOpen(input, m, s') && !m.ended
    ensures stop.None? ==> s' == s.(failureCounts := s'.failureCounts)
    ensures stop.Some? ==> StopsWell(x, input, s', stop.value)
  {
    var exhausted;
    s', exhausted := CountFailure(input, s, FailedActionFingerprint(x, rec.request, result));
    if exhausted {
      RepetitionFinishes(x, input, s', m, cost, rec, result);
      return s', Some(Finish(s', cost.Amount(), RepeatedFailure, true));
    }
    stop := None;
  }

  /** Cancellation, repeated failures and the control read that end a settled call. */
  method FinishCall(x: Executor, input: LoopInput, s: RunState, cost: CostAccumulator, ghost m: Monitor,
                    ghost failures: map<Fingerprint, nat>, rec: StartRecord, result: ToolResult)
    returns (s': RunState, ghost n: Monitor, stop: Option<Exit>)
    requires At(x, input, s, m) && Costs(input, cost, m) && m.live && Quiescent(m.phase) && m.round == s.rounds
    requires s.failureCounts == failures && Latest(ResultOf, s.trace) == Some(result)
    requires Below(failures, input.limits.maximumIdenticalFailures) && JustRecorded(x, input, m, failures, rec, result)
    ensures stop.None? ==> At(x, input, s', n) && FailuresOpen(input, n, s') && Costs(input, cost, n) && n == m && !m.ended
    ensures stop.None? ==> s' == s.(trace := s'.trace, failureCounts := s'.failureCounts)
    ensures stop.Some? ==> StopsWell(x, input, s', stop.value)
  {
    s', n := s, m;
    var control;
    if result.state == WasCancelled {
      var exit;
      s', exit := FinishCancelled(x, input, s, cost, m);
      return s', m, Some(exit);
    }
    if result.state != Succeeded {
      s', stop := TallyFailure(x, input, s, cost, m, failures, rec, result);
      if stop.Some? {
        return;
      }
    }
    s', control, stop := Gate(x, input, s', cost, n);
  }

  // ---------------------------------------------------------------- a turn's calls

  /** Inside an admitted, well-formed turn, with no call in flight. */
  ghost predicate InTurn(x: Executor, input: LoopInput, s: RunState, cost: CostAccumulator, m: Monitor, turn: ModelTurn)
    reads cost
  {
    && At(x, input, s, m) && Costs(input, cost, m) && FailuresOpen(input, m, s)
    && m.live && !m.ended && m.approved && m.admitted && m.turn == Some(turn) && m.round == s.rounds && Quiescent(m.phase)
    && WellFormedTurn(turn, input.limits.maximumToolCallsPerRound) && m.completions == s.refusals
  }

  /** Every finished round is paid for by a call or a retry. */
  predicate PaidFor(s: RunState) {
    s.rounds <= s.toolCalls + Retries(s)
  }

  /** The calls before the `k`-th are handled and no other. */
  ghost predicate HandledUpTo(m: Monitor, turn: ModelTurn, k: nat) {
    k <= |turn.calls| && m.handled == CallIDs(turn.calls[..k])
  }

  lemma NextIsHandled(m: Monitor, turn: ModelTurn, k: nat)
    requires HandledUpTo(m, turn, k) && k < |turn.calls| && m.turn == Some(turn)
    ensures NextCall(m.turn, m.handled) == Some(turn.calls[k])
    ensures forall n: Monitor :: n.handled == m.handled + [turn.calls[k].id] ==> HandledUpTo(n, turn, k + 1)
  {
    assert turn.calls[..k + 1] == turn.calls[..k] + [turn.calls[k]];
  }

  lemma ApprovalFinishes(x: Executor, input: LoopInput, s: RunState, m: Monitor, cost: CostAccumulator, request: ToolRequest, a: Authorization)
    requires At(x, input, s, m) && cost.Valid() && m.cost == cost.Total() && m.live && m.round == s.rounds
    requires a.classification.outcome == ApprovalRequired && Latest(NoteOf, s.trace) == Some(CallRouted(request, a))
    ensures StopsWell(x, input, s, Finish(s, cost.Amount(), ApprovalNeeded, true))
  {
    LiveFinishIsHonest(x, input, s, m, cost, ApprovalNeeded);
  }

  lemma DenialFinishes(x: Executor, input: LoopInput, s: RunState, m: Monitor, cost: CostAccumulator, request: ToolRequest, a: Authorization)
    requires At(x, input, s, m) && cost.Valid() && m.cost == cost.Total() && m.live && m.round == s.rounds
    requires a.classification.outcome == Denied && Latest(NoteOf, s.trace) == Some(CallRouted(request, a))
    ensures StopsWell(x, input, s, Finish(s, cost.Amount(), DeniedByPolicy, true))
  {
    LiveFinishIsHonest(x, input, s, m, cost, DeniedByPolicy);
  }

  /** Authorizes, starts, executes and settles one bound call. */
  method PerformCall(x: Executor, input: LoopInput, s: RunState, cost: CostAccumulator, ghost m: Monitor,
                     turn: ModelTurn, call: ProposedCall, b: Binding)
    returns (s': RunState, ghost n: Monitor, stop: Option<Exit>)
    requires InTurn(x, input, s, cost, m, turn) && NextCall(m.turn, m.handled) == Some(call)
    requires s.toolCalls < input.limits.maximumToolCalls
    requires b.Bound? && call.id !in s.callIDs && call.name in input.tools && b.tool == input.tools[call.name]
    requires Carries(call, b.request) && Attributed(s.plan, call.step, b.tool, b.request, b.index)
    ensures stop.None? ==> InTurn(x, input, s', cost, n, turn) && PaidFor(s') && s'.rounds == s.rounds
    ensures stop.None? ==> n.handled == m.handled + [call.id]
    ensures stop.Some? ==> StopsWell(x, input, s', stop.value)
  {
    n := m;
    var authorization, error;
    s', authorization, error := RouteTool(x, input, s, m, b.request);
    if authorization.None? {
      AbortIsHonest(x, input, s', m, error);
      return s', n, Some(Aborted(error));
    }
    if authorization.value.classification.outcome == ApprovalRequired {
      ApprovalFinishes(x, input, s', m, cost, b.request, authorization.value);
      return s', n, Some(Finish(s', cost.Amount(), ApprovalNeeded, true));
    }
    if authorization.value.classification.outcome == Denied {
      DenialFinishes(x, input, s', m, cost, b.request, authorization.value);
      return s', n, Some(Finish(s', cost.Amount(), DeniedByPolicy, true));
    }
    s', n, stop := StartBound(x, input, s', cost, m, turn, call, b, authorization.value);
  }

  /** Starts, executes and settles a call whose authority suffices. */
  method StartBound(x: Executor, input: LoopInput, s: RunState, cost: CostAccumulator, ghost m: Monitor,
                    turn: ModelTurn, call: ProposedCall, b: Binding, authorization: Authorization)
    returns (s': RunState, ghost n: Monitor, stop: Option<Exit>)
    requires InTurn(x, input, s, cost, m, turn) && NextCall(m.turn, m.handled) == Some(call)
    requires s.toolCalls < input.limits.maximumToolCalls
    requires b.Bound? && call.id !in s.callIDs && call.name in input.tools && b.tool == input.tools[call.name]
    requires Carries(call, b.request) && Attributed(s.plan, call.step, b.tool, b.request, b.index)
    requires AuthorizationValid(x, input, b.request, authorization) && Executable(authorization)
    ensures stop.None? ==> InTurn(x, input, s', cost, n, turn) && PaidFor(s') && s'.rounds == s.rounds
    ensures stop.None? ==> n.handled == m.handled + [call.id]
    ensures stop.Some? ==> StopsWell(x, input, s', stop.value)
  {
    var rec := StartRecord(s.plan.revision, s.plan.steps[b.index].id, s.rounds, b.request, turn.requestID, authorization);
    StepIndexOfOwnID(s.plan, b.index);
    assert Proposes(input, m.plan, call, rec);
    s', n, stop := StartCall(x, input, s, m, rec, b.index);
    if stop.Some? {
      return;
    }
    s', n, stop := ExecuteAndSettle(x, input, s', cost, n, rec, b.index);
  }

  method ExecuteAndSettle(x: Executor, input: LoopInput, s: RunState, cost: CostAccumulator, ghost m: Monitor, rec: StartRecord, index: nat)
    returns (s': RunState, ghost n: Monitor, stop: Option<Exit>)
    requires At(x, input, s, m) && m.live && Costs(input, cost, m) && FailuresOpen(input, m, s)
    requires m.phase == Started(rec, Risky(x, rec.request)) && StateOf(m.plan, rec.step) != Some(Pending)
    requires index < |s.plan.steps| && s.plan.steps[index].id == rec.step && rec.revision == s.plan.revision
    requires rec.request.name in input.tools && m.round == s.rounds && !m.ended
    ensures stop.None? ==> At(x, input, s', n) && FailuresOpen(input, n, s') && Costs(input, cost, n)
    ensures stop.None? ==> Quiescent(n.phase) && n.live && !n.ended && n.turn == m.turn && n.admitted == m.admitted
                           && n.round == m.round && n.approved == m.approved && n.completions == m.completions && n.handled == m.handled
    ensures stop.None? ==> s'.rounds == s.rounds && s'.toolCalls == s.toolCalls && s'.refusals == s.refusals && Retries(s') == Retries(s)
    ensures stop.Some? ==> StopsWell(x, input, s', stop.value)
  {
    n := m;
    StepIndexOfOwnID(s.plan, index);
    var result;
    ghost var answer;
    s', result, answer, stop := ExecuteCall(x, input, s, cost, m, rec);
    if stop.None? {
      s', n, stop := SettleCall(x, input, s', cost, m.(phase := Executed(rec), answer := answer), rec, index, result);
    }
  }

  /** One proposed call, from the limit check to the settled result or the refusal. */
  method RunCall(x: Executor, input: LoopInput, s: RunState, cost: CostAccumulator, ghost m: Monitor, turn: ModelTurn, call: ProposedCall)
    returns (s': RunState, ghost n: Monitor, stop: Option<Exit>)
    requires InTurn(x, input, s, cost, m, turn) && NextCall(m.turn, m.handled) == Some(call)
    ensures stop.None? ==> InTurn(x, input, s', cost, n, turn) && PaidFor(s') && s'.rounds == s.rounds
    ensures stop.None? ==> n.handled == m.handled + [call.id]
    ensures stop.Some? ==> StopsWell(x, input, s', stop.value)
  {
    n := m;
    if s.toolCalls >= input.limits.maximumToolCalls {
      LiveFinishIsHonest(x, input, s, m, cost, ToolCallLimit);
      return s, n, Some(Finish(s, cost.Amount(), ToolCallLimit, true));
    }
    var control;
    s', control, stop := Gate(x, input, s, cost, m);
    if stop.Some? {
      return;
    }
    var b := BindCall(input, s', call);
    match b {
      case Bound(_, _, _) =>
        s', n, stop := PerformCall(x, input, s', cost, n, turn, call, b);
      case Refused(request) =>
        s', n, stop := RefuseCall(x, input, s', cost, n, turn, call, request);
      case Undecodable =>
        NoteKeeps(x, input, s', n, CallUndecodable(call.id));
        s' := s'.(trace := s'.trace + [Note(CallUndecodable(call.id))]);
        AbortIsHonest(x, input, s', n, MalformedTurn);
        return s', n, Some(Aborted(MalformedTurn));
      case BindFailed(error) =>
        AbortIsHonest(x, input, s', n, error);
        return s', n, Some(Aborted(error));
    }
  }

  /** A call no step may carry is passed over, twice in a run. */
  method RefuseCall(x: Executor, input: LoopInput, s: RunState, cost: CostAccumulator, ghost m: Monitor,
                    turn: ModelTurn, call: ProposedCall, request: ToolRequest)
    returns (s': RunState, ghost n: Monitor, stop: Option<Exit>)
    requires InTurn(x, input, s, cost, m, turn) && NextCall(m.turn, m.handled) == Some(call)
    requires Carries(call, request) && Unowned(s.plan, call.step, request)
    ensures stop.None? <==> s.outOfScopeRetries < MAXIMUM_OUT_OF_SCOPE_RETRIES
    ensures stop.None? ==> InTurn(x, input, s', cost, n, turn) && PaidFor(s') && s'.rounds == s.rounds
    ensures stop.None? ==> n.handled == m.handled + [call.id] && s'.outOfScopeRetries == s.outOfScopeRetries + 1
    ensures stop.Some? ==> StopsWell(x, input, s', stop.value) && stop.value == Aborted(OutOfScope)
  {
    n := m;
    if s.outOfScopeRetries >= MAXIMUM_OUT_OF_SCOPE_RETRIES {
      AbortIsHonest(x, input, s, m, OutOfScope);
      return s, n, Some(Aborted(OutOfScope));
    }
    ReplayAppend(x, input, s.trace, Note(CallRefused(request)));
    n := m.(handled := m.handled + [call.id]);
    s' := s.(trace := s.trace + [Note(CallRefused(request))], outOfScopeRetries := s.outOfScopeRetries + 1);
    stop := None;
  }

  method RunCalls(x: Executor, input: LoopInput, s: RunState, cost: CostAccumulator, ghost m: Monitor, turn: ModelTurn)
    returns (s': RunState, ghost n: Monitor, stop: Option<Exit>)
    requires InTurn(x, input, s, cost, m, turn) && turn.calls != [] && m.handled == []
    ensures stop.None? ==> InTurn(x, input, s', cost, n, turn) && PaidFor(s') && s'.rounds == s.rounds && AllHandled(input, n)
    ensures stop.Some? ==> StopsWell(x, input, s', stop.value)
  {
    s', n, stop := s, m, None;
    for k := 0 to |turn.calls|
      invariant stop.None? && InTurn(x, input, s', cost, n, turn) && s'.rounds == s.rounds
      invariant k > 0 ==> PaidFor(s')
      invariant HandledUpTo(n, turn, k)
    {
      NextIsHandled(n, turn, k);
      s', n, stop := RunCall(x, input, s', cost, n, turn, turn.calls[k]);
      if stop.Some? {
        return;
      }
    }
    assert turn.calls[..|turn.calls|] == turn.calls;
  }

  // ---------------------------------------------------------------- a round

  datatype TurnFault = NoFault | EmptyTurn | TooManyCalls | OtherFault

  function ValidateModelTurn(turn: ModelTurn, perRound: nat): (fault: TurnFault)
    ensures fault == NoFault <==> WellFormedTurn(turn, perRound)
    ensures fault == EmptyTurn <==> turn.calls == [] && turn.completion == NoCompletion
    ensures fault == TooManyCalls <==> turn.calls != [] && turn.completion == NoCompletion && |turn.calls| > perRound
  {
    if turn.calls == [] && turn.completion == NoCompletion then EmptyTurn
    else if turn.calls != [] && turn.completion != NoCompletion then OtherFault
    else if |turn.calls| > perRound then TooManyCalls
    else if turn.completion == UnknownSignal then OtherFault
    else NoFault
  }

  /** A malformed turn is answered while its own retry budget lasts. */
  method AnswerFault(s: RunState, fault: TurnFault) returns (s': RunState, answered: bool)
    requires s.batchingRetries <= MAXIMUM_BATCHING_RETRIES && s.emptyTurnRetries <= MAXIMUM_EMPTY_TURN_RETRIES
    ensures answered <==>
            || (fault == TooManyCalls && s.batchingRetries < MAXIMUM_BATCHING_RETRIES)
            || (fault == EmptyTurn && s.emptyTurnRetries < MAXIMUM_EMPTY_TURN_RETRIES)
    ensures s' == if !answered then s
                  else if fault == TooManyCalls then s.(batchingRetries := s.batchingRetries + 1)
                  else s.(emptyTurnRetries := s.emptyTurnRetries + 1)
  {
    if fault == TooManyCalls && s.batchingRetries < MAXIMUM_BATCHING_RETRIES {
      return s.(batchingRetries := s.batchingRetries + 1), true;
    }
    if fault == EmptyTurn && s.emptyTurnRetries < MAXIMUM_EMPTY_TURN_RETRIES {
      return s.(emptyTurnRetries := s.emptyTurnRetries + 1), true;
    }
    return s, false;
  }

  /** How an accepted completion signal is classified. */
  function CompletionReason(signal: Completion, control: ControlState, plan: Plan): (r: (Reason, bool))
    ensures FromCompletion(r.0)
    ensures r.0 == FullyValidated ==> ValidationStepsComplete(plan)
    ensures KindOf(r.0) in {OutcomeImplementationComplete, OutcomeValidationComplete} ==> ImplementationStepsComplete(plan)
    ensures !r.1 ==> control.validationComplete && ValidationStepsComplete(plan)
  {
    if signal != NeedsDirection && !ImplementationStepsComplete(plan) then (DeclaredTooEarly, true)
    else match signal
      case NeedsDirection => (RequestedDirection, true)
      case ValidationComplete =>
        if control.validationComplete && ValidationStepsComplete(plan) then (FullyValidated, false)
        else (EvidenceIncomplete, true)
      case _ => (ImplementationOnly, !control.validationComplete || !ValidationStepsComplete(plan))
  }

  /** Unverified work is sent back while refusals last and the tests can still be run. */
  predicate RefusesCompletion(s: RunState) {
    && (s.writesSinceLastTest || s.lastTestFailed)
    && s.refusals < MAXIMUM_UNVERIFIED_COMPLETION_REFUSALS
    && ToolCanStillBeCalled(s.plan, TOOL_TEST)
  }

  /** A completion that would be classified as complete is never refused. */
  lemma CompleteWorkIsNotRefused(s: RunState, signal: Completion, control: ControlState)
    requires KindOf(CompletionReason(signal, control, s.plan).0) in {OutcomeImplementationComplete, OutcomeValidationComplete}
    ensures !RefusesCompletion(s)
  {
    CompletePlanOffersNoTool(s.plan, TOOL_TEST);
  }

  /** What a declared completion is classified as is what the history calls for. */
  lemma CompletionIsCaused(input: LoopInput, k: Facts, signal: Completion, control: ControlState, o: LoopOutcome)
    requires input.limits.maximumCost.denominator >= 1 && k.control == Some(control) && Live(control)
    requires Declared(k, signal) && k.tokens <= input.limits.maximumTokens && k.cost <= CostLimit(input)
    requires var r := CompletionReason(signal, control, k.plan);
             o.reason == r.0 && o.kind == KindOf(r.0) && o.validationRequired == r.1
    ensures FinishCaused(input, k, o)
  {}

  lemma CompletionIsHonest(x: Executor, input: LoopInput, s: RunState, m: Monitor, cost: CostAccumulator, turn: ModelTurn, control: ControlState)
    requires At(x, input, s, m) && cost.Valid() && m.cost == cost.Total() && !RefusesCompletion(s)
    requires m.round == s.rounds && m.completions == s.refusals + 1
    requires m.turn == Some(turn) && Declares(turn) && Latest(ControlOf, s.trace) == Some(control) && Live(control)
    ensures var r := CompletionReason(turn.completion, control, s.plan);
            StopsWell(x, input, s, Finish(s, cost.Amount(), r.0, r.1))
  {
    var r := CompletionReason(turn.completion, control, s.plan);
    AmountKnownIff(cost);
    CompletionIsCaused(input, FactsIn(input, s.trace, m), turn.completion, control, Finish(s, cost.Amount(), r.0, r.1).outcome);
  }

  /** Between rounds: nothing in flight and every finished round paid for. */
  ghost predicate Ready(x: Executor, input: LoopInput, s: RunState, cost: CostAccumulator, m: Monitor)
    reads cost
  {
    && At(x, input, s, m) && Costs(input, cost, m) && FailuresOpen(input, m, s)
    && m.live && !m.ended && m.approved && (m.turn.Some? ==> m.admitted) && m.round == s.rounds && Quiescent(m.phase) && PaidFor(s)
    && AllHandled(input, m)
    && m.completions == s.refusals
  }

  /** A malformed turn costs a retry, or the run. */
  method AnswerOrAbort(x: Executor, input: LoopInput, s: RunState, cost: CostAccumulator, ghost m: Monitor, turn: ModelTurn, fault: TurnFault)
    returns (s': RunState, stop: Option<Exit>)
    requires At(x, input, s, m) && Costs(input, cost, m) && FailuresOpen(input, m, s) && m.live && !m.ended
    requires m.approved && m.admitted && m.turn == Some(turn) && m.round == s.rounds && Quiescent(m.phase)
    requires m.completions == s.refusals && !WellFormedTurn(turn, input.limits.maximumToolCallsPerRound)
    requires fault == ValidateModelTurn(turn, input.limits.maximumToolCallsPerRound)
    ensures stop.None? ==> Ready(x, input, s', cost, m) && s'.rounds == s.rounds
    ensures stop.None? <==>
            || (fault == TooManyCalls && s.batchingRetries < MAXIMUM_BATCHING_RETRIES)
            || (fault == EmptyTurn && s.emptyTurnRetries < MAXIMUM_EMPTY_TURN_RETRIES)
    ensures stop.Some? ==> StopsWell(x, input, s', stop.value)
  {
    var answered;
    s', answered := AnswerFault(s, fault);
    if answered {
      return s', None;
    }
    AbortIsHonest(x, input, s', m, MalformedTurn);
    return s', Some(Aborted(MalformedTurn));
  }

  /** Acts on an admitted turn: answers a fault, weighs a completion, or runs the calls. */
  method ActOnTurn(x: Executor, input: LoopInput, s: RunState, cost: CostAccumulator, ghost m: Monitor, turn: ModelTurn)
    returns (s': RunState, ghost n: Monitor, stop: Option<Exit>)
    requires At(x, input, s, m) && Costs(input, cost, m) && FailuresOpen(input, m, s) && m.live && !m.ended && m.handled == []
    requires m.approved && m.admitted && m.turn == Some(turn) && m.round == s.rounds && Quiescent(m.phase)
    requires m.completions == s.refusals + (if Declares(turn) then 1 else 0)
    ensures stop.None? ==> Ready(x, input, s', cost, n) && s'.rounds == s.rounds
    ensures stop.Some? ==> StopsWell(x, input, s', stop.value)
    ensures stop.None? && Declares(turn) ==> RefusesCompletion(s) && s' == s.(trace := s'.trace, refusals := s.refusals + 1)
    ensures stop.Some? && Declares(turn) ==>
              ByControl(stop.value) || (!RefusesCompletion(s) && stop.value.Finished? && FromCompletion(stop.value.outcome.reason))
  {
    n := m;
    var fault := ValidateModelTurn(turn, input.limits.maximumToolCallsPerRound);
    if fault != NoFault {
      s', stop := AnswerOrAbort(x, input, s, cost, m, turn, fault);
      return;
    }
    s', n, stop := ActOnWellFormed(x, input, s, cost, m, turn);
  }

  /** Reads control once more, then weighs the completion or runs the calls. */
  method ActOnWellFormed(x: Executor, input: LoopInput, s: RunState, cost: CostAccumulator, ghost m: Monitor, turn: ModelTurn)
    returns (s': RunState, ghost n: Monitor, stop: Option<Exit>)
    requires At(x, input, s, m) && Costs(input, cost, m) && FailuresOpen(input, m, s) && m.live && !m.ended && m.handled == []
    requires m.approved && m.admitted && m.turn == Some(turn) && m.round == s.rounds && Quiescent(m.phase)
    requires m.completions == s.refusals + (if Declares(turn) then 1 else 0)
    requires WellFormedTurn(turn, input.limits.maximumToolCallsPerRound)
    ensures stop.None? ==> Ready(x, input, s', cost, n) && s'.rounds == s.rounds
    ensures stop.Some? ==> StopsWell(x, input, s', stop.value)
    ensures stop.None? && Declares(turn) ==> RefusesCompletion(s) && s' == s.(trace := s'.trace, refusals := s.refusals + 1)
    ensures stop.Some? && Declares(turn) ==>
              ByControl(stop.value) || (!RefusesCompletion(s) && stop.value.Finished? && FromCompletion(stop.value.outcome.reason))
  {
    n := m;
    var control;
    s', control, stop := Gate(x, input, s, cost, m);
    if stop.Some? {
      return;
    }
    if turn.completion == NoCompletion {
      s', n, stop := RunCalls(x, input, s', cost, n, turn);
      return;
    }
    LatestAppend(ControlOf, s.trace, ControlRead(control));
    s', stop := WeighCompletion(x, input, s', cost, n, turn, control);
  }

  /** Refuses a declared completion over unverified work, or ends the run with it. */
  method WeighCompletion(x: Executor, input: LoopInput, s: RunState, cost: CostAccumulator, ghost m: Monitor, turn: ModelTurn, control: ControlState)
    returns (s': RunState, stop: Option<Exit>)
    requires At(x, input, s, m) && Costs(input, cost, m) && FailuresOpen(input, m, s) && m.live && !m.ended && m.handled == []
    requires m.approved && m.admitted && m.turn == Some(turn) && m.round == s.rounds && Quiescent(m.phase)
    requires m.completions == s.refusals + 1 && Declares(turn)
    requires Latest(ControlOf, s.trace) == Some(control) && Live(control)
    ensures stop.None? <==> RefusesCompletion(s)
    ensures stop.None? ==> s' == s.(refusals := s.refusals + 1) && Ready(x, input, s', cost, m)
    ensures stop.Some? ==> StopsWell(x, input, s', stop.value) && stop.value.Finished? && FromCompletion(stop.value.outcome.reason)
  {
    if RefusesCompletion(s) {
      return s.(refusals := s.refusals + 1), None;
    }
    CompletionIsHonest(x, input, s, m, cost, turn, control);
    var reason := CompletionReason(turn.completion, control, s.plan);
    return s, Some(Finish(s, cost.Amount(), reason.0, reason.1));
  }

  /** Asks for a turn, accounts for it, and acts on it. */
  method TakeTurn(x: Executor, input: LoopInput, s: RunState, cost: CostAccumulator, ghost m: Monitor)
    returns (s': RunState, ghost n: Monitor, stop: Option<Exit>)
    requires At(x, input, s, m) && m.live && Costs(input, cost, m) && FailuresOpen(input, m, s) && CanTurn(input, m, s.rounds)
    requires m.completions == s.refusals
    modifies cost
    ensures stop.None? ==> Ready(x, input, s', cost, n) && s'.rounds == s.rounds
    ensures stop.Some? ==> StopsWell(x, input, s', stop.value)
  {
    n := m;
    var turn;
    s', turn, stop := ObserveThink(x, input, s, cost, m);
    if stop.Some? {
      return;
    }
    s', stop := AccountTurn(x, input, s', cost, m, turn.value);
    if stop.Some? {
      return;
    }
    n := AfterTurn(input, m, s.rounds, turn.value);
    s', n, stop := ActOnTurn(x, input, s', cost, n, turn.value);
  }

  /** One round: deadline, control, a model turn, its accounting, and its effects. */
  method RunRound(x: Executor, input: LoopInput, s: RunState, cost: CostAccumulator, ghost m: Monitor)
    returns (s': RunState, ghost n: Monitor, stop: Option<Exit>)
    requires Ready(x, input, s, cost, m) && s.rounds < input.limits.maximumRounds
    modifies cost
    ensures stop.None? ==> Ready(x, input, s', cost, n) && s'.rounds == s.rounds + 1
    ensures stop.Some? ==> StopsWell(x, input, s', stop.value)
  {
    n := m;
    var expired: bool := *;
    if expired {
      NoteKeeps(x, input, s, m, DeadlinePassed);
      s' := s.(trace := s.trace + [Note(DeadlinePassed)]);
      LiveFinishIsHonest(x, input, s', m, cost, WallClock);
      return s', n, Some(Finish(s', cost.Amount(), WallClock, true));
    }
    var control;
    s', control, stop := Gate(x, input, s, cost, m);
    if stop.Some? {
      return;
    }
    n := m.(live := true);
    s' := s'.(rounds := s'.rounds + 1);
    s', n, stop := TakeTurn(x, input, s', cost, n);
  }

  // ---------------------------------------------------------------- the run

  method PersistApproval(x: Executor, input: LoopInput, s: RunState, cost: CostAccumulator, ghost m: Monitor)
    returns (s': RunState, ghost n: Monitor, stop: Option<Exit>)
    requires At(x, input, s, m) && Costs(input, cost, m) && FailuresOpen(input, m, s) && m.live && !m.ended && !m.approved
    requires m.turn.None? && m.round == 0 == s.rounds && m.phase.Idle? && m.completions == 0 == s.refusals
    ensures stop.None? ==> Ready(x, input, s', cost, n)
    ensures stop.Some? ==> StopsWell(x, input, s', stop.value)
  {
    var e := PlanApproved(input.plan.revision, input.approvalID);
    ReplayAppend(x, input, s.trace, e);
    var ok, t := Persist(x, input, s.trace, e);
    s' := s.(trace := t);
    if !ok {
      FailureAborts(x, input, s, s', m);
      return s', m, Some(Aborted(PortError));
    }
    n := m.(approved := true);
    stop := None;
  }

  /** The approved plan is checkpointed before any model or tool work. */
  method CheckpointPlan(x: Executor, input: LoopInput, s: RunState, cost: CostAccumulator, ghost m: Monitor)
    returns (s': RunState, ghost n: Monitor, stop: Option<Exit>)
    requires ValidInput(input) && s == InitialState(input) && m == Initial(input) && Costs(input, cost, m)
    ensures stop.None? ==> Ready(x, input, s', cost, n)
    ensures stop.Some? ==> StopsWell(x, input, s', stop.value)
  {
    n := m;
    var control;
    s', control, stop := Gate(x, input, s, cost, m);
    if stop.Some? {
      return;
    }
    s', n, stop := PersistApproval(x, input, s', cost, m.(live := true));
  }

  function InitialState(input: LoopInput): RunState {
    RunState(0, 0, 0, input.plan, 0, 0, 0, 0, false, false, map[], {}, {}, [])
  }

  /** What every run guarantees, in terms of its input, its events and its report. */
  ghost predicate Safe(x: Executor, input: LoopInput, s: RunState, exit: Exit) {
    && Accepts(x, input, s.trace)
    // starts, authority, checkpoints, results, attribution, budgets and repeated failures
    && Lawful(x, input, s.trace)
    // progress
    && s.rounds <= input.limits.maximumRounds && s.toolCalls <= input.limits.maximumToolCalls
    && Turns(s.trace) <= Starts(s.trace) + 13 && s.rounds <= s.toolCalls + 13
    // the counters are what the events say, but for the round, call or declaration the run stopped in
    && Turns(s.trace) <= s.rounds <= Turns(s.trace) + 1
    && s.toolCalls <= Starts(s.trace) <= s.toolCalls + 1
    && s.refusals <= Declarations(s.trace) <= s.refusals + 1
    // the plan log only moves forward, and never to validated
    && Advances(input.plan, FoldTransitions(input.plan, s.trace))
    // the run ended for a cause that the history shows
    && Caused(x, input, FactsOf(input, s.trace), exit)
    && (exit.Finished? ==> Reports(x, input, s, exit.outcome))
  }

  /** A finished run reports exactly what its events add up to. */
  ghost predicate Reports(x: Executor, input: LoopInput, s: RunState, o: LoopOutcome) {
    && o.toolCalls == Starts(s.trace)
    && (o.rounds == Turns(s.trace) || (o.rounds == Turns(s.trace) + 1 && WhileWaiting(o.reason)))
    && o.plan == FoldTransitions(input.plan, s.trace)
    && o.tokens == TokensOf(input, s.trace)
    && o.tokens <= input.limits.maximumTokens + input.limits.maximumTokensPerRound
    && (o.reason == RepeatedFailure ==>
          && RecordedRequest(s.trace).Some? && Latest(ResultOf, s.trace).Some?
          && var f := FailedActionFingerprint(x, RecordedRequest(s.trace).value, Latest(ResultOf, s.trace).value);
             FailuresWith(x, s.trace, f) == input.limits.maximumIdenticalFailures)
    && (o.cost.known <==> Statable(CostOf(input, s.trace)))
    && (o.cost.known ==> o.cost.denominator >= 1 && AmountValue(o.cost) == CostOf(input, s.trace))
    && (o.kind == OutcomeValidationComplete ==>
          forall i :: 0 <= i < |input.plan.steps| && input.plan.steps[i].validationRequired
                      ==> input.plan.steps[i].state == Validated)
    && (o.kind in {OutcomeImplementationComplete, OutcomeValidationComplete} ==> ImplementationStepsComplete(o.plan))
    && (FromCompletion(o.reason) ==>
          || Declarations(s.trace) == MAXIMUM_UNVERIFIED_COMPLETION_REFUSALS + 1
          || !ToolCanStillBeCalled(o.plan, TOOL_TEST)
          || (!Untested(input, s.trace) && !LastTestFailed(s.trace)))
  }

  /** The latest failure is the one that reached the limit. */
  lemma RepeatedIsRead(x: Executor, input: LoopInput, t: Trace)
    requires Accepts(x, input, t) && Repeated(x, input, t, Replay(x, input, t).value)
    ensures RecordedRequest(t).Some? && Latest(ResultOf, t).Some?
    ensures FailuresWith(x, t, FailedActionFingerprint(x, RecordedRequest(t).value, Latest(ResultOf, t).value))
            == input.limits.maximumIdenticalFailures
  {
    PhaseMeaning(x, input, t);
    var rec := Replay(x, input, t).value.phase.rec;
    FailuresAreBounded(x, input, t, FailedActionFingerprint(x, rec.request, Latest(ResultOf, t).value));
  }

  lemma StopsWellIsSafe(x: Executor, input: LoopInput, s: RunState, exit: Exit)
    requires StopsWell(x, input, s, exit)
    ensures Safe(x, input, s, exit)
  {
    AcceptedIsLawful(x, input, s.trace);
    CountersMeaning(x, input, s.trace);
    PlanAdvances(x, input, s.trace);
    FactsAreRead(x, input, s.trace);
    assert FactsAt(FactsOf(input, s.trace));
    if exit.Finished? {
      GuardFlagsMeaning(x, input, s.trace);
      if exit.outcome.reason == FullyValidated {
        ValidatedBeforeTheRun(input.plan, exit.outcome.plan);
      }
      if exit.outcome.reason == RepeatedFailure {
        RepeatedIsRead(x, input, s.trace);
      }
    }
  }

  /**
   A whole run, over every answer and every failure of its ports. It terminates, its events
   follow the protocol, and whatever ended it the final variables and report are safe.
   */
  method Run(x: Executor, input: LoopInput) returns (s: RunState, exit: Exit)
    ensures exit == Aborted(InvalidInput) <==> !ValidInput(input)
    ensures ValidInput(input) ==> Safe(x, input, s, exit)
  {
    s := InitialState(input);
    if !ValidInput(input) {
      return s, Aborted(InvalidInput);
    }
    var cost := new CostAccumulator(input.limits.maximumCost.currency);
    ghost var m := Initial(input);
    var stop: Option<Exit>;
    s, m, stop := CheckpointPlan(x, input, s, cost, m);
    while stop.None? && s.rounds < input.limits.maximumRounds
      invariant fresh(cost)
      invariant stop.None? ==> Ready(x, input, s, cost, m)
      invariant stop.Some? ==> StopsWell(x, input, s, stop.value)
      decreases if stop.None? then input.limits.maximumRounds - s.rounds + 1 else 0
    {
      s, m, stop := RunRound(x, input, s, cost, m);
    }
    if stop.None? {
      LiveFinishIsHonest(x, input, s, m, cost, RoundLimit);
      stop := Some(Finish(s, cost.Amount(), RoundLimit, true));
    }
    exit := stop.value;
    StopsWellIsSafe(x, input, s, exit);
  }
}
