/**
 What a run makes durable, reads or observes at its ports, as a sequence of events, and the
 protocol those events must follow. The protocol is a monitor: it reads one event at a time and
 rejects the first one that is out of place.
 */
module AgentTrace {
  import opened Common
  import opened AgentPlan
  import opened Limits
  import opened Text
  import Utf8

  // ---------------------------------------------------------------- port data

  datatype PolicyOutcome = Automatic | TaskScoped | ApprovalRequired | Denied | OtherOutcome(name: string)

  datatype Classification = Classification(
    outcome: PolicyOutcome, required: string, capability: string, scopeHash: string, matchedGrant: string)

  datatype Authorization = Authorization(
    classification: Classification, decisionID: string, policyRevision: nat, policySHA256: string)

  datatype Authority = AutomaticRead | TaskWrite | OtherAuthority(name: string)

  /** The executor's own judgements about a request, whatever they are. */
  datatype Executor = Executor(actionHash: ToolRequest -> string, requiredAuthority: ToolRequest -> Authority)

  datatype Disposition = Active | PauseRequested | Paused | Cancelled | Stopped

  datatype ControlState = ControlState(
    disposition: Disposition, budgetAvailable: bool, policyCurrent: bool, validationComplete: bool)

  datatype Completion = NoCompletion | ImplementationComplete | ValidationComplete | NeedsDirection | UnknownSignal

  /** One call the model proposed; `arguments` is absent when they do not decode. */
  datatype ProposedCall = ProposedCall(id: string, name: ToolName, step: string, arguments: Option<seq<Argument>>)

  datatype ModelTurn = ModelTurn(
    requestID: string, model: string, calls: seq<ProposedCall>, completion: Completion,
    usage: Usage, cost: ExactAmount)

  datatype ResultState = Succeeded | DidFail | WasCancelled | OutcomeUnknown | OtherState(name: string)

  datatype ToolResult = ToolResult(
    requestID: string, schemaVersion: int, state: ResultState, exitCode: int,
    timedOut: bool, cancelled: bool, texts: Utf8.BoundedResult)

  const TOOL_SCHEMA_VERSION := 1

  datatype ExecuteError = NoError | DeadlineExceeded | Canceled | OtherError

  /** What the executor gave back: a result, its own error, and that of the context it ran in. */
  datatype ToolAnswer = ToolAnswer(raw: ToolResult, executeErr: ExecuteError, contextErr: ExecuteError)

  datatype LoopLimits = LoopLimits(
    maximumRounds: nat, maximumToolCalls: nat, maximumToolCallsPerRound: nat,
    maximumTokens: nat, maximumTokensPerRound: nat, maximumCost: ExactAmount,
    maximumIdenticalFailures: nat, maximumResultBytes: nat)

  datatype LoopInput = LoopInput(
    plan: Plan, approvalID: string, policyRevision: nat, policySHA256: string, model: string,
    tools: map<ToolName, ApprovedTool>, limits: LoopLimits)

  /** The limits a run accepts. */
  predicate ValidLimits(l: LoopLimits) {
    && 0 < l.maximumRounds <= 256
    && 0 < l.maximumToolCalls <= 1024
    && 0 < l.maximumToolCallsPerRound <= l.maximumToolCalls && l.maximumToolCallsPerRound <= 64
    && 0 < l.maximumTokens <= 10_000_000
    && 0 < l.maximumTokensPerRound <= l.maximumTokens && l.maximumTokensPerRound <= 1_000_000
    && 2 <= l.maximumIdenticalFailures <= 32
    && 256 <= l.maximumResultBytes <= 0x10_0000
    && l.maximumCost.known && |l.maximumCost.currency| == 3
    && l.maximumCost.numerator >= 0 && l.maximumCost.denominator >= 1
    && AmountValue(l.maximumCost) <= 1_000_000.0
  }

  predicate ValidInput(input: LoopInput) {
    && ValidPlan(input.plan)
    && ValidLimits(input.limits)
    && input.approvalID != "" && input.policyRevision != 0 && input.model != ""
    && forall name :: name in input.tools ==>
         input.tools[name].name == name
         && input.tools[name].createsCheckpoint == input.tools[name].materialEdit
  }

  // ---------------------------------------------------------------- records and events

  datatype StartRecord = StartRecord(
    revision: nat, step: string, round: nat, request: ToolRequest, modelRequestID: string,
    authorization: Authorization)

  datatype Trigger = MaterialEdit | BeforeRisky

  /** What the run learned that is recorded nowhere else. */
  datatype Observation =
    | PortFailed
    | DeadlinePassed
    | ModelFailed(cancelled: bool, deadline: bool)
    | CallUndecodable(callID: string)
    | CallRefused(refused: ToolRequest)
    | CallRouted(routed: ToolRequest, authorization: Authorization)
    | ToolAnswered(answer: ToolAnswer)
    | ResultRejected(rejected: ToolResult)

  datatype Event =
    | ControlRead(control: ControlState)
    | Note(note: Observation)
    | PlanApproved(approvedRevision: nat, approvalID: string)
    | Turn(turnRound: nat, turn: ModelTurn)
    | Start(rec: StartRecord)
    | Checkpoint(trigger: Trigger, ckptRevision: nat, ckptStep: string, ckptRequestID: string,
                 ckptModelRequestID: string, ckptRound: nat, permissionID: string, actionSHA256: string)
    | Transition(moveRevision: nat, moveStep: string, from: StepState, to: StepState,
                 moveRequestID: string, moveModelRequestID: string)
    | Execute(request: ToolRequest, classification: Classification)
    | Result(resultRevision: nat, resultStep: string, resultRound: nat, resultRequestID: string, result: ToolResult)

  type Trace = seq<Event>

  /** What makes two failed actions identical, before it is hashed. */
  datatype Fingerprint = Fingerprint(
    actionSHA256: string, state: ResultState, exitCode: int, timedOut: bool, cancelled: bool)

  function FailedActionFingerprint(x: Executor, request: ToolRequest, result: ToolResult): Fingerprint {
    Fingerprint(x.actionHash(request), result.state, result.exitCode, result.timedOut, result.cancelled)
  }

  /** An action that needs more than reading or writing inside the task. */
  predicate Risky(x: Executor, request: ToolRequest) {
    x.requiredAuthority(request) != AutomaticRead && x.requiredAuthority(request) != TaskWrite
  }

  /** The router's answer is one this loop may act on: bound to the action and the policy. */
  predicate AuthorizationValid(x: Executor, input: LoopInput, request: ToolRequest, a: Authorization) {
    && !a.classification.outcome.OtherOutcome?
    && a.classification.scopeHash == x.actionHash(request)
    && a.decisionID != "" && Trimmed(a.decisionID) && ByteLength(a.decisionID) <= 255
    && a.policyRevision == input.policyRevision && a.policySHA256 == input.policySHA256
    && a.classification.required != "" && a.classification.capability == a.classification.required
    && (a.classification.outcome == TaskScoped ==> Trim(a.classification.matchedGrant) != "")
  }

  predicate Executable(a: Authorization) {
    a.classification.outcome == Automatic || a.classification.outcome == TaskScoped
  }

  predicate WellFormedTurn(turn: ModelTurn, perRound: nat) {
    && (turn.calls == [] <==> turn.completion != NoCompletion)
    && |turn.calls| <= perRound
    && turn.completion != UnknownSignal
  }

  /** A turn that does nothing but declare completion, or ask for direction. */
  predicate Declares(turn: ModelTurn) {
    turn.calls == [] && turn.completion != NoCompletion && turn.completion != UnknownSignal
  }

  predicate ValidResultState(state: ResultState) {
    !state.OtherState?
  }

  /** A result that is not the request's own, or of no known schema or state. */
  predicate Rejectable(result: ToolResult, requestID: string) {
    result.requestID != requestID || result.schemaVersion != TOOL_SCHEMA_VERSION || !ValidResultState(result.state)
  }

  /**
   The recorded result says what the executor's answer was. Without an error it is that result with
   its texts cut to the bound. An error is never a success: it is a cancellation exactly for a
   deadline or a cancellation, and the output is kept exactly when the result was the request's own.
   */
  ghost predicate Renders(answer: ToolAnswer, requestID: string, maximumBytes: nat, result: ToolResult) {
    var errors := {answer.executeErr, answer.contextErr};
    if answer.executeErr == NoError then
      result == answer.raw.(texts := result.texts) && Utf8.SharesBudget(answer.raw.texts, maximumBytes, result.texts)
    else
      && (result.state == if DeadlineExceeded in errors || Canceled in errors then WasCancelled else OutcomeUnknown)
      && (result.timedOut <==> DeadlineExceeded in errors)
      && (result.cancelled <==> result.state == WasCancelled && !result.timedOut)
      && (result.exitCode == -1 || result.exitCode == answer.raw.exitCode)
      && (if Rejectable(answer.raw, requestID) then result.texts.stdout == [] && result.texts.stderr == []
          else result.texts.stdout <= Utf8.Sanitize(answer.raw.texts.stdout) && result.texts.stderr <= Utf8.Sanitize(answer.raw.texts.stderr))
  }

  /** Nothing stops the run: active, policy current, budget available. */
  predicate Live(control: ControlState) {
    control.disposition == Active && control.policyCurrent && control.budgetAvailable
  }

  // ---------------------------------------------------------------- accounting

  predicate WithinRound(input: LoopInput, turn: ModelTurn) {
    TokenCount(turn.usage).Some? && TokenCount(turn.usage).value <= input.limits.maximumTokensPerRound
  }

  function TokensAfter(input: LoopInput, tokens: nat, turn: ModelTurn): nat {
    if WithinRound(input, turn) then tokens + TokenCount(turn.usage).value else tokens
  }

  predicate CountsCost(input: LoopInput, tokens: nat, turn: ModelTurn) {
    && WithinRound(input, turn)
    && TokensAfter(input, tokens, turn) <= input.limits.maximumTokens
    && Chargeable(input.limits.maximumCost.currency, turn.cost)
  }

  function CostAfter(input: LoopInput, tokens: nat, cost: real, turn: ModelTurn): real {
    if CountsCost(input, tokens, turn) then cost + AmountValue(turn.cost) else cost
  }

  function CostLimit(input: LoopInput): real
    requires input.limits.maximumCost.denominator >= 1
  {
    AmountValue(input.limits.maximumCost)
  }

  /** A turn whose calls may run: identified, fresh, and inside every budget. */
  predicate Admitted(input: LoopInput, tokens: nat, cost: real, modelIDs: set<string>, turn: ModelTurn)
    requires input.limits.maximumCost.denominator >= 1
  {
    && turn.model == input.model && turn.requestID != "" && turn.requestID !in modelIDs
    && CountsCost(input, tokens, turn)
    && CostAfter(input, tokens, cost, turn) <= CostLimit(input)
  }

  // ---------------------------------------------------------------- the monitor

  datatype Phase =
    | Idle
    | Started(rec: StartRecord, checkpointed: bool)
    | Executed(rec: StartRecord)
    | Settling(rec: StartRecord, owesCheckpoint: bool, owesStep: bool)

  datatype Monitor = Monitor(
    round: nat, turn: Option<ModelTurn>, handled: seq<string>, admitted: bool, plan: Plan, started: set<string>,
    modelIDs: set<string>, phase: Phase, answer: Option<ToolAnswer>, tokens: nat, cost: real, completions: nat, ended: bool, live: bool, approved: bool,
    untested: bool, testFailed: bool, failures: map<Fingerprint, nat>)

  predicate Quiescent(phase: Phase) {
    phase.Idle? || (phase.Settling? && !phase.owesCheckpoint && !phase.owesStep)
  }

  function Initial(input: LoopInput): Monitor {
    Monitor(0, None, [], false, input.plan, {}, {}, Idle, None, 0, 0.0, 0, false, false, false, false, false, map[])
  }

  function FailureCount(failures: map<Fingerprint, nat>, f: Fingerprint): nat {
    if f in failures then failures[f] else 0
  }

  /** One more failure like this is as many as the limit allows. */
  predicate ReachesLimit(input: LoopInput, failures: map<Fingerprint, nat>, f: Fingerprint) {
    FailureCount(failures, f) + 1 >= input.limits.maximumIdenticalFailures
  }

  /** The call the model proposed is the one started, at a step that may carry it. */
  ghost predicate Proposes(input: LoopInput, plan: Plan, call: ProposedCall, rec: StartRecord) {
    && call.id == rec.request.id && call.name == rec.request.name
    && call.arguments == Some(rec.request.arguments)
    && call.name in input.tools
    && StepIndex(plan, rec.step) < |plan.steps|
    && Attributed(plan, call.step, input.tools[call.name], rec.request, StepIndex(plan, rec.step))
  }

  function CallIDs(calls: seq<ProposedCall>): (ids: seq<string>)
    ensures |ids| == |calls| && forall i :: 0 <= i < |calls| ==> ids[i] == calls[i].id
  {
    seq(|calls|, i requires 0 <= i < |calls| => calls[i].id)
  }

  /** The call whose turn it is: the first of the latest turn that is neither started nor refused. */
  function NextCall(turn: Option<ModelTurn>, handled: seq<string>): Option<ProposedCall> {
    if turn.Some? && |handled| < |turn.value.calls| then Some(turn.value.calls[|handled|]) else None
  }

  /** A turn that asked for nothing, or for more calls than a round takes; only these are answered. */
  predicate Answerable(turn: ModelTurn, perRound: nat) {
    turn.completion == NoCompletion && (turn.calls == [] || |turn.calls| > perRound)
  }

  /** How often a declared completion over unverified work is sent back. */
  const MAXIMUM_UNVERIFIED_COMPLETION_REFUSALS: nat := 3

  /** What must hold of a turn before the next one: its calls are handled, its completion refused, or its fault answered. */
  predicate TurnSettled(input: LoopInput, turn: ModelTurn, handled: seq<string>, unverified: bool, completions: nat, plan: Plan) {
    if Declares(turn) then
      unverified && completions <= MAXIMUM_UNVERIFIED_COMPLETION_REFUSALS && ToolCanStillBeCalled(plan, TOOL_TEST)
    else if WellFormedTurn(turn, input.limits.maximumToolCallsPerRound) then handled == CallIDs(turn.calls)
    else Answerable(turn, input.limits.maximumToolCallsPerRound)
  }

  predicate AllHandled(input: LoopInput, m: Monitor) {
    m.turn.Some? ==> TurnSettled(input, m.turn.value, m.handled, m.untested || m.testFailed, m.completions, m.plan)
  }

  /** The call whose turn it is may be passed over: no step of the plan may carry it. */
  ghost predicate CanRefuse(input: LoopInput, m: Monitor, request: ToolRequest) {
    && m.approved && !m.ended && m.admitted && m.turn.Some? && Quiescent(m.phase)
    && WellFormedTurn(m.turn.value, input.limits.maximumToolCallsPerRound)
    && NextCall(m.turn, m.handled).Some?
    && var call := NextCall(m.turn, m.handled).value;
    && request.id == call.id && request.name == call.name && call.arguments == Some(request.arguments)
    && Unowned(m.plan, call.step, request)
  }

  ghost predicate CanStart(x: Executor, input: LoopInput, m: Monitor, rec: StartRecord) {
    && m.approved && !m.ended && m.admitted && m.turn.Some? && Quiescent(m.phase)
    && WellFormedTurn(m.turn.value, input.limits.maximumToolCallsPerRound)
    && rec.request.id !in m.started && |m.started| < input.limits.maximumToolCalls
    && rec.round == m.round && rec.revision == m.plan.revision
    && rec.modelRequestID == m.turn.value.requestID
    && AuthorizationValid(x, input, rec.request, rec.authorization) && Executable(rec.authorization)
    && NextCall(m.turn, m.handled).Some? && Proposes(input, m.plan, NextCall(m.turn, m.handled).value, rec)
  }

  predicate NamesCall(rec: StartRecord, revision: nat, step: string, requestID: string, modelRequestID: string) {
    revision == rec.revision && step == rec.step && requestID == rec.request.id && modelRequestID == rec.modelRequestID
  }

  function StateOf(plan: Plan, step: string): Option<StepState> {
    var i := StepIndex(plan, step);
    if i < |plan.steps| then Some(plan.steps[i].state) else None
  }

  function WithState(plan: Plan, step: string, to: StepState): Plan {
    var i := StepIndex(plan, step);
    if i < |plan.steps| then Moved(plan, i, to) else plan
  }

  predicate IsMaterial(input: LoopInput, name: ToolName) {
    name in input.tools && input.tools[name].materialEdit
  }

  predicate WithinBytes(texts: Utf8.BoundedResult, limit: nat) {
    |texts.summary| + |texts.stdout| + |texts.stderr| <= limit
  }

  ghost predicate CanRecord(x: Executor, input: LoopInput, m: Monitor, e: Event)
    requires e.Result?
  {
    && m.phase.Executed?
    && var rec := m.phase.rec;
    && e.resultRevision == rec.revision && e.resultStep == rec.step && e.resultRound == rec.round
    && e.resultRequestID == rec.request.id && e.result.requestID == rec.request.id
    && e.result.schemaVersion == TOOL_SCHEMA_VERSION && ValidResultState(e.result.state)
    && WithinBytes(e.result.texts, input.limits.maximumResultBytes)
    && m.answer.Some? && Renders(m.answer.value, rec.request.id, input.limits.maximumResultBytes, e.result)
    && (e.result.state != Succeeded ==>
          FailureCount(m.failures, FailedActionFingerprint(x, rec.request, e.result))
            < input.limits.maximumIdenticalFailures)
  }

  function AfterResult(x: Executor, input: LoopInput, m: Monitor, result: ToolResult): Monitor
    requires m.phase.Executed?
  {
    var rec := m.phase.rec;
    var succeeded := result.state == Succeeded;
    var isTest := rec.request.name == TOOL_TEST;
    var material := IsMaterial(input, rec.request.name);
    var fingerprint := FailedActionFingerprint(x, rec.request, result);
    m.(phase := Settling(rec, material && succeeded,
                         succeeded && StateOf(m.plan, rec.step) != Some(Implemented)),
       untested := (material && succeeded) || (if isTest then !succeeded && m.untested else m.untested),
       testFailed := if isTest then !succeeded else m.testFailed,
       ended := m.ended || result.state == WasCancelled || (!succeeded && ReachesLimit(input, m.failures, fingerprint)),
       failures := if succeeded then m.failures
                   else m.failures[fingerprint := FailureCount(m.failures, fingerprint) + 1])
  }

  function AfterTurn(input: LoopInput, m: Monitor, round: nat, turn: ModelTurn): Monitor
    requires input.limits.maximumCost.denominator >= 1
  {
    m.(round := round, turn := Some(turn), handled := [],
       admitted := Admitted(input, m.tokens, m.cost, m.modelIDs, turn),
       modelIDs := m.modelIDs + {turn.requestID},
       tokens := TokensAfter(input, m.tokens, turn),
       cost := CostAfter(input, m.tokens, m.cost, turn),
       completions := m.completions + (if Declares(turn) then 1 else 0))
  }

  predicate CanTurn(input: LoopInput, m: Monitor, round: nat) {
    m.approved && !m.ended && Quiescent(m.phase) && round == m.round + 1 && (m.turn.Some? ==> m.admitted) && AllHandled(input, m)
  }

  predicate CanExecute(x: Executor, input: LoopInput, m: Monitor, e: Event)
    requires e.Execute?
  {
    && m.phase.Started? && e.request == m.phase.rec.request
    && e.classification == m.phase.rec.authorization.classification
    && (Risky(x, e.request) ==> m.phase.checkpointed)
    && StateOf(m.plan, m.phase.rec.step) != Some(Pending)
  }

  predicate CanCheckpoint(x: Executor, m: Monitor, e: Event)
    requires e.Checkpoint?
  {
    && (m.phase.Started? || m.phase.Settling?)
    && NamesCall(m.phase.rec, e.ckptRevision, e.ckptStep, e.ckptRequestID, e.ckptModelRequestID)
    && e.ckptRound == m.phase.rec.round
    && match e.trigger
       case BeforeRisky =>
         && m.phase.Started? && !m.phase.checkpointed && Risky(x, m.phase.rec.request)
         && e.permissionID == m.phase.rec.authorization.decisionID
         && e.actionSHA256 == x.actionHash(m.phase.rec.request)
       case MaterialEdit => m.phase.Settling? && m.phase.owesCheckpoint
  }

  predicate CanMove(x: Executor, m: Monitor, e: Event)
    requires e.Transition?
  {
    && (m.phase.Started? || m.phase.Settling?)
    && NamesCall(m.phase.rec, e.moveRevision, e.moveStep, e.moveRequestID, e.moveModelRequestID)
    && StateOf(m.plan, e.moveStep) == Some(e.from)
    && StepTransitionAllowed(e.from, e.to)
    && if m.phase.Started? then
         e.from == Pending && e.to == InProgress && (Risky(x, m.phase.rec.request) ==> m.phase.checkpointed)
       else
         m.phase.owesStep && !m.phase.owesCheckpoint && e.to == Implemented
  }

  /** One event: the next monitor state, or nothing when the event is out of place. */
  ghost function Next(x: Executor, input: LoopInput, m: Monitor, e: Event): Option<Monitor> {
    if input.limits.maximumCost.denominator < 1 then None
    else if e.ControlRead? then Some(m.(live := Live(e.control)))
    else if e.Note? && !e.note.CallRefused? then Some(if e.note.ToolAnswered? then m.(answer := Some(e.note.answer)) else m)
    else if !m.live then None
    else match e
      case PlanApproved(revision, approvalID) =>
        if !m.approved && m.round == 0 && revision == input.plan.revision && approvalID == input.approvalID
        then Some(m.(approved := true)) else None
      case Note(note) =>
        if CanRefuse(input, m, note.refused) then Some(m.(handled := m.handled + [note.refused.id])) else None
      case Turn(round, turn) =>
        if CanTurn(input, m, round) then Some(AfterTurn(input, m, round, turn)) else None
      case Start(rec) =>
        if CanStart(x, input, m, rec)
        then Some(m.(started := m.started + {rec.request.id}, handled := m.handled + [rec.request.id],
                     phase := Started(rec, false)))
        else None
      case Checkpoint(trigger, _, _, _, _, _, _, _) =>
        if CanCheckpoint(x, m, e)
        then Some(m.(phase := if trigger == BeforeRisky then m.phase.(checkpointed := true)
                              else m.phase.(owesCheckpoint := false)))
        else None
      case Transition(_, step, _, to, _, _) =>
        if CanMove(x, m, e)
        then Some(m.(plan := WithState(m.plan, step, to),
                     phase := if m.phase.Started? then m.phase else m.phase.(owesStep := false)))
        else None
      case Execute(_, _) =>
        if CanExecute(x, input, m, e) then Some(m.(phase := Executed(m.phase.rec), answer := None)) else None
      case Result(_, _, _, _, result) =>
        if CanRecord(x, input, m, e) then Some(AfterResult(x, input, m, result)) else None
  }

  ghost function Replay(x: Executor, input: LoopInput, t: Trace): Option<Monitor> {
    if t == [] then Some(Initial(input))
    else
      match Replay(x, input, t[..|t| - 1])
      case None => None
      case Some(m) => Next(x, input, m, t[|t| - 1])
  }

  ghost predicate Accepts(x: Executor, input: LoopInput, t: Trace) {
    Replay(x, input, t).Some?
  }

  lemma ReplayAppend(x: Executor, input: LoopInput, t: Trace, e: Event)
    ensures Accepts(x, input, t) ==>
              Replay(x, input, t + [e]) == Next(x, input, Replay(x, input, t).value, e)
  {
    assert (t + [e])[..|t|] == t;
  }

  /** An observation leaves the monitor alone, unless it passes a call over. */
  lemma NoteReplay(x: Executor, input: LoopInput, t: Trace, note: Observation)
    requires Accepts(x, input, t) && input.limits.maximumCost.denominator >= 1 && !note.CallRefused? && !note.ToolAnswered?
    ensures Replay(x, input, t + [Note(note)]) == Replay(x, input, t)
  {
    ReplayAppend(x, input, t, Note(note));
  }

  lemma {:induction false} PrefixAccepted(x: Executor, input: LoopInput, t: Trace, i: nat)
    requires Accepts(x, input, t) && i <= |t|
    ensures Accepts(x, input, t[..i])
    decreases |t|
  {
    if i == |t| {
      assert t[..i] == t;
    } else {
      PrefixAccepted(x, input, t[..|t| - 1], i);
      assert t[..|t| - 1][..i] == t[..i];
    }
  }

  /** Every event of an accepted trace was in place when it happened. */
  lemma AcceptedAt(x: Executor, input: LoopInput, t: Trace, i: nat)
    requires Accepts(x, input, t) && i < |t|
    ensures Accepts(x, input, t[..i])
    ensures Next(x, input, Replay(x, input, t[..i]).value, t[i]).Some?
    ensures Replay(x, input, t[..i + 1]) == Next(x, input, Replay(x, input, t[..i]).value, t[i])
  {
    PrefixAccepted(x, input, t, i);
    PrefixAccepted(x, input, t, i + 1);
    assert t[..i + 1] == t[..i] + [t[i]];
    ReplayAppend(x, input, t[..i], t[i]);
  }
}
