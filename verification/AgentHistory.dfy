/**
 What an accepted trace says about a run, stated over the events themselves: every execution
 is covered by its own start, nothing is started before the previous call is settled, the
 plan is the fold of its transitions, and every budget holds when a tool executes.
 */
module AgentHistory {
  import opened Common
  import opened AgentPlan
  import opened AgentTrace

  // ---------------------------------------------------------------- readings of a trace

  datatype EventKind = StartEvent | ExecuteEvent | ResultEvent

  predicate Is(e: Event, kind: EventKind) {
    match kind
    case StartEvent => e.Start?
    case ExecuteEvent => e.Execute?
    case ResultEvent => e.Result?
  }

  /** The position of the last event of a kind, or -1. */
  function Last(t: Trace, kind: EventKind): (i: int)
    ensures -1 <= i < |t|
    ensures i >= 0 ==> Is(t[i], kind)
    ensures forall j :: i < j < |t| ==> !Is(t[j], kind)
  {
    if t == [] then -1
    else if Is(t[|t| - 1], kind) then |t| - 1
    else Last(t[..|t| - 1], kind)
  }

  /** What the latest event that says anything of a kind says. */
  function Latest<T>(said: Event -> Option<T>, t: Trace): Option<T> {
    if t == [] then None
    else if said(t[|t| - 1]).Some? then said(t[|t| - 1])
    else Latest(said, t[..|t| - 1])
  }

  lemma LatestAppend<T>(said: Event -> Option<T>, t: Trace, e: Event)
    ensures Latest(said, t + [e]) == if said(e).Some? then said(e) else Latest(said, t)
  {
    assert (t + [e])[..|t|] == t;
  }

  function ControlOf(e: Event): Option<ControlState> {
    if e.ControlRead? then Some(e.control) else None
  }

  function NoteOf(e: Event): Option<Observation> {
    if e.Note? then Some(e.note) else None
  }

  function TurnOf(e: Event): Option<ModelTurn> {
    if e.Turn? then Some(e.turn) else None
  }

  function ResultOf(e: Event): Option<ToolResult> {
    if e.Result? then Some(e.result) else None
  }

  /** What the executor answered since it was last asked. */
  function AnswerSince(t: Trace): Option<ToolAnswer> {
    if t == [] then None
    else
      var e := t[|t| - 1];
      if e.Execute? then None
      else if e.Note? && e.note.ToolAnswered? then Some(e.note.answer)
      else AnswerSince(t[..|t| - 1])
  }

  /** The calls of the latest turn that were started or refused, in that order. */
  function HandledSince(t: Trace): seq<string> {
    if t == [] then []
    else
      var e, before := t[|t| - 1], HandledSince(t[..|t| - 1]);
      if e.Turn? then []
      else if e.Start? then before + [e.rec.request.id]
      else if e.Note? && e.note.CallRefused? then before + [e.note.refused.id]
      else before
  }

  function StartedIDs(t: Trace): set<string> {
    if t == [] then {}
    else StartedIDs(t[..|t| - 1]) + (if t[|t| - 1].Start? then {t[|t| - 1].rec.request.id} else {})
  }

  function TurnIDs(t: Trace): set<string> {
    if t == [] then {} else TurnIDs(t[..|t| - 1]) + (if t[|t| - 1].Turn? then {t[|t| - 1].turn.requestID} else {})
  }

  /** The identities of the turns before the latest. */
  function EarlierTurnIDs(t: Trace): set<string> {
    if t == [] then {}
    else if t[|t| - 1].Turn? then TurnIDs(t[..|t| - 1])
    else EarlierTurnIDs(t[..|t| - 1])
  }

  function Turns(t: Trace): nat {
    if t == [] then 0 else Turns(t[..|t| - 1]) + (if t[|t| - 1].Turn? then 1 else 0)
  }

  function Starts(t: Trace): nat {
    if t == [] then 0 else Starts(t[..|t| - 1]) + (if t[|t| - 1].Start? then 1 else 0)
  }

  /** The turns that declared completion. */
  function Declarations(t: Trace): nat {
    if t == [] then 0
    else Declarations(t[..|t| - 1]) + (if t[|t| - 1].Turn? && Declares(t[|t| - 1].turn) then 1 else 0)
  }

  /** The durable plan log applied to a plan. */
  function FoldTransitions(plan: Plan, t: Trace): Plan {
    if t == [] then plan
    else
      var before := FoldTransitions(plan, t[..|t| - 1]);
      var e := t[|t| - 1];
      if e.Transition? then WithState(before, e.moveStep, e.to) else before
  }

  /** Tokens of the turns that kept within the per-round limit. */
  function TokensOf(input: LoopInput, t: Trace): nat {
    if t == [] then 0
    else
      var before := TokensOf(input, t[..|t| - 1]);
      if t[|t| - 1].Turn? then TokensAfter(input, before, t[|t| - 1].turn) else before
  }

  /** Exact cost of the turns that passed both token limits. */
  function CostOf(input: LoopInput, t: Trace): real {
    if t == [] then 0.0
    else
      var p := t[..|t| - 1];
      if t[|t| - 1].Turn? then CostAfter(input, TokensOf(input, p), CostOf(input, p), t[|t| - 1].turn)
      else CostOf(input, p)
  }

  /** The request whose result is recorded at the end of `t`. */
  function RecordedRequest(t: Trace): Option<ToolRequest> {
    var j := Last(t, StartEvent);
    if j < 0 then None else Some(t[j].rec.request)
  }

  predicate SucceededAt(t: Trace, i: nat) {
    i < |t| && t[i].Result? && t[i].result.state == Succeeded
  }

  /** A recorded success of a material edit. */
  predicate EditAt(input: LoopInput, t: Trace, i: nat) {
    SucceededAt(t, i) && RecordedRequest(t[..i]).Some? && IsMaterial(input, RecordedRequest(t[..i]).value.name)
  }

  predicate TestAt(t: Trace, i: nat) {
    && i < |t| && t[i].Result?
    && RecordedRequest(t[..i]).Some? && RecordedRequest(t[..i]).value.name == TOOL_TEST
  }

  /** Some successful edit has no later successful test. */
  ghost predicate Untested(input: LoopInput, t: Trace) {
    exists i: nat :: EditAt(input, t, i) && forall j: nat :: i < j && TestAt(t, j) ==> !SucceededAt(t, j)
  }

  /** The latest test did not succeed. */
  ghost predicate LastTestFailed(t: Trace) {
    exists i: nat :: TestAt(t, i) && !SucceededAt(t, i) && forall j: nat :: i < j ==> !TestAt(t, j)
  }

  /** Failed actions are identical exactly if action, state, exit code and how they ended all agree. */
  lemma IdenticalFailures(x: Executor, a: ToolRequest, r: ToolResult, b: ToolRequest, s: ToolResult)
    ensures FailedActionFingerprint(x, a, r) == FailedActionFingerprint(x, b, s) <==>
            && x.actionHash(a) == x.actionHash(b) && r.state == s.state && r.exitCode == s.exitCode
            && r.timedOut == s.timedOut && r.cancelled == s.cancelled
  {}

  function FailuresWith(x: Executor, t: Trace, f: Fingerprint): nat {
    if t == [] then 0
    else
      var e, p := t[|t| - 1], t[..|t| - 1];
      FailuresWith(x, p, f)
      + (if e.Result? && e.result.state != Succeeded && RecordedRequest(p).Some?
            && FailedActionFingerprint(x, RecordedRequest(p).value, e.result) == f then 1 else 0)
  }

  // ---------------------------------------------------------------- what the monitor knows

  ghost predicate RiskyCheckpointFor(x: Executor, e: Event, rec: StartRecord) {
    && e.Checkpoint? && e.trigger == BeforeRisky
    && e.ckptRequestID == rec.request.id && e.ckptStep == rec.step && e.ckptRound == rec.round
    && e.permissionID == rec.authorization.decisionID && e.actionSHA256 == x.actionHash(rec.request)
  }

  ghost predicate CheckpointedSince(x: Executor, t: Trace, j: int, rec: StartRecord) {
    exists k :: 0 <= j < k < |t| && RiskyCheckpointFor(x, t[k], rec)
  }

  /** The phase tells which call was started last and how far it got. */
  ghost predicate PhaseMeans(x: Executor, t: Trace, phase: Phase) {
    var s, e, r := Last(t, StartEvent), Last(t, ExecuteEvent), Last(t, ResultEvent);
    match phase
    case Idle => s == -1 && e == -1 && r == -1
    case Started(rec, checkpointed) =>
      && 0 <= s && t[s] == Start(rec) && e < s && r < s
      && (checkpointed ==> CheckpointedSince(x, t, s, rec))
    case Executed(rec) =>
      && 0 <= s < e && t[s] == Start(rec) && t[e].request == rec.request && r < s
    case Settling(rec, _, _) =>
      && 0 <= s < e < r && t[s] == Start(rec) && t[e].request == rec.request
      && t[r].resultRequestID == rec.request.id && t[r].resultStep == rec.step
  }

  lemma PhaseExtends(x: Executor, t: Trace, e: Event, phase: Phase)
    requires PhaseMeans(x, t, phase)
    requires !e.Start? && !e.Execute? && !e.Result?
    ensures PhaseMeans(x, t + [e], phase)
  {
    var u := t + [e];
    assert u[..|t|] == t;
    if phase.Started? && phase.checkpointed {
      var s := Last(t, StartEvent);
      var k :| 0 <= s < k < |t| && RiskyCheckpointFor(x, t[k], phase.rec);
      assert u[k] == t[k];
    }
  }

  lemma PhaseOnCheckpoint(x: Executor, input: LoopInput, t: Trace, m: Monitor, e: Event)
    requires PhaseMeans(x, t, m.phase) && Next(x, input, m, e).Some? && e.Checkpoint?
    ensures PhaseMeans(x, t + [e], Next(x, input, m, e).value.phase)
  {
    var u := t + [e];
    assert u[..|t|] == t && u[|t|] == e;
    PhaseExtends(x, t, e, m.phase);
    if e.trigger == BeforeRisky {
      assert RiskyCheckpointFor(x, u[|t|], m.phase.rec);
      assert CheckpointedSince(x, u, Last(u, StartEvent), m.phase.rec);
    }
  }

  lemma PhaseOnCall(x: Executor, input: LoopInput, t: Trace, m: Monitor, e: Event)
    requires PhaseMeans(x, t, m.phase) && Next(x, input, m, e).Some? && (e.Start? || e.Execute? || e.Result?)
    ensures PhaseMeans(x, t + [e], Next(x, input, m, e).value.phase)
  {
    var u := t + [e];
    assert u[..|t|] == t && u[|t|] == e;
  }

  lemma PhaseStep(x: Executor, input: LoopInput, t: Trace, m: Monitor, e: Event)
    requires PhaseMeans(x, t, m.phase) && Next(x, input, m, e).Some?
    ensures PhaseMeans(x, t + [e], Next(x, input, m, e).value.phase)
  {
    if e.Checkpoint? {
      PhaseOnCheckpoint(x, input, t, m, e);
    } else if e.Start? || e.Execute? || e.Result? {
      PhaseOnCall(x, input, t, m, e);
    } else {
      PhaseExtends(x, t, e, m.phase);
    }
  }

  /** The phase of a trace means what it says. */
  ghost predicate PhaseRight(x: Executor, input: LoopInput, t: Trace) {
    Accepts(x, input, t) && PhaseMeans(x, t, Replay(x, input, t).value.phase)
  }

  lemma PhaseNext(x: Executor, input: LoopInput, p: Trace, e: Event)
    requires PhaseRight(x, input, p) && Accepts(x, input, p + [e])
    ensures PhaseRight(x, input, p + [e])
  {
    ReplayAppend(x, input, p, e);
    PhaseStep(x, input, p, Replay(x, input, p).value, e);
  }

  lemma PhaseInitially(x: Executor, input: LoopInput)
    ensures PhaseRight(x, input, [])
  {}

  /** Whatever holds of the empty trace and is kept by every accepted event holds of every accepted trace. */
  lemma {:induction false} TraceInduction(accepts: Trace -> bool, holds: Trace -> bool, t: Trace)
    requires holds([]) && accepts(t) && (forall u, i :: accepts(u) && 0 <= i <= |u| ==> accepts(u[..i]))
    requires forall p, e :: holds(p) && accepts(p + [e]) ==> holds(p + [e])
    ensures holds(t)
  {
    if t != [] {
      var p, e := t[..|t| - 1], t[|t| - 1];
      assert p + [e] == t;
      TraceInduction(accepts, holds, p);
    }
  }

  lemma PhaseMeaning(x: Executor, input: LoopInput, t: Trace)
    requires Accepts(x, input, t)
    ensures PhaseMeans(x, t, Replay(x, input, t).value.phase)
  {
    PhaseIsRight(x, input, t);
  }

  lemma PhaseIsRight(x: Executor, input: LoopInput, t: Trace)
    requires Accepts(x, input, t)
    ensures PhaseRight(x, input, t)
  {
    PhaseInitially(x, input);
    forall u, i | Accepts(x, input, u) && 0 <= i <= |u| ensures Accepts(x, input, u[..i]) { PrefixAccepted(x, input, u, i); }
    forall p, e | PhaseRight(x, input, p) && Accepts(x, input, p + [e]) ensures PhaseRight(x, input, p + [e]) {
      PhaseNext(x, input, p, e);
    }
    TraceInduction(u => Accepts(x, input, u), u => PhaseRight(x, input, u), t);
  }

  lemma CountersStep(x: Executor, input: LoopInput, m: Monitor, e: Event)
    requires Next(x, input, m, e).Some?
    ensures var n := Next(x, input, m, e).value;
            && n.plan == (if e.Transition? then WithState(m.plan, e.moveStep, e.to) else m.plan)
            && n.round == (if e.Turn? then m.round + 1 else m.round)
            && n.started == (if e.Start? then m.started + {e.rec.request.id} else m.started)
            && (e.Start? ==> e.rec.request.id !in m.started)
  {}

  lemma AmountsStep(x: Executor, input: LoopInput, m: Monitor, e: Event)
    requires Next(x, input, m, e).Some?
    ensures var n := Next(x, input, m, e).value;
            && n.tokens == (if e.Turn? then TokensAfter(input, m.tokens, e.turn) else m.tokens)
            && n.cost == (if e.Turn? then CostAfter(input, m.tokens, m.cost, e.turn) else m.cost)
            && n.completions == m.completions + (if e.Turn? && Declares(e.turn) then 1 else 0)
  {}

  /** The monitor's counters are the readings of the trace. */
  lemma {:induction false} CountersMeaning(x: Executor, input: LoopInput, t: Trace)
    requires Accepts(x, input, t)
    ensures var m := Replay(x, input, t).value;
            && m.plan == FoldTransitions(input.plan, t)
            && m.round == Turns(t)
            && m.tokens == TokensOf(input, t)
            && m.cost == CostOf(input, t)
            && |m.started| == Starts(t) && m.completions == Declarations(t)
  {
    if t != [] {
      var p := t[..|t| - 1];
      CountersMeaning(x, input, p);
      AmountsStep(x, input, Replay(x, input, p).value, t[|t| - 1]);
      CountersStep(x, input, Replay(x, input, p).value, t[|t| - 1]);
    }
  }

  lemma TurnStep(x: Executor, input: LoopInput, m: Monitor, e: Event)
    requires Next(x, input, m, e).Some?
    ensures var n := Next(x, input, m, e).value;
            && n.turn == (if e.Turn? then Some(e.turn) else m.turn)
            && n.modelIDs == m.modelIDs + (if e.Turn? then {e.turn.requestID} else {})
            && n.live == (if e.ControlRead? then Live(e.control) else m.live)
  {}

  lemma HandledStep(x: Executor, input: LoopInput, m: Monitor, e: Event)
    requires Next(x, input, m, e).Some?
    ensures var n := Next(x, input, m, e).value;
            && n.started == (if e.Start? then m.started + {e.rec.request.id} else m.started)
            && n.handled == (if e.Turn? then []
                             else if e.Start? then m.handled + [e.rec.request.id]
                             else if e.Note? && e.note.CallRefused? then m.handled + [e.note.refused.id]
                             else m.handled)
  {}

  /** So are the latest control state, the latest turn, and how far its calls have got. */
  lemma {:induction false} TurnStateMeaning(x: Executor, input: LoopInput, t: Trace)
    requires Accepts(x, input, t)
    ensures var m := Replay(x, input, t).value;
            && m.turn == Latest(TurnOf, t) && m.handled == HandledSince(t) && m.started == StartedIDs(t)
            && m.modelIDs == TurnIDs(t)
            && (m.live <==> Latest(ControlOf, t).Some? && Live(Latest(ControlOf, t).value))
  {
    if t != [] {
      var p := t[..|t| - 1];
      TurnStateMeaning(x, input, p);
      TurnStep(x, input, Replay(x, input, p).value, t[|t| - 1]);
      HandledStep(x, input, Replay(x, input, p).value, t[|t| - 1]);
    }
  }

  lemma {:induction false} StartedMeaning(x: Executor, input: LoopInput, t: Trace)
    requires Accepts(x, input, t)
    ensures forall i :: 0 <= i < |t| && t[i].Start? ==> t[i].rec.request.id in Replay(x, input, t).value.started
  {
    if t != [] {
      var p := t[..|t| - 1];
      StartedMeaning(x, input, p);
      CountersStep(x, input, Replay(x, input, p).value, t[|t| - 1]);
      assert forall i :: 0 <= i < |p| ==> t[i] == p[i];
    }
  }

  // ---------------------------------------------------------------- theorem: executions

  /** The event is an execution covered by the latest start, which nothing has executed yet. */
  ghost predicate ExecutionCovered(x: Executor, input: LoopInput, p: Trace, e: Event)
    requires e.Execute?
  {
    var s := Last(p, StartEvent);
    && 0 <= s && Last(p, ExecuteEvent) < s
    && var rec := p[s].rec;
    && rec.request == e.request && rec.round == Turns(p)
    && rec.revision == FoldTransitions(input.plan, p).revision
    && e.classification == rec.authorization.classification
    && AuthorizationValid(x, input, e.request, rec.authorization) && Executable(rec.authorization)
    && (Risky(x, e.request) ==> CheckpointedSince(x, p, s, rec))
  }

  /** The monitor admits an execution only while the accepted turn is inside every budget. */
  ghost predicate InFlightSound(x: Executor, input: LoopInput, m: Monitor) {
    && input.limits.maximumCost.denominator >= 1
    && (m.turn.None? ==> m.tokens == 0 && m.cost == 0.0)
    && (m.admitted ==> m.turn.Some? && m.tokens <= input.limits.maximumTokens && m.cost <= CostLimit(input))
    && (!m.phase.Idle? ==> m.admitted || m.phase.Settling?)
    && (m.phase.Started? || m.phase.Executed? ==>
          && m.admitted && m.phase.rec.round == m.round
          && m.phase.rec.revision == m.plan.revision
          && AuthorizationValid(x, input, m.phase.rec.request, m.phase.rec.authorization)
          && Executable(m.phase.rec.authorization))
  }

  lemma InFlightOnTurn(x: Executor, input: LoopInput, m: Monitor, e: Event)
    requires Next(x, input, m, e).Some? && InFlightSound(x, input, m) && e.Turn?
    ensures InFlightSound(x, input, Next(x, input, m, e).value)
  {}

  lemma InFlightOnStart(x: Executor, input: LoopInput, m: Monitor, e: Event)
    requires Next(x, input, m, e).Some? && InFlightSound(x, input, m) && e.Start?
    ensures InFlightSound(x, input, Next(x, input, m, e).value)
  {}

  lemma InFlightOnMove(x: Executor, input: LoopInput, m: Monitor, e: Event)
    requires Next(x, input, m, e).Some? && InFlightSound(x, input, m) && e.Transition?
    ensures InFlightSound(x, input, Next(x, input, m, e).value)
  {
    WithStateIndex(m.plan, e.moveStep, e.to);
  }

  lemma InFlightOtherwise(x: Executor, input: LoopInput, m: Monitor, e: Event)
    requires Next(x, input, m, e).Some? && InFlightSound(x, input, m) && !e.Turn? && !e.Start? && !e.Transition?
    ensures InFlightSound(x, input, Next(x, input, m, e).value)
  {}

  lemma InFlightStep(x: Executor, input: LoopInput, m: Monitor, e: Event)
    requires Next(x, input, m, e).Some? && InFlightSound(x, input, m)
    ensures InFlightSound(x, input, Next(x, input, m, e).value)
  {
    if e.Turn? {
      InFlightOnTurn(x, input, m, e);
    } else if e.Start? {
      InFlightOnStart(x, input, m, e);
    } else if e.Transition? {
      InFlightOnMove(x, input, m, e);
    } else {
      InFlightOtherwise(x, input, m, e);
    }
  }

  lemma {:induction false} InFlight(x: Executor, input: LoopInput, t: Trace)
    requires Accepts(x, input, t) && input.limits.maximumCost.denominator >= 1
    ensures InFlightSound(x, input, Replay(x, input, t).value)
  {
    if t != [] {
      var p := t[..|t| - 1];
      InFlight(x, input, p);
      InFlightStep(x, input, Replay(x, input, p).value, t[|t| - 1]);
    }
  }

  /** In every accepted trace, every execution is covered and inside its budgets. */
  lemma ExecutionsAreCovered(x: Executor, input: LoopInput, t: Trace, i: nat)
    requires Accepts(x, input, t) && i < |t| && t[i].Execute?
    ensures ExecutionCovered(x, input, t[..i], t[i])
    ensures TokensOf(input, t[..i]) <= input.limits.maximumTokens
    ensures input.limits.maximumCost.denominator >= 1 && CostOf(input, t[..i]) <= CostLimit(input)
  {
    AcceptedAt(x, input, t, i);
    PhaseMeaning(x, input, t[..i]);
    CountersMeaning(x, input, t[..i]);
    InFlight(x, input, t[..i]);
  }

  /** No two starts carry the same request identity. */
  lemma StartsAreDistinct(x: Executor, input: LoopInput, t: Trace, i: nat, j: nat)
    requires Accepts(x, input, t) && i < j < |t| && t[i].Start? && t[j].Start?
    ensures t[i].rec.request.id != t[j].rec.request.id
  {
    AcceptedAt(x, input, t, j);
    StartedMeaning(x, input, t[..j]);
    assert t[..j][i] == t[i];
  }

  /** A start that another start follows was executed, and its result recorded, in between. */
  lemma {:induction false} EarlierStartsAreSettled(x: Executor, input: LoopInput, t: Trace, i: nat, j: nat)
    returns (e: nat, r: nat)
    requires Accepts(x, input, t) && i < j < |t| && t[i].Start? && t[j].Start?
    ensures i < e < r < j
    ensures t[e].Execute? && t[e].request == t[i].rec.request
    ensures t[r].Result? && t[r].resultRequestID == t[i].rec.request.id && t[r].resultStep == t[i].rec.step
    decreases j
  {
    var p := t[..j];
    AcceptedAt(x, input, t, j);
    PhaseMeaning(x, input, p);
    var s := Last(p, StartEvent);
    assert p[i] == t[i];
    assert s >= i;
    if s == i {
      e, r := Last(p, ExecuteEvent), Last(p, ResultEvent);
    } else {
      assert p[s] == t[s];
      e, r := EarlierStartsAreSettled(x, input, t, i, s);
    }
  }

  /** An execution that another execution follows has its result recorded in between. */
  lemma EarlierExecutionsAreRecorded(x: Executor, input: LoopInput, t: Trace, i: nat, j: nat) returns (r: nat)
    requires Accepts(x, input, t) && i < j < |t| && t[i].Execute? && t[j].Execute?
    ensures i < r < j && t[r].Result? && t[r].resultRequestID == t[i].request.id
  {
    var pi, pj := t[..i], t[..j];
    AcceptedAt(x, input, t, i);
    AcceptedAt(x, input, t, j);
    PhaseMeaning(x, input, pi);
    PhaseMeaning(x, input, pj);
    var si, sj := Last(pi, StartEvent), Last(pj, StartEvent);
    assert pi[si] == t[si] && pj[sj] == t[sj] && pj[i] == t[i];
    assert si < i < sj;
    var e;
    e, r := EarlierStartsAreSettled(x, input, t, si, sj);
    var ps := t[..sj];
    if e != i {
      SoleExecution(x, input, t, si, e, i);
    }
  }

  /** One start is executed at most once. */
  lemma SoleExecution(x: Executor, input: LoopInput, t: Trace, s: nat, a: nat, b: nat)
    requires Accepts(x, input, t) && a < |t| && b < |t| && t[a].Execute? && t[b].Execute? && s < |t| && t[s].Start?
    requires t[a].request == t[s].rec.request && t[b].request == t[s].rec.request
    ensures a == b
  {
    var lo, hi := if a <= b then a else b, if a <= b then b else a;
    if lo < hi {
      ExecutionsAreCovered(x, input, t, lo);
      ExecutionsAreCovered(x, input, t, hi);
      var sl, sh := Last(t[..lo], StartEvent), Last(t[..hi], StartEvent);
      assert t[..lo][sl] == t[sl] && t[..hi][sh] == t[sh] && t[..hi][lo] == t[lo];
      assert lo <= Last(t[..hi], ExecuteEvent);
      StartsAreDistinct(x, input, t, sl, sh);
    }
  }

  // ---------------------------------------------------------------- theorem: the plan log

  /** Steps keep everything but their state, and no state moves backward or becomes validated. */
  ghost predicate Advances(before: Plan, after: Plan) {
    && after.revision == before.revision && |after.steps| == |before.steps|
    && forall i :: 0 <= i < |after.steps| ==>
         && after.steps[i].(state := before.steps[i].state) == before.steps[i]
         && (after.steps[i].state == before.steps[i].state
             || (before.steps[i].state in {Pending, InProgress} && after.steps[i].state in {InProgress, Implemented}
                 && Progress(before.steps[i].state) < Progress(after.steps[i].state)))
  }

  lemma WithStateIndex(plan: Plan, step: string, to: StepState)
    ensures |WithState(plan, step, to).steps| == |plan.steps|
    ensures forall id :: StepIndex(WithState(plan, step, to), id) == StepIndex(plan, id)
  {
    var after := WithState(plan, step, to);
    forall id ensures StepIndex(after, id) == StepIndex(plan, id) {
      var a, b := StepIndex(after, id), StepIndex(plan, id);
      if a < |plan.steps| { assert after.steps[a].id == plan.steps[a].id; }
      if b < |plan.steps| { assert after.steps[b].id == plan.steps[b].id; }
    }
  }

  /** The durable log only ever moves steps forward, and never to validated. */
  lemma {:induction false} PlanAdvances(x: Executor, input: LoopInput, t: Trace)
    requires Accepts(x, input, t)
    ensures Advances(input.plan, FoldTransitions(input.plan, t))
  {
    if t != [] {
      var p, e := t[..|t| - 1], t[|t| - 1];
      PlanAdvances(x, input, p);
      CountersMeaning(x, input, p);
      if e.Transition? {
        var before := FoldTransitions(input.plan, p);
        MoveAdvances(input.plan, before, e.moveStep, e.from, e.to);
      }
    }
  }

  lemma MoveAdvances(first: Plan, before: Plan, step: string, from: StepState, to: StepState)
    requires Advances(first, before) && StateOf(before, step) == Some(from)
    requires StepTransitionAllowed(from, to) && to in {InProgress, Implemented}
    ensures Advances(first, WithState(before, step, to))
  {}

  /** Every logged transition leaves the state the log itself gave the step, by an allowed move. */
  lemma TransitionsAreLegal(x: Executor, input: LoopInput, t: Trace, i: nat)
    requires Accepts(x, input, t) && i < |t| && t[i].Transition?
    ensures StateOf(FoldTransitions(input.plan, t[..i]), t[i].moveStep) == Some(t[i].from)
    ensures StepTransitionAllowed(t[i].from, t[i].to) && t[i].to in {InProgress, Implemented}
    ensures Last(t[..i], StartEvent) >= 0
    ensures var rec := t[Last(t[..i], StartEvent)].rec;
            rec.step == t[i].moveStep && rec.request.id == t[i].moveRequestID
            && rec.modelRequestID == t[i].moveModelRequestID
  {
    AcceptedAt(x, input, t, i);
    CountersMeaning(x, input, t[..i]);
    PhaseMeaning(x, input, t[..i]);
    var s := Last(t[..i], StartEvent);
    assert t[..i][s] == t[s];
  }

  /** A plan that validation can complete was already validated before the run. */
  lemma ValidatedBeforeTheRun(before: Plan, after: Plan)
    requires Advances(before, after) && ValidationStepsComplete(after)
    ensures forall i :: 0 <= i < |before.steps| && before.steps[i].validationRequired
                        ==> before.steps[i].state == Validated
  {
    forall i | 0 <= i < |before.steps| && before.steps[i].validationRequired
      ensures before.steps[i].state == Validated
    {
      assert after.steps[i].validationRequired;
    }
  }

  // ---------------------------------------------------------------- theorem: attribution

  /** A start is for the next call of the latest turn, at the step it belongs to as the log then stood. */
  ghost predicate StartAttributed(input: LoopInput, p: Trace, rec: StartRecord) {
    var turn, call := Latest(TurnOf, p), NextCall(Latest(TurnOf, p), HandledSince(p));
    && rec.round == Turns(p) && turn.Some? && turn.value.requestID == rec.modelRequestID
    && call.Some? && Proposes(input, FoldTransitions(input.plan, p), call.value, rec)
  }

  /** Every start belongs to the call whose turn it is and to the step it is attributed to. */
  lemma StartsAreAttributed(x: Executor, input: LoopInput, t: Trace, j: nat)
    requires Accepts(x, input, t) && j < |t| && t[j].Start?
    ensures StartAttributed(input, t[..j], t[j].rec)
  {
    AcceptedAt(x, input, t, j);
    CountersMeaning(x, input, t[..j]);
    TurnStateMeaning(x, input, t[..j]);
  }

  /** Only a call no step may carry is passed over, and only when it is that call's turn. */
  ghost predicate RefusalJustified(input: LoopInput, p: Trace, request: ToolRequest) {
    var call := NextCall(Latest(TurnOf, p), HandledSince(p));
    && call.Some? && call.value.id == request.id && call.value.arguments == Some(request.arguments)
    && Unowned(FoldTransitions(input.plan, p), call.value.step, request)
  }

  lemma RefusalsAreJustified(x: Executor, input: LoopInput, t: Trace, j: nat)
    requires Accepts(x, input, t) && j < |t| && t[j].Note? && t[j].note.CallRefused?
    ensures RefusalJustified(input, t[..j], t[j].note.refused)
  {
    AcceptedAt(x, input, t, j);
    CountersMeaning(x, input, t[..j]);
    TurnStateMeaning(x, input, t[..j]);
  }

  /**
   Before the next turn every call of a turn was started or refused, each once and in order; or its
   declared completion was refused, over unverified work that can still be tested and at most three
   times; or it was an answerable fault.
   */
  ghost predicate TurnComplete(input: LoopInput, p: Trace) {
    var turn := Latest(TurnOf, p);
    turn.Some? ==>
      TurnSettled(input, turn.value, HandledSince(p), Untested(input, p) || LastTestFailed(p), Declarations(p),
                  FoldTransitions(input.plan, p))
  }

  lemma TurnsAreComplete(x: Executor, input: LoopInput, t: Trace, j: nat)
    requires Accepts(x, input, t) && j < |t| && t[j].Turn?
    ensures TurnComplete(input, t[..j]) && t[j].turnRound == Turns(t[..j]) + 1
  {
    AcceptedAt(x, input, t, j);
    CountersMeaning(x, input, t[..j]);
    GuardFlagsMeaning(x, input, t[..j]);
    TurnStateMeaning(x, input, t[..j]);
  }

  /** Checkpoints and results name the step and the round of the call they belong to. */
  lemma RecordsNameOneStep(x: Executor, input: LoopInput, t: Trace, i: nat)
    requires Accepts(x, input, t) && i < |t| && (t[i].Checkpoint? || t[i].Result?)
    ensures Last(t[..i], StartEvent) >= 0
    ensures var rec := t[Last(t[..i], StartEvent)].rec;
            if t[i].Checkpoint? then
              t[i].ckptStep == rec.step && t[i].ckptRequestID == rec.request.id && t[i].ckptRound == rec.round
            else
              t[i].resultStep == rec.step && t[i].resultRequestID == rec.request.id && t[i].resultRound == rec.round
  {
    AcceptedAt(x, input, t, i);
    PhaseMeaning(x, input, t[..i]);
    var s := Last(t[..i], StartEvent);
    assert t[..i][s] == t[s];
  }

  lemma {:induction false} AnswerMeaning(x: Executor, input: LoopInput, t: Trace)
    requires Accepts(x, input, t)
    ensures Replay(x, input, t).value.answer == AnswerSince(t)
  {
    if t != [] {
      var p := t[..|t| - 1];
      AnswerMeaning(x, input, p);
      AnswerStep(x, input, Replay(x, input, p).value, t[|t| - 1]);
    }
  }

  lemma AnswerStep(x: Executor, input: LoopInput, m: Monitor, e: Event)
    requires Next(x, input, m, e).Some?
    ensures Next(x, input, m, e).value.answer ==
            if e.Execute? then None else if e.Note? && e.note.ToolAnswered? then Some(e.note.answer) else m.answer
  {}

  /** The recorded result renders what the executor answered to this execution. */
  ghost predicate ResultLawful(input: LoopInput, t: Trace, i: nat) {
    i < |t| && t[i].Result? ==>
      && AnswerSince(t[..i]).Some?
      && Renders(AnswerSince(t[..i]).value, t[i].resultRequestID, input.limits.maximumResultBytes, t[i].result)
  }

  lemma ResultsAreRendered(x: Executor, input: LoopInput, t: Trace, i: nat)
    requires Accepts(x, input, t)
    ensures ResultLawful(input, t, i)
  {
    if i < |t| && t[i].Result? {
      AcceptedAt(x, input, t, i);
      AnswerMeaning(x, input, t[..i]);
    }
  }

  // ---------------------------------------------------------------- theorem: repeated failures

  lemma FailuresStep(x: Executor, input: LoopInput, p: Trace, e: Event, f: Fingerprint)
    requires Accepts(x, input, p) && Accepts(x, input, p + [e])
    requires FailureCount(Replay(x, input, p).value.failures, f) == FailuresWith(x, p, f)
    requires FailuresWith(x, p, f) <= input.limits.maximumIdenticalFailures
    ensures FailureCount(Replay(x, input, p + [e]).value.failures, f) == FailuresWith(x, p + [e], f)
    ensures FailuresWith(x, p + [e], f) <= input.limits.maximumIdenticalFailures
  {
    ReplayAppend(x, input, p, e);
    PhaseMeaning(x, input, p);
    assert (p + [e])[..|p|] == p;
  }

  /** No failed action is recorded more often than the limit allows. */
  lemma {:induction false} FailuresAreBounded(x: Executor, input: LoopInput, t: Trace, f: Fingerprint)
    requires Accepts(x, input, t)
    ensures FailureCount(Replay(x, input, t).value.failures, f) == FailuresWith(x, t, f)
    ensures FailuresWith(x, t, f) <= input.limits.maximumIdenticalFailures
  {
    if t != [] {
      var p := t[..|t| - 1];
      FailuresAreBounded(x, input, p, f);
      assert p + [t[|t| - 1]] == t;
      FailuresStep(x, input, p, t[|t| - 1], f);
    }
  }

  /** The result recorded at `i` ends the run: the call was cancelled, or has now failed as often as the limit. */
  ghost predicate EndsAt(x: Executor, input: LoopInput, t: Trace, i: nat) {
    && i < |t| && t[i].Result?
    && (|| t[i].result.state == WasCancelled
        || (t[i].result.state != Succeeded && RecordedRequest(t[..i]).Some?
            && FailuresWith(x, t[..i + 1], FailedActionFingerprint(x, RecordedRequest(t[..i]).value, t[i].result))
               >= input.limits.maximumIdenticalFailures))
  }

  lemma EndedByResult(x: Executor, input: LoopInput, p: Trace, e: Event)
    requires Accepts(x, input, p) && Accepts(x, input, p + [e]) && EndsAt(x, input, p + [e], |p|)
    ensures Replay(x, input, p + [e]).value.ended
  {
    ResultRequest(x, input, p, e);
    ReplayAppend(x, input, p, e);
    assert (p + [e])[..|p|] == p && (p + [e])[..|p| + 1] == p + [e];
    if e.result.state != WasCancelled {
      var f := FailedActionFingerprint(x, RecordedRequest(p).value, e.result);
      FailuresAreBounded(x, input, p, f);
    }
  }

  lemma EndedStep(x: Executor, input: LoopInput, m: Monitor, e: Event)
    requires Next(x, input, m, e).Some? && m.ended
    ensures Next(x, input, m, e).value.ended && !e.Start? && !e.Turn?
  {}

  lemma {:induction false} EndedStays(x: Executor, input: LoopInput, t: Trace, i: nat)
    requires Accepts(x, input, t) && EndsAt(x, input, t, i)
    ensures Replay(x, input, t).value.ended
    decreases |t|
  {
    var p, e := t[..|t| - 1], t[|t| - 1];
    assert t == p + [e];
    PrefixAccepted(x, input, t, |t| - 1);
    if i == |p| {
      EndedByResult(x, input, p, e);
    } else {
      assert p[..i] == t[..i] && p[..i + 1] == t[..i + 1] && p[i] == t[i];
      EndedStays(x, input, p, i);
      ReplayAppend(x, input, p, e);
      EndedStep(x, input, Replay(x, input, p).value, e);
    }
  }

  /** After such a result nothing is started and no turn is taken. */
  ghost predicate EndLawful(x: Executor, input: LoopInput, t: Trace, i: nat, j: nat) {
    i < j < |t| && EndsAt(x, input, t, i) ==> !t[j].Start? && !t[j].Turn?
  }

  lemma EndsAreFinal(x: Executor, input: LoopInput, t: Trace, i: nat, j: nat)
    requires Accepts(x, input, t)
    ensures EndLawful(x, input, t, i, j)
  {
    if i < j < |t| && EndsAt(x, input, t, i) {
      AcceptedAt(x, input, t, j);
      var p := t[..j];
      assert p[..i] == t[..i] && p[..i + 1] == t[..i + 1] && p[i] == t[i];
      EndedStays(x, input, p, i);
      EndedStep(x, input, Replay(x, input, p).value, t[j]);
    }
  }

  // ---------------------------------------------------------------- theorem: untested work

  lemma UntestedStep(input: LoopInput, p: Trace, e: Event)
    ensures Untested(input, p + [e]) <==>
              EditAt(input, p + [e], |p|)
              || (Untested(input, p) && !(TestAt(p + [e], |p|) && SucceededAt(p + [e], |p|)))
  {
    var t := p + [e];
    assert forall i :: 0 <= i < |p| ==> t[i] == p[i] && t[..i] == p[..i];
    assert forall i: nat :: i < |p| ==> (EditAt(input, t, i) <==> EditAt(input, p, i));
    assert forall i: nat :: i < |p| ==> (TestAt(t, i) <==> TestAt(p, i));
    assert forall i: nat :: i < |p| ==> (SucceededAt(t, i) <==> SucceededAt(p, i));
    if Untested(input, p) && !(TestAt(t, |p|) && SucceededAt(t, |p|)) {
      var i: nat :| EditAt(input, p, i) && forall j: nat :: i < j && TestAt(p, j) ==> !SucceededAt(p, j);
      assert EditAt(input, t, i);
      assert forall j: nat :: i < j && TestAt(t, j) ==> !SucceededAt(t, j);
    }
    if Untested(input, t) && !EditAt(input, t, |p|) {
      var i: nat :| EditAt(input, t, i) && forall j: nat :: i < j && TestAt(t, j) ==> !SucceededAt(t, j);
      assert EditAt(input, p, i);
    }
  }

  lemma LastTestStep(p: Trace, e: Event)
    ensures LastTestFailed(p + [e]) <==>
              if TestAt(p + [e], |p|) then !SucceededAt(p + [e], |p|) else LastTestFailed(p)
  {
    var t := p + [e];
    assert forall i :: 0 <= i < |p| ==> t[i] == p[i] && t[..i] == p[..i];
    assert forall i: nat :: i < |p| ==> (TestAt(t, i) <==> TestAt(p, i));
    assert forall i: nat :: i < |p| ==> (SucceededAt(t, i) <==> SucceededAt(p, i));
    if LastTestFailed(p) && !TestAt(t, |p|) {
      var i: nat :| TestAt(p, i) && !SucceededAt(p, i) && forall j: nat :: i < j ==> !TestAt(p, j);
      assert TestAt(t, i) && forall j: nat :: i < j ==> !TestAt(t, j);
    }
    if LastTestFailed(t) && !TestAt(t, |p|) {
      var i: nat :| TestAt(t, i) && !SucceededAt(t, i) && forall j: nat :: i < j ==> !TestAt(t, j);
      assert TestAt(p, i) && forall j: nat :: i < j ==> !TestAt(p, j);
    }
  }

  lemma ResultRequest(x: Executor, input: LoopInput, p: Trace, e: Event)
    requires Accepts(x, input, p) && Accepts(x, input, p + [e]) && e.Result?
    ensures Replay(x, input, p).value.phase.Executed?
    ensures RecordedRequest(p) == Some(Replay(x, input, p).value.phase.rec.request)
  {
    ReplayAppend(x, input, p, e);
    PhaseMeaning(x, input, p);
  }

  lemma GuardFlagsStep(x: Executor, input: LoopInput, p: Trace, e: Event)
    requires Accepts(x, input, p) && Accepts(x, input, p + [e])
    ensures var m, n := Replay(x, input, p).value, Replay(x, input, p + [e]).value;
            && n.untested == (EditAt(input, p + [e], |p|)
                              || (m.untested && !(TestAt(p + [e], |p|) && SucceededAt(p + [e], |p|))))
            && n.testFailed == (if TestAt(p + [e], |p|) then !SucceededAt(p + [e], |p|) else m.testFailed)
  {
    ReplayAppend(x, input, p, e);
    assert (p + [e])[..|p|] == p;
    if e.Result? {
      ResultRequest(x, input, p, e);
    }
  }

  /** The two flags that guard completion are exactly what the history says. */
  lemma {:induction false} GuardFlagsMeaning(x: Executor, input: LoopInput, t: Trace)
    requires Accepts(x, input, t)
    ensures Replay(x, input, t).value.untested <==> Untested(input, t)
    ensures Replay(x, input, t).value.testFailed <==> LastTestFailed(t)
  {
    if t != [] {
      var p, e := t[..|t| - 1], t[|t| - 1];
      GuardFlagsMeaning(x, input, p);
      assert p + [e] == t;
      UntestedStep(input, p, e);
      LastTestStep(p, e);
      GuardFlagsStep(x, input, p, e);
    }
  }

  // ---------------------------------------------------------------- the laws together

  /** An execution is covered by its start and happens inside both budgets. */
  ghost predicate ExecutionLawful(x: Executor, input: LoopInput, t: Trace, i: nat) {
    i < |t| && t[i].Execute? ==>
      && ExecutionCovered(x, input, t[..i], t[i])
      && TokensOf(input, t[..i]) <= input.limits.maximumTokens
      && input.limits.maximumCost.denominator >= 1 && CostOf(input, t[..i]) <= CostLimit(input)
  }

  /** Between two starts the first is executed once and its result recorded; they differ in identity. */
  ghost predicate StartsLawful(t: Trace, i: nat, j: nat) {
    i < j < |t| && t[i].Start? && t[j].Start? ==>
      && t[i].rec.request.id != t[j].rec.request.id
      && exists e, r :: i < e < r < j && t[e].Execute? && t[r].Result?
           && t[e].request == t[i].rec.request && t[r].resultRequestID == t[i].rec.request.id
  }

  /** Turns are complete before the next, starts are attributed and refusals justified. */
  ghost predicate CallsLawful(input: LoopInput, t: Trace, i: nat) {
    i < |t| ==>
      && (t[i].Start? ==> StartAttributed(input, t[..i], t[i].rec))
      && (t[i].Turn? ==> TurnComplete(input, t[..i]) && t[i].turnRound == Turns(t[..i]) + 1)
      && (t[i].Note? && t[i].note.CallRefused? ==> RefusalJustified(input, t[..i], t[i].note.refused))
  }

  /** Checkpoints, transitions and results name the step and request of the call in progress. */
  ghost predicate RecordLawful(t: Trace, i: nat) {
    i < |t| && (t[i].Checkpoint? || t[i].Result? || t[i].Transition?) ==>
      && Last(t[..i], StartEvent) >= 0
      && var rec := t[Last(t[..i], StartEvent)].rec;
         match t[i]
         case Checkpoint(_, _, step, id, _, round, _, _) => step == rec.step && id == rec.request.id && round == rec.round
         case Transition(_, step, _, _, id, _) => step == rec.step && id == rec.request.id
         case Result(_, step, round, id, _) => step == rec.step && id == rec.request.id && round == rec.round
         case _ => true
  }

  ghost predicate Lawful(x: Executor, input: LoopInput, t: Trace) {
    && (forall i: nat :: ExecutionLawful(x, input, t, i))
    && (forall i: nat, j: nat :: StartsLawful(t, i, j))
    && (forall i: nat :: CallsLawful(input, t, i))
    && (forall i: nat :: RecordLawful(t, i))
    && (forall i: nat :: ResultLawful(input, t, i))
    && (forall i: nat, j: nat :: EndLawful(x, input, t, i, j))
    && (forall f :: FailuresWith(x, t, f) <= input.limits.maximumIdenticalFailures)
  }

  lemma RecordsAreLawful(x: Executor, input: LoopInput, t: Trace, i: nat)
    requires Accepts(x, input, t)
    ensures RecordLawful(t, i)
  {
    if i < |t| {
      if t[i].Checkpoint? || t[i].Result? {
        RecordsNameOneStep(x, input, t, i);
      } else if t[i].Transition? {
        TransitionsAreLegal(x, input, t, i);
      }
    }
  }

  lemma ExecutionsAreLawful(x: Executor, input: LoopInput, t: Trace, i: nat)
    requires Accepts(x, input, t)
    ensures ExecutionLawful(x, input, t, i)
  {
    if i < |t| && t[i].Execute? { ExecutionsAreCovered(x, input, t, i); }
  }

  lemma StartsAreLawful(x: Executor, input: LoopInput, t: Trace, i: nat, j: nat)
    requires Accepts(x, input, t)
    ensures StartsLawful(t, i, j)
  {
    if i < j < |t| && t[i].Start? && t[j].Start? {
      StartsAreDistinct(x, input, t, i, j);
      var e, r := EarlierStartsAreSettled(x, input, t, i, j);
    }
  }

  lemma CallsAreLawful(x: Executor, input: LoopInput, t: Trace, i: nat)
    requires Accepts(x, input, t)
    ensures CallsLawful(input, t, i)
  {
    if i < |t| {
      if t[i].Start? {
        StartsAreAttributed(x, input, t, i);
      } else if t[i].Turn? {
        TurnsAreComplete(x, input, t, i);
      } else if t[i].Note? && t[i].note.CallRefused? {
        RefusalsAreJustified(x, input, t, i);
      }
    }
  }

  /** Every accepted trace obeys every law. */
  lemma AcceptedIsLawful(x: Executor, input: LoopInput, t: Trace)
    requires Accepts(x, input, t)
    ensures Lawful(x, input, t)
  {
    forall i: nat ensures ExecutionLawful(x, input, t, i) { ExecutionsAreLawful(x, input, t, i); }
    forall i: nat, j: nat ensures StartsLawful(t, i, j) { StartsAreLawful(x, input, t, i, j); }
    forall i: nat ensures CallsLawful(input, t, i) { CallsAreLawful(x, input, t, i); }
    forall i: nat ensures RecordLawful(t, i) { RecordsAreLawful(x, input, t, i); }
    forall i: nat ensures ResultLawful(input, t, i) { ResultsAreRendered(x, input, t, i); }
    forall i: nat, j: nat ensures EndLawful(x, input, t, i, j) { EndsAreFinal(x, input, t, i, j); }
    forall f ensures FailuresWith(x, t, f) <= input.limits.maximumIdenticalFailures { FailuresAreBounded(x, input, t, f); }
  }

  // ---------------------------------------------------------------- where a run stands

  /** What a history says about the point it has reached. */
  datatype Facts = Facts(
    control: Option<ControlState>, note: Option<Observation>, request: Option<ToolRequest>, result: Option<ToolResult>,
    turn: Option<ModelTurn>, call: Option<ProposedCall>, complete: bool, plan: Plan, started: set<string>,
    earlier: set<string>, round: nat, tokens: nat, cost: real)

  ghost function FactsOf(input: LoopInput, t: Trace): Facts {
    Facts(Latest(ControlOf, t), Latest(NoteOf, t), RecordedRequest(t), Latest(ResultOf, t),
          Latest(TurnOf, t), NextCall(Latest(TurnOf, t), HandledSince(t)), TurnComplete(input, t),
          FoldTransitions(input.plan, t), StartedIDs(t), EarlierTurnIDs(t), Turns(t), TokensOf(input, t), CostOf(input, t))
  }

  ghost function FactsIn(input: LoopInput, t: Trace, m: Monitor): Facts {
    Facts(Latest(ControlOf, t), Latest(NoteOf, t), RecordedRequest(t), Latest(ResultOf, t), m.turn, NextCall(m.turn, m.handled),
          AllHandled(input, m), m.plan, m.started, EarlierTurnIDs(t), m.round, m.tokens, m.cost)
  }

  /** The monitor knows what the history says. */
  lemma FactsAreRead(x: Executor, input: LoopInput, t: Trace)
    requires Accepts(x, input, t)
    ensures FactsIn(input, t, Replay(x, input, t).value) == FactsOf(input, t)
  {
    CountersMeaning(x, input, t);
    TurnStateMeaning(x, input, t);
    GuardFlagsMeaning(x, input, t);
  }
}
