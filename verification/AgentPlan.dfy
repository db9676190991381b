/**
 The approved plan a run executes: step kinds and their contracts, the step state machine,
 and the rules that decide which step a tool call belongs to.
 */
module AgentPlan {
  import opened Common
  import opened Ordering
  import opened Text

  type ToolName = string

  const TOOL_TEST: ToolName := "test"

  datatype StepState = Pending | InProgress | Implemented | Validated | Failed | Skipped

  datatype StepKind =
    | Edit | Patch | ReadFile | ListDirectory | SearchText | SearchSymbol
    | InspectDiff | GitStatus | GitHistory | Test | Build | StaticAnalysis

  datatype PlanStep = PlanStep(
    id: string, kind: StepKind, state: StepState, materialEdit: bool,
    validationRequired: bool, expectedFiles: seq<string>, completionTools: seq<ToolName>)

  datatype Plan = Plan(revision: nat, steps: seq<PlanStep>)

  datatype Argument = Argument(name: string, value: string)

  datatype ToolRequest = ToolRequest(id: string, name: ToolName, arguments: seq<Argument>)

  /** A tool granted to the run. */
  datatype ApprovedTool = ApprovedTool(name: ToolName, materialEdit: bool, createsCheckpoint: bool)

  // ---------------------------------------------------------------- step contracts

  datatype StepContract = StepContract(
    completionTool: ToolName, alsoCompletedBy: ToolName, materialEdit: bool, validationRequired: bool)
  {
    /** The primary tool comes first; at most the one alternate may follow it. */
    predicate Permits(declared: seq<ToolName>) {
      && |declared| >= 1 && declared[0] == completionTool
      && (|declared| == 1 || (|declared| == 2 && alsoCompletedBy != "" && declared[1] == alsoCompletedBy))
    }
  }

  function PlanStepContract(kind: StepKind): StepContract {
    match kind
    case Edit => StepContract("apply-edit", "apply-patch", true, true)
    case Patch => StepContract("apply-patch", "", true, true)
    case ReadFile => StepContract("read-file", "", false, false)
    case ListDirectory => StepContract("list-directory", "", false, false)
    case SearchText => StepContract("search-text", "", false, false)
    case SearchSymbol => StepContract("search-symbol", "", false, false)
    case InspectDiff => StepContract("inspect-diff", "", false, false)
    case GitStatus => StepContract("git-status", "", false, false)
    case GitHistory => StepContract("git-history", "", false, false)
    case Test => StepContract(TOOL_TEST, "", false, true)
    case Build => StepContract("build", "", false, true)
    case StaticAnalysis => StepContract("static-analysis", "", false, true)
  }

  predicate RequiresExpectedFiles(kind: StepKind) {
    kind in {Edit, Patch, ReadFile, ListDirectory, SearchText, SearchSymbol}
  }

  predicate PathChar(c: char) {
    c != '\\' && c != ':' && c as int >= 0x20 && c as int != 0x7F
  }

  /** A repository-relative path already in canonical form. */
  predicate Canonical(path: string) {
    && path != "" && Trimmed(path) && ByteLength(path) <= 4096
    && (forall i :: 0 <= i < |path| ==> PathChar(path[i]))
    && CleanSegments(path)
  }

  predicate ValidExpectedFiles(paths: seq<string>) {
    && |paths| <= 512
    && (forall i :: 0 <= i < |paths| ==> Canonical(paths[i]))
    && (forall i :: 0 < i < |paths| ==> Before(paths[i - 1], paths[i]))
  }

  predicate ValidStep(step: PlanStep) {
    var contract := PlanStepContract(step.kind);
    && Trimmed(step.id) && step.id != "" && ByteLength(step.id) <= 255
    && contract.Permits(step.completionTools)
    && step.materialEdit == contract.materialEdit
    && step.validationRequired == contract.validationRequired
    && ValidExpectedFiles(step.expectedFiles)
    && (RequiresExpectedFiles(step.kind) ==> step.expectedFiles != [])
  }

  predicate ValidPlan(plan: Plan) {
    && plan.revision != 0 && 0 < |plan.steps| <= 256
    && (forall i :: 0 <= i < |plan.steps| ==> ValidStep(plan.steps[i]))
    && (forall i, j :: 0 <= i < j < |plan.steps| ==> plan.steps[i].id != plan.steps[j].id)
  }

  // ---------------------------------------------------------------- step states

  predicate StepTransitionAllowed(from: StepState, to: StepState) {
    match from
    case Pending => to in {InProgress, Failed, Skipped}
    case InProgress => to in {Implemented, Validated, Failed, Skipped}
    case Implemented => to in {Validated, Failed}
    case _ => false
  }

  /** How far along a state is; every allowed transition raises it. */
  function Progress(state: StepState): nat {
    match state
    case Pending => 0
    case InProgress => 1
    case Implemented => 2
    case _ => 3
  }

  predicate StepMayAcceptAnotherCall(state: StepState) {
    state != Failed && state != Skipped
  }

  predicate Closed(state: StepState) {
    state in {Implemented, Validated, Failed, Skipped}
  }

  predicate ImplementationDone(state: StepState) {
    state in {Implemented, Validated, Skipped}
  }

  predicate ImplementationStepsComplete(plan: Plan) {
    forall i :: 0 <= i < |plan.steps| ==> ImplementationDone(plan.steps[i].state)
  }

  predicate ValidationStepsComplete(plan: Plan) {
    forall i :: 0 <= i < |plan.steps| ==>
      if plan.steps[i].validationRequired then plan.steps[i].state == Validated
      else ImplementationDone(plan.steps[i].state)
  }

  /** Some step that is still open names the tool. */
  predicate ToolCanStillBeCalled(plan: Plan, name: ToolName) {
    exists i :: 0 <= i < |plan.steps| && !ImplementationDone(plan.steps[i].state)
                && name in plan.steps[i].completionTools
  }

  /** Only the states a run itself moves between. */
  predicate OnlyRunStates(plan: Plan) {
    forall i :: 0 <= i < |plan.steps| ==> plan.steps[i].state in {Pending, InProgress, Implemented}
  }

  lemma TransitionsMoveForward(from: StepState, to: StepState)
    requires StepTransitionAllowed(from, to)
    ensures Progress(from) < Progress(to)
  {}

  function StepIndex(plan: Plan, id: string): (i: nat)
    ensures i <= |plan.steps|
    ensures i < |plan.steps| ==> plan.steps[i].id == id
    ensures forall j :: 0 <= j < i ==> plan.steps[j].id != id
  {
    StepIndexFrom(plan.steps, id)
  }

  function StepIndexFrom(steps: seq<PlanStep>, id: string): (i: nat)
    ensures i <= |steps|
    ensures i < |steps| ==> steps[i].id == id
    ensures forall j :: 0 <= j < i ==> steps[j].id != id
  {
    if steps == [] || steps[0].id == id then 0
    else
      var rest := StepIndexFrom(steps[1..], id);
      assert forall j :: 0 < j < rest + 1 ==> steps[j] == steps[1..][j - 1];
      rest + 1
  }

  /** The plan with one step moved to another state. */
  function Moved(plan: Plan, index: nat, to: StepState): Plan
    requires index < |plan.steps|
  {
    plan.(steps := plan.steps[index := plan.steps[index].(state := to)])
  }

  // ---------------------------------------------------------------- call arguments

  /** The value of the one argument with this name; absent or repeated gives nothing. */
  ghost predicate SoleArgument(arguments: seq<Argument>, name: string, value: string) {
    exists i :: 0 <= i < |arguments| && arguments[i] == Argument(name, value)
                && forall j :: 0 <= j < |arguments| && arguments[j].name == name ==> j == i
  }

  method RequestArgument(request: ToolRequest, name: string) returns (r: Option<string>)
    ensures r.Some? ==> SoleArgument(request.arguments, name, r.value)
    ensures r.None? ==> forall v :: !SoleArgument(request.arguments, name, v)
  {
    var found: Option<string> := None;
    ghost var at := 0;
    for i := 0 to |request.arguments|
      invariant found.None? ==> forall j :: 0 <= j < i ==> request.arguments[j].name != name
      invariant found.Some? ==> 0 <= at < i && request.arguments[at] == Argument(name, found.value)
      invariant found.Some? ==> forall j :: 0 <= j < i && request.arguments[j].name == name ==> j == at
    {
      if request.arguments[i].name == name {
        if found.Some? {
          return None;
        }
        found := Some(request.arguments[i].value);
        at := i;
      }
    }
    return found;
  }

  /** The target the first marker line of a patch names, or "". */
  function DeclaredTarget(lines: seq<string>): string {
    if lines == [] then ""
    else
      var line := Trim(lines[0]);
      if HasPrefix(line, "*** Update File:") then Trim(line[|"*** Update File:"|..])
      else if HasPrefix(line, "*** Add File:") then Trim(line[|"*** Add File:"|..])
      else DeclaredTarget(lines[1..])
  }

  const PATCH_MARKERS: seq<string> := ["*** Update File:", "*** Add File:"]

  /** The line is this marker followed by the target. */
  predicate MarksWith(line: string, marker: string, target: string) {
    HasPrefix(Trim(line), marker) && target == Trim(Trim(line)[|marker|..])
  }

  predicate Marked(line: string) {
    exists i :: 0 <= i < |PATCH_MARKERS| && HasPrefix(Trim(line), PATCH_MARKERS[i])
  }

  lemma MarkedLine(line: string, rest: seq<string>)
    ensures if Marked(line)
            then exists i :: 0 <= i < |PATCH_MARKERS| && MarksWith(line, PATCH_MARKERS[i], DeclaredTarget([line] + rest))
            else DeclaredTarget([line] + rest) == DeclaredTarget(rest)
  {
    var first, second := PATCH_MARKERS[0], PATCH_MARKERS[1];
    assert ([line] + rest)[1..] == rest;
    if HasPrefix(Trim(line), first) {
      assert MarksWith(line, first, DeclaredTarget([line] + rest));
    } else if HasPrefix(Trim(line), second) {
      assert MarksWith(line, second, DeclaredTarget([line] + rest));
    }
  }

  /** The target is the one the first marker line names; without such a line there is none. */
  lemma {:induction false} TargetIsFirstMarked(before: seq<string>, rest: seq<string>)
    requires (forall i :: 0 <= i < |before| ==> !Marked(before[i])) && (rest == [] || Marked(rest[0]))
    ensures if rest == [] then DeclaredTarget(before + rest) == ""
            else exists i :: 0 <= i < |PATCH_MARKERS| && MarksWith(rest[0], PATCH_MARKERS[i], DeclaredTarget(before + rest))
  {
    if before == [] {
      assert before + rest == rest;
      if rest != [] {
        MarkedLine(rest[0], rest[1..]);
        assert rest == [rest[0]] + rest[1..];
      }
    } else {
      TargetIsFirstMarked(before[1..], rest);
      MarkedLine(before[0], before[1..] + rest);
      assert before + rest == [before[0]] + (before[1..] + rest);
    }
  }

  method PatchDeclaredTarget(request: ToolRequest) returns (r: string)
    ensures r != "" ==> exists payload ::
              SoleArgument(request.arguments, "patch", payload) && r == DeclaredTarget(Lines(payload))
    ensures forall payload :: SoleArgument(request.arguments, "patch", payload)
              ==> r == DeclaredTarget(Lines(payload))
  {
    var payload := RequestArgument(request, "patch");
    return if payload.None? then "" else DeclaredTarget(Lines(payload.value));
  }

  // ---------------------------------------------------------------- ownership

  /** `expected` is the path itself or a directory the path lies under. */
  predicate Covers(expected: string, path: string) {
    path == expected || HasPrefix(path, expected + "/")
  }

  predicate InScope(step: PlanStep, path: string) {
    exists i :: 0 <= i < |step.expectedFiles| && Covers(step.expectedFiles[i], path)
  }

  /** A path-scoped step in the open or the closed class that names the path. */
  predicate Owns(plan: Plan, index: nat, path: string, closed: bool) {
    && index < |plan.steps|
    && RequiresExpectedFiles(plan.steps[index].kind)
    && Closed(plan.steps[index].state) == closed
    && InScope(plan.steps[index], path)
  }

  ghost predicate SoleOwner(plan: Plan, index: nat, path: string, closed: bool) {
    && Owns(plan, index, path, closed)
    && forall j: nat :: Owns(plan, j, path, closed) ==> j == index
  }

  /** Counts the owners in one class and accepts exactly one. */
  method StepOwningPathInState(plan: Plan, path: string, closed: bool) returns (r: Option<nat>)
    ensures r.Some? ==> SoleOwner(plan, r.value, path, closed)
    ensures r.None? ==> forall i: nat :: !SoleOwner(plan, i, path, closed)
  {
    var matched, count := 0, 0;
    ghost var other := 0;
    for i := 0 to |plan.steps|
      invariant 0 <= count
      invariant count == 0 ==> forall j: nat :: j < i ==> !Owns(plan, j, path, closed)
      invariant count >= 1 ==> 0 <= matched < i && Owns(plan, matched, path, closed)
      invariant count == 1 ==> forall j: nat :: j < i && Owns(plan, j, path, closed) ==> j == matched
      invariant count >= 2 ==> 0 <= other < matched && Owns(plan, other, path, closed)
    {
      if Owns(plan, i, path, closed) {
        other := matched;
        matched, count := i, count + 1;
      }
    }
    return if count == 1 then Some(matched) else None;
  }

  /**
   An open owner of the path argument is preferred, then a closed one; the target a patch
   declares is consulted only when the argument has no sole owner in either class.
   */
  ghost predicate OwnedThrough(plan: Plan, request: ToolRequest, index: nat) {
    exists path, candidate, closed ::
      && SoleArgument(request.arguments, "path", path)
      && candidate != ""
      && SoleOwner(plan, index, candidate, closed)
      && (candidate == path || DeclaredBy(request, candidate))
      && (closed ==> forall j: nat :: !SoleOwner(plan, j, candidate, false))
      && (candidate != path && path != "" ==>
            forall j: nat, c: bool :: !SoleOwner(plan, j, path, c))
  }

  ghost predicate DeclaredBy(request: ToolRequest, candidate: string) {
    exists payload :: SoleArgument(request.arguments, "patch", payload)
                      && candidate == DeclaredTarget(Lines(payload))
  }

  method StepOwningCandidate(plan: Plan, candidate: string) returns (r: Option<nat>, closed: bool)
    ensures r.Some? ==> SoleOwner(plan, r.value, candidate, closed)
    ensures r.Some? && closed ==> forall j: nat :: !SoleOwner(plan, j, candidate, false)
    ensures r.None? ==> forall j: nat, c: bool :: !SoleOwner(plan, j, candidate, c)
  {
    r := StepOwningPathInState(plan, candidate, false);
    closed := false;
    if r.None? {
      closed := true;
      r := StepOwningPathInState(plan, candidate, true);
      if r.None? {
        forall j: nat, c: bool ensures !SoleOwner(plan, j, candidate, c) {
          assert c == false || c == true;
        }
      }
    }
  }

  /** The corrected step is determined by the plan and the request. */
  lemma OwnedThroughUnique(plan: Plan, request: ToolRequest, i: nat, j: nat)
    requires OwnedThrough(plan, request, i) && OwnedThrough(plan, request, j)
    ensures i == j
  {}

  /** Finds the corrected step exactly when there is one. */
  method StepOwningPath(plan: Plan, request: ToolRequest) returns (r: Option<nat>)
    ensures r.Some? ==> OwnedThrough(plan, request, r.value)
    ensures r.None? ==> forall i: nat :: !OwnedThrough(plan, request, i)
  {
    var path := RequestArgument(request, "path");
    if path.None? {
      return None;
    }
    SoleArgumentUnique(request.arguments, "path", path.value);
    var declared := PatchDeclaredTarget(request);
    if path.value != "" {
      var owner, closed := StepOwningCandidate(plan, path.value);
      if owner.Some? {
        return owner;
      }
    }
    if declared != "" {
      var owner, closed := StepOwningCandidate(plan, declared);
      if owner.Some? {
        assert DeclaredBy(request, declared);
        return owner;
      }
    }
    return None;
  }

  // ---------------------------------------------------------------- binding a call to a step

  /** The step permits this tool and agrees with it about material edits. */
  predicate Compatible(step: PlanStep, tool: ApprovedTool) {
    && tool.name in step.completionTools
    && step.materialEdit == tool.materialEdit
    && (step.materialEdit ==> tool.createsCheckpoint)
  }

  /** A path-scoped step admits only a canonical path it names. */
  ghost predicate PathAdmitted(step: PlanStep, request: ToolRequest) {
    RequiresExpectedFiles(step.kind) ==>
      exists path :: SoleArgument(request.arguments, "path", path) && Canonical(path) && InScope(step, path)
  }

  method ValidateToolStepPathScope(step: PlanStep, request: ToolRequest) returns (ok: bool)
    ensures ok <==> PathAdmitted(step, request)
  {
    if !RequiresExpectedFiles(step.kind) {
      return true;
    }
    var path := RequestArgument(request, "path");
    if path.None? {
      return false;
    }
    SoleArgumentUnique(request.arguments, "path", path.value);
    if !Canonical(path.value) {
      return false;
    }
    return InScope(step, path.value);
  }

  lemma SoleArgumentUnique(arguments: seq<Argument>, name: string, value: string)
    requires SoleArgument(arguments, name, value)
    ensures forall v :: SoleArgument(arguments, name, v) ==> v == value
  {}

  method ExecutableStepIndex(plan: Plan, stepID: string) returns (r: Option<nat>)
    ensures r.Some? ==> r.value == StepIndex(plan, stepID) && r.value < |plan.steps|
                        && StepMayAcceptAnotherCall(plan.steps[r.value].state)
                        && stepID != "" && Trimmed(stepID)
    ensures r.None? ==> stepID == "" || !Trimmed(stepID) || StepIndex(plan, stepID) == |plan.steps|
                        || !StepMayAcceptAnotherCall(plan.steps[StepIndex(plan, stepID)].state)
  {
    if !Trimmed(stepID) || stepID == "" {
      return None;
    }
    for i := 0 to |plan.steps|
      invariant forall j :: 0 <= j < i ==> plan.steps[j].id != stepID
    {
      if plan.steps[i].id == stepID {
        return if StepMayAcceptAnotherCall(plan.steps[i].state) then Some(i) else None;
      }
    }
    return None;
  }

  /** The step the model named can take a call of this tool. */
  predicate Usable(plan: Plan, named: string, tool: ApprovedTool) {
    && named != "" && Trimmed(named) && StepIndex(plan, named) < |plan.steps|
    && StepMayAcceptAnotherCall(plan.steps[StepIndex(plan, named)].state)
    && Compatible(plan.steps[StepIndex(plan, named)], tool)
  }

  /**
   The step a call is attributed to: the one the model named when its scope admits the call,
   and only otherwise the sole owner of the path or of the patch's declared target.
   */
  ghost predicate Attributed(plan: Plan, named: string, tool: ApprovedTool, request: ToolRequest, index: nat) {
    && Usable(plan, named, tool) && index < |plan.steps| && Compatible(plan.steps[index], tool)
    && (if PathAdmitted(plan.steps[StepIndex(plan, named)], request) then index == StepIndex(plan, named)
        else OwnedThrough(plan, request, index))
  }

  /** No step may carry the call: the named one does not admit it and none owns what it touches. */
  ghost predicate Unowned(plan: Plan, named: string, request: ToolRequest) {
    && StepIndex(plan, named) < |plan.steps| && !PathAdmitted(plan.steps[StepIndex(plan, named)], request)
    && forall i: nat :: !OwnedThrough(plan, request, i)
  }

  /** A call is attributed to one step, and to none exactly when it is unowned or the tool does not fit. */
  lemma AttributionIsUnique(plan: Plan, named: string, tool: ApprovedTool, request: ToolRequest, i: nat, j: nat)
    requires Attributed(plan, named, tool, request, i)
    ensures Attributed(plan, named, tool, request, j) <==> i == j
    ensures !Unowned(plan, named, request)
  {
    if Attributed(plan, named, tool, request, j) && !PathAdmitted(plan.steps[StepIndex(plan, named)], request) {
      OwnedThroughUnique(plan, request, i, j);
    }
  }

  /** Whatever branch bound the call, a path-scoped step covers the argument or the declared target. */
  lemma AttributedPathIsCovered(plan: Plan, named: string, tool: ApprovedTool, request: ToolRequest, index: nat)
    requires Attributed(plan, named, tool, request, index)
    requires RequiresExpectedFiles(plan.steps[index].kind)
    ensures exists path :: InScope(plan.steps[index], path)
              && (SoleArgument(request.arguments, "path", path) || DeclaredBy(request, path))
  {
    if OwnedThrough(plan, request, index) {
      var path, candidate, closed :|
        && SoleArgument(request.arguments, "path", path)
        && candidate != ""
        && SoleOwner(plan, index, candidate, closed)
        && (candidate == path || DeclaredBy(request, candidate));
      assert InScope(plan.steps[index], candidate);
    }
  }

  /** A call bound to a step other than the one named went to the only owner in its class. */
  lemma CorrectedStepIsSoleOwner(plan: Plan, named: string, tool: ApprovedTool, request: ToolRequest, index: nat)
    requires Attributed(plan, named, tool, request, index) && index != StepIndex(plan, named)
    ensures !PathAdmitted(plan.steps[StepIndex(plan, named)], request)
    ensures exists path :: SoleOwner(plan, index, path, Closed(plan.steps[index].state))
              && (SoleArgument(request.arguments, "path", path) || DeclaredBy(request, path))
  {
    var path, candidate, closed :|
      && SoleArgument(request.arguments, "path", path)
      && candidate != ""
      && SoleOwner(plan, index, candidate, closed)
      && (candidate == path || DeclaredBy(request, candidate));
    assert SoleOwner(plan, index, candidate, Closed(plan.steps[index].state));
  }

  /** A finished plan leaves no step open, so nothing may still be called for it. */
  lemma CompletePlanOffersNoTool(plan: Plan, name: ToolName)
    requires ImplementationStepsComplete(plan)
    ensures !ToolCanStillBeCalled(plan, name)
  {}
}
