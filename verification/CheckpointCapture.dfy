/**
 Capturing a checkpoint: a private Git ref that preserves the worktree, a store that commits
 the checkpoint row with its event, and the cleanup that must never separate the two. Ports
 fail at any point, also after they have taken effect, and other captures run in between.
 */
module CheckpointCapture {
  import opened Common
  import opened CheckpointState

  // ---------------------------------------------------------------- commands

  datatype Trigger = PlanApproved | MaterialEditApplied | BeforeRiskyAction | ValidationSucceeded | UserPaused
                   | GracefulShutdown | UnknownTrigger

  /** Absent identities are empty. */
  datatype Attribution = Attribution(
    approvalID: string, toolRequestID: string, permissionID: string, actionSHA256: string, validationID: string)

  datatype Command = Command(
    id: string, task: string, run: string, planRevision: nat, trigger: Trigger, attribution: Attribution, key: string)

  predicate ValidTrigger(trigger: Trigger, a: Attribution) {
    var approval, tool, permission := a.approvalID != "", a.toolRequestID != "", a.permissionID != "";
    var action, validation := a.actionSHA256 != "", a.validationID != "";
    match trigger
    case PlanApproved => approval && !tool && !permission && !action && !validation
    case MaterialEditApplied =>
      !approval && !permission && !action && !validation && BoundedIdentifier(a.toolRequestID, 255)
    case BeforeRiskyAction =>
      !approval && !tool && !validation && BoundedIdentifier(a.permissionID, 255) && ValidSHA256(a.actionSHA256)
    case ValidationSucceeded => !approval && !tool && !permission && !action && validation
    case UserPaused => !approval && !tool && !permission && !action && !validation
    case GracefulShutdown => !approval && !tool && !permission && !action && !validation
    case UnknownTrigger => false
  }

  predicate ValidCommand(c: Command) {
    && c.id != "" && c.task != "" && c.run != "" && c.planRevision != 0 && BoundedIdentifier(c.key, 255)
    && ValidTrigger(c.trigger, c.attribution)
  }

  /**
   A command is attributed to the one durable cause its trigger names, and what it is attributed to
   tells the trigger, up to the two that have no durable cause.
   */
  lemma AttributionTellsTheTrigger(c: Command, d: Command)
    requires ValidCommand(c) && ValidCommand(d) && c.attribution == d.attribution
    ensures c.trigger == d.trigger || {c.trigger, d.trigger} == {UserPaused, GracefulShutdown}
    ensures var a := c.attribution;
            match c.trigger
            case PlanApproved => a == Attribution(a.approvalID, "", "", "", "") && a.approvalID != ""
            case MaterialEditApplied => a == Attribution("", a.toolRequestID, "", "", "") && a.toolRequestID != ""
            case BeforeRiskyAction => a == Attribution("", "", a.permissionID, a.actionSHA256, "") && a.permissionID != ""
            case ValidationSucceeded => a == Attribution("", "", "", "", a.validationID) && a.validationID != ""
            case UserPaused => a == Attribution("", "", "", "", "")
            case GracefulShutdown => a == Attribution("", "", "", "", "")
            case UnknownTrigger => false
  {
    if c.trigger != d.trigger {
      assert c.trigger == UserPaused || c.trigger == GracefulShutdown;
      assert d.trigger == UserPaused || d.trigger == GracefulShutdown;
    }
  }

  // ---------------------------------------------------------------- plan steps

  function IfCompleted(s: PlanStep): seq<PlanStep> {
    if CompletedState(s.state) then [s] else []
  }

  function IfPending(s: PlanStep): seq<PlanStep> {
    if PendingState(s.state) then [s] else []
  }

  /** Two filters that between them keep every element once split a list without loss. */
  lemma {:induction false} Partition<T>(f: T -> seq<T>, g: T -> seq<T>, xs: seq<T>)
    requires forall i :: 0 <= i < |xs| ==> f(xs[i]) + g(xs[i]) == [xs[i]]
    ensures multiset(FlatMap(f, xs)) + multiset(FlatMap(g, xs)) == multiset(xs)
  {
    if xs != [] {
      Partition(f, g, xs[1..]);
      assert xs == [xs[0]] + xs[1..];
      assert multiset(f(xs[0])) + multiset(g(xs[0])) == multiset(f(xs[0]) + g(xs[0]));
    }
  }

  /** Sorts the steps into completed and pending ones, keeping their order. */
  method SplitPlanSteps(steps: seq<PlanStep>) returns (r: Option<(seq<PlanStep>, seq<PlanStep>)>)
    ensures r.Some? <==> forall i :: 0 <= i < |steps| ==> CompletedState(steps[i].state) || PendingState(steps[i].state)
    ensures r.Some? ==> r.value == (FlatMap(IfCompleted, steps), FlatMap(IfPending, steps))
  {
    var completed: seq<PlanStep>, pending: seq<PlanStep> := [], [];
    for i := 0 to |steps|
      invariant forall k :: 0 <= k < i ==> CompletedState(steps[k].state) || PendingState(steps[k].state)
      invariant completed == FlatMap(IfCompleted, steps[..i]) && pending == FlatMap(IfPending, steps[..i])
    {
      FlatMapNext(IfCompleted, steps, i);
      FlatMapNext(IfPending, steps, i);
      if CompletedState(steps[i].state) {
        completed := completed + [steps[i]];
      } else if PendingState(steps[i].state) {
        pending := pending + [steps[i]];
      } else {
        return None;
      }
    }
    assert steps[..|steps|] == steps;
    return Some((completed, pending));
  }

  /** The split neither drops nor repeats a step. */
  lemma SplitLosesNothing(steps: seq<PlanStep>)
    requires forall i :: 0 <= i < |steps| ==> CompletedState(steps[i].state) || PendingState(steps[i].state)
    ensures multiset(FlatMap(IfCompleted, steps)) + multiset(FlatMap(IfPending, steps)) == multiset(steps)
  {
    Partition(IfCompleted, IfPending, steps);
  }

  // ---------------------------------------------------------------- the world

  const REF_PREFIX := "refs/codeflux/checkpoints/"

  function RefOf(id: string): string {
    REF_PREFIX + id
  }

  lemma RefsDiffer(a: string, b: string)
    ensures RefOf(a) == RefOf(b) <==> a == b
  {
    assert RefOf(a)[|REF_PREFIX|..] == a && RefOf(b)[|REF_PREFIX|..] == b;
  }

  /** A committed checkpoint. */
  datatype Row = Row(
    task: string, run: string, schemaVersion: nat, json: string, sha256: string, sequence: nat,
    revision: string, ref: string)

  /** The request a checkpoint answers: its own or one whose state it already held. */
  datatype Request = Request(id: string, requestSHA: string)

  datatype World = World(refs: map<string, string>, rows: map<string, Row>, requests: map<(string, string), Request>)

  datatype Persisted = Persisted(id: string, row: Row, requestSHA: string, key: string)

  /** The ref that preserves a committed checkpoint is there, at the committed revision. */
  predicate Preserved(w: World, id: string)
    requires id in w.rows
  {
    RefOf(id) in w.refs && w.refs[RefOf(id)] == w.rows[id].revision
  }

  /** What the store checks of a row and its identity before it inserts it. */
  type RowCheck = (string, Row) -> bool

  /** Both rows hold one state of one run. */
  predicate SameCheckpoint(a: Row, b: Row) {
    a.task == b.task && a.run == b.run && a.sha256 == b.sha256
  }

  /** Every row is sound and has its ref, no state of a run is stored twice, and requests name rows of their task. */
  predicate WorldOk(ok: RowCheck, w: World) {
    && (forall a, b :: a in w.rows && b in w.rows && SameCheckpoint(w.rows[a], w.rows[b]) ==> a == b)
    && (forall id :: id in w.rows ==> ok(id, w.rows[id]) && Preserved(w, id))
    && (forall k :: k in w.requests ==> w.requests[k].id in w.rows && w.rows[w.requests[k].id].task == k.0)
  }

  /** No other command uses this checkpoint identity. */
  predicate Fresh(w: World, cmd: Command) {
    cmd.id in w.rows ==> (cmd.task, cmd.key) in w.requests && w.requests[(cmd.task, cmd.key)].id == cmd.id
  }

  /** Rows and requests are never changed or removed. */
  predicate Grows(w: World, v: World) {
    && (forall id :: id in w.rows ==> id in v.rows && v.rows[id] == w.rows[id])
    && (forall k :: k in w.requests ==> k in v.requests && v.requests[k] == w.requests[k])
  }

  /** The ref, the row and the request a command owns are as they were. */
  predicate Untouched(w: World, v: World, cmd: Command) {
    && (cmd.id in v.rows ==> cmd.id in w.rows)
    && ((cmd.task, cmd.key) in v.requests ==> (cmd.task, cmd.key) in w.requests)
    && (RefOf(cmd.id) in w.refs <==> RefOf(cmd.id) in v.refs)
    && (RefOf(cmd.id) in w.refs ==> v.refs[RefOf(cmd.id)] == w.refs[RefOf(cmd.id)])
  }

  /** What other captures may do to the world while `cmd` is being captured. */
  predicate Permitted(ok: RowCheck, w: World, v: World, cmd: Command) {
    WorldOk(ok, v) && Grows(w, v) && Untouched(w, v, cmd)
  }

  /** The record of the checkpoint that answers a command's request. */
  function Answer(w: World, cmd: Command): Persisted
    requires (cmd.task, cmd.key) in w.requests && w.requests[(cmd.task, cmd.key)].id in w.rows
  {
    var q := w.requests[(cmd.task, cmd.key)];
    Persisted(q.id, w.rows[q.id], q.requestSHA, cmd.key)
  }

  // ---------------------------------------------------------------- single steps

  function Hold(w: World, cmd: Command, revision: string): World {
    w.(refs := w.refs[RefOf(cmd.id) := revision])
  }

  function Release(w: World, cmd: Command): World {
    w.(refs := w.refs - {RefOf(cmd.id)})
  }

  function Answered(w: World, cmd: Command, id: string, sha: string): World {
    w.(requests := w.requests[(cmd.task, cmd.key) := Request(id, sha)])
  }

  /** The row can be inserted: it is new, sound, and its ref is held. */
  predicate Creatable(ok: RowCheck, w: World, cmd: Command, row: Row) {
    && cmd.id !in w.rows && (cmd.task, cmd.key) !in w.requests
    && ok(cmd.id, row) && row.task == cmd.task && (forall id :: id in w.rows ==> !SameCheckpoint(w.rows[id], row))
    && RefOf(cmd.id) in w.refs && w.refs[RefOf(cmd.id)] == row.revision
  }

  function Created(w: World, cmd: Command, row: Row, sha: string): World {
    Answered(w.(rows := w.rows[cmd.id := row]), cmd, cmd.id, sha)
  }

  /** Everything one capture does to the world, one port call at a time. */
  datatype Step = Idle | HoldRef(revision: string) | ReleaseRef | AnswerRequest(id: string, sha: string) | CreateRow(row: Row, sha: string)

  predicate Enabled(ok: RowCheck, w: World, cmd: Command, step: Step) {
    match step
    case Idle => true
    case HoldRef(_) => cmd.id !in w.rows
    case ReleaseRef => cmd.id !in w.rows
    case AnswerRequest(id, _) => (cmd.task, cmd.key) !in w.requests && id in w.rows && w.rows[id].task == cmd.task
    case CreateRow(row, _) => Creatable(ok, w, cmd, row)
  }

  function Apply(w: World, cmd: Command, step: Step): World {
    match step
    case Idle => w
    case HoldRef(revision) => Hold(w, cmd, revision)
    case ReleaseRef => Release(w, cmd)
    case AnswerRequest(id, sha) => Answered(w, cmd, id, sha)
    case CreateRow(row, sha) => Created(w, cmd, row, sha)
  }

  lemma RefStepKeeps(ok: RowCheck, w: World, v: World, cmd: Command)
    requires WorldOk(ok, w) && cmd.id !in w.rows && v == w.(refs := v.refs)
    requires forall r :: r != RefOf(cmd.id) ==> (r in v.refs <==> r in w.refs) && (r in w.refs ==> v.refs[r] == w.refs[r])
    ensures WorldOk(ok, v) && Grows(w, v)
  {
    forall id | id in v.rows ensures ok(id, v.rows[id]) && Preserved(v, id) {
      RefsDiffer(id, cmd.id);
      assert ok(id, w.rows[id]) && Preserved(w, id);
    }
  }

  /** No step of a capture separates a committed checkpoint from its ref. */
  lemma StepKeeps(ok: RowCheck, w: World, cmd: Command, step: Step)
    requires WorldOk(ok, w) && Enabled(ok, w, cmd, step)
    ensures WorldOk(ok, Apply(w, cmd, step)) && Grows(w, Apply(w, cmd, step))
  {
    match step
    case Idle =>
    case HoldRef(_) => RefStepKeeps(ok, w, Apply(w, cmd, step), cmd);
    case ReleaseRef => RefStepKeeps(ok, w, Apply(w, cmd, step), cmd);
    case AnswerRequest(_, _) =>
    case CreateRow(_, _) =>
  }

  /** The command has the identity and the request key to itself. */
  predicate Apart(cmd: Command, other: Command) {
    other.id != cmd.id && (other.task, other.key) != (cmd.task, cmd.key)
  }

  /** Steps of one capture are steps every capture with another identity and key can live with. */
  lemma StepIsPermitted(ok: RowCheck, w: World, cmd: Command, step: Step, other: Command)
    requires WorldOk(ok, w) && Enabled(ok, w, cmd, step)
    requires Apart(other, cmd)
    ensures Permitted(ok, w, Apply(w, cmd, step), other)
  {
    StepKeeps(ok, w, cmd, step);
    RefsDiffer(cmd.id, other.id);
  }

  lemma PermittedIsTransitive(ok: RowCheck, u: World, v: World, w: World, cmd: Command)
    requires Permitted(ok, u, v, cmd) && Permitted(ok, v, w, cmd)
    ensures Permitted(ok, u, w, cmd)
  {}

  // ---------------------------------------------------------------- interleavings

  /** Which command takes which step, in order. */
  type Schedule = seq<(Command, Step)>

  ghost predicate Runs(ok: RowCheck, w: World, schedule: Schedule)
    decreases |schedule|
  {
    schedule == [] ||
    (Enabled(ok, w, schedule[0].0, schedule[0].1) && Runs(ok, Apply(w, schedule[0].0, schedule[0].1), schedule[1..]))
  }

  function After(w: World, schedule: Schedule): World
    decreases |schedule|
  {
    if schedule == [] then w else After(Apply(w, schedule[0].0, schedule[0].1), schedule[1..])
  }

  /**
   Under every interleaving of any number of captures, every committed checkpoint keeps its ref
   at the committed revision, and no row or request is ever changed or lost.
   */
  lemma {:induction false} EveryInterleavingIsSafe(ok: RowCheck, w: World, schedule: Schedule)
    requires WorldOk(ok, w) && Runs(ok, w, schedule)
    ensures WorldOk(ok, After(w, schedule)) && Grows(w, After(w, schedule))
    decreases |schedule|
  {
    if schedule != [] {
      var v := Apply(w, schedule[0].0, schedule[0].1);
      StepKeeps(ok, w, schedule[0].0, schedule[0].1);
      EveryInterleavingIsSafe(ok, v, schedule[1..]);
    }
  }

  /** Between two steps of a capture, captures with other identities and keys do what is permitted. */
  lemma {:induction false} OthersArePermitted(ok: RowCheck, w: World, schedule: Schedule, cmd: Command)
    requires WorldOk(ok, w) && Runs(ok, w, schedule)
    requires forall i :: 0 <= i < |schedule| ==> Apart(cmd, schedule[i].0)
    ensures Permitted(ok, w, After(w, schedule), cmd)
    decreases |schedule|
  {
    if schedule != [] {
      var v := Apply(w, schedule[0].0, schedule[0].1);
      StepIsPermitted(ok, w, schedule[0].0, schedule[0].1, cmd);
      OthersArePermitted(ok, v, schedule[1..], cmd);
      PermittedIsTransitive(ok, w, v, After(v, schedule[1..]), cmd);
    }
  }

  // ---------------------------------------------------------------- one capture among the others

  /** A step a capture took, and the world it took it in. */
  datatype Taken = Taken(before: World, step: Step)

  /**
   From `w` to `v` the capture of `cmd` took just these steps, each where it was enabled, and in
   between other captures did only what they are permitted.
   */
  ghost predicate Interleaved(ok: RowCheck, cmd: Command, w: World, taken: seq<Taken>, v: World)
    decreases |taken|
  {
    if taken == [] then Permitted(ok, w, v, cmd)
    else
      && Permitted(ok, w, taken[0].before, cmd) && Enabled(ok, taken[0].before, cmd, taken[0].step)
      && Interleaved(ok, cmd, Apply(taken[0].before, cmd, taken[0].step), taken[1..], v)
  }

  lemma {:induction false} OthersMoveOn(ok: RowCheck, cmd: Command, w: World, taken: seq<Taken>, u: World, v: World)
    requires Interleaved(ok, cmd, w, taken, u) && Permitted(ok, u, v, cmd)
    ensures Interleaved(ok, cmd, w, taken, v)
    decreases |taken|
  {
    if taken == [] {
      PermittedIsTransitive(ok, w, u, v, cmd);
    } else {
      OthersMoveOn(ok, cmd, Apply(taken[0].before, cmd, taken[0].step), taken[1..], u, v);
    }
  }

  lemma {:induction false} TakesStep(ok: RowCheck, cmd: Command, w: World, taken: seq<Taken>, u: World, step: Step)
    requires Interleaved(ok, cmd, w, taken, u) && WorldOk(ok, u) && Enabled(ok, u, cmd, step)
    ensures Interleaved(ok, cmd, w, taken + [Taken(u, step)], Apply(u, cmd, step))
    decreases |taken|
  {
    var longer := taken + [Taken(u, step)];
    if taken == [] {
      StepKeeps(ok, u, cmd, step);
      assert longer[1..] == [];
    } else {
      assert longer[1..] == taken[1..] + [Taken(u, step)];
      TakesStep(ok, cmd, Apply(taken[0].before, cmd, taken[0].step), taken[1..], u, step);
    }
  }

  /** The steps of one command in a schedule, each with the world it meets. */
  function StepsOf(w: World, schedule: Schedule, cmd: Command): seq<Taken>
    decreases |schedule|
  {
    if schedule == [] then []
    else
      var rest := StepsOf(Apply(w, schedule[0].0, schedule[0].1), schedule[1..], cmd);
      if schedule[0].0 == cmd then [Taken(w, schedule[0].1)] + rest else rest
  }

  /**
   However captures are scheduled, each one that has its identity and key to itself sees its own
   enabled steps with only permitted changes in between.
   */
  lemma {:induction false} EveryScheduleIsInterleaved(ok: RowCheck, w: World, schedule: Schedule, cmd: Command)
    requires WorldOk(ok, w) && Runs(ok, w, schedule)
    requires forall i :: 0 <= i < |schedule| ==> schedule[i].0 == cmd || Apart(cmd, schedule[i].0)
    ensures Interleaved(ok, cmd, w, StepsOf(w, schedule, cmd), After(w, schedule))
    decreases |schedule|
  {
    if schedule != [] {
      var actor, step, rest := schedule[0].0, schedule[0].1, schedule[1..];
      var v := Apply(w, actor, step);
      StepKeeps(ok, w, actor, step);
      EveryScheduleIsInterleaved(ok, v, rest, cmd);
      var taken := StepsOf(v, rest, cmd);
      if actor == cmd {
        assert StepsOf(w, schedule, cmd)[1..] == taken;
      } else {
        StepIsPermitted(ok, w, actor, step, cmd);
        PermittedIsTransitive(ok, w, v, if taken == [] then After(v, rest) else taken[0].before, cmd);
      }
    }
  }

  /**
   Sharing an identity breaks this: after one capture has held the ref, another command with the
   same identity may release it, and the first can then no longer create its row soundly.
   */
  lemma SharedIdentityLosesTheRef(ok: RowCheck, w: World, cmd: Command, other: Command, row: Row, sha: string)
    requires WorldOk(ok, w) && cmd.id !in w.rows && other.id == cmd.id
    ensures var v := Release(Hold(w, cmd, row.revision), other);
            && Runs(ok, w, [(cmd, HoldRef(row.revision)), (other, ReleaseRef)])
            && !Permitted(ok, Hold(w, cmd, row.revision), v, cmd)
            && !Enabled(ok, v, cmd, CreateRow(row, sha)) && !WorldOk(ok, Created(v, cmd, row, sha))
  {
    var first, second := (cmd, HoldRef(row.revision)), (other, ReleaseRef);
    assert [first, second][1..] == [second] && [second][1..] == [];
    var v := Release(Hold(w, cmd, row.revision), other);
    assert cmd.id in Created(v, cmd, row, sha).rows && !Preserved(Created(v, cmd, row, sha), cmd.id);
  }
}
