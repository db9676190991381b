/**
 The capture service over its ports: look the request up, preserve the worktree under a private
 ref, read the runtime, canonicalize, commit, and clean the ref up unless it is to be kept.
 */
module CaptureService {
  import opened Common
  import opened CheckpointState
  import opened CheckpointCapture

  /** What the worktree port observed; `ref` and `revision` name what it preserved. */
  datatype Worktree = Worktree(
    repositoryID: string, bindingRevision: nat, baseRevision: string, headRevision: string,
    revision: string, ref: string, dirtyFiles: seq<DirtyFile>, diffSHA256: string)

  datatype Runtime = Runtime(
    planRevision: nat, policyRevision: nat, steps: seq<PlanStep>, budget: Budget, policy: Policy,
    provider: Provider, tools: Tools, actions: seq<Action>, lastSequence: nat)

  datatype Lookup = LookupFailed | Missing | Found(persisted: Persisted)

  datatype CommitAnswer = CommitFailed | Committed(persisted: Persisted, created: bool)

  datatype CaptureResult = Failure | Success(persisted: Persisted, state: State, created: bool)

  /** The port calls of a capture, with whether they reported success. */
  datatype Call = LookedUp(ok: bool) | PreservedWorktree(ok: bool) | ReadRuntime(ok: bool) | Guarded(text: string, ok: bool)
                | CommittedRow(text: string, ok: bool) | RemovedRef(ok: bool)

  /**
   Which call may come right after which. A worktree is preserved only after a lookup found nothing,
   the runtime read only after that, a text committed only after the secret guard has passed it, and
   a ref is removed only where the capture cannot or need not go on.
   */
  predicate MayFollow(a: Call, b: Call) {
    match b
    case LookedUp(_) => a.CommittedRow? && !a.ok
    case PreservedWorktree(ok) => a == LookedUp(true) || (a.RemovedRef? && !ok)
    case ReadRuntime(_) => a == PreservedWorktree(true)
    case Guarded(_, _) => a == LookedUp(true) || a == ReadRuntime(true)
    case CommittedRow(text, _) => a == Guarded(text, true)
    case RemovedRef(_) =>
      a == LookedUp(true) || a.ReadRuntime? || (a.Guarded? && !a.ok) || (a.CommittedRow? && a.ok) || a == RemovedRef(false)
  }

  /** After the call at `mark`, every call may follow the one before it. */
  ghost predicate Orderly(calls: seq<Call>, mark: nat) {
    forall j {:trigger CallAt(calls, j)} :: CallAt(calls, j) && mark < j < |calls| ==> MayFollow(calls[j - 1], calls[j])
  }

  // Marks the calls whose order is to be looked at.
  predicate CallAt(calls: seq<Call>, j: int) { true }

  lemma OrderlyNext(calls: seq<Call>, mark: nat, call: Call)
    requires Orderly(calls, mark) && calls != [] && MayFollow(calls[|calls| - 1], call)
    ensures Orderly(calls + [call], mark)
  {
    var all := calls + [call];
    forall j | mark < j < |all| ensures MayFollow(all[j - 1], all[j]) {
      if j < |calls| { assert CallAt(calls, j) && all[j - 1] == calls[j - 1] && all[j] == calls[j]; }
    }
  }

  lemma OrderlyJoin(calls: seq<Call>, more: seq<Call>, mark: nat)
    requires calls != [] && calls <= more && Orderly(calls, mark) && Orderly(more, |calls| - 1)
    ensures Orderly(more, mark)
  {
    forall j | mark < j < |more| ensures MayFollow(more[j - 1], more[j]) {
      assert CallAt(more, j);
      if j < |calls| { assert CallAt(calls, j) && more[j - 1] == calls[j - 1] && more[j] == calls[j]; }
    }
  }

  predicate EndsIn(calls: seq<Call>, call: Call) {
    calls != [] && calls[|calls| - 1] == call
  }

  /** The ref may be removed now. */
  predicate Removable(calls: seq<Call>) {
    calls != [] && MayFollow(calls[|calls| - 1], RemovedRef(true))
  }

  /** The guard has passed this text since `mark`. */
  ghost predicate Passed(calls: seq<Call>, mark: nat, text: string) {
    exists j :: mark <= j < |calls| && calls[j] == Guarded(text, true)
  }

  lemma PassedStays(calls: seq<Call>, more: seq<Call>, mark: nat, earlier: nat, text: string)
    requires Passed(calls, mark, text) && calls <= more && earlier <= mark
    ensures Passed(more, earlier, text)
  {
    var j :| mark <= j < |calls| && calls[j] == Guarded(text, true);
    assert more[j] == calls[j];
  }

  /** The guard refused some text among these calls. */
  ghost predicate GuardRefused(calls: seq<Call>) {
    exists i :: 0 <= i < |calls| && calls[i].Guarded? && !calls[i].ok
  }

  /** The calls a replayed request makes. */
  predicate OnlyReads(calls: seq<Call>) {
    forall i :: 0 <= i < |calls| ==> calls[i].LookedUp? || calls[i].Guarded?
  }

  /** What the store checks before it inserts a row. */
  predicate RowOk(c: Codec, id: string, row: Row) {
    && id != "" && row.ref == RefOf(id) && ValidGitObject(row.revision) && row.schemaVersion == SCHEMA_VERSION
    && row.sequence > 0 && Decoded(c, row.json, row.sha256).Some?
  }

  /** Reads a stored text back; absent unless it is canonical and has that digest. */
  type Reader = (string, string) -> Option<State>

  // Marks the rows and texts whose checks are to be unfolded.
  predicate RowAt(id: string, row: Row) { true }

  predicate TextAt(json: string, sha256: string) { true }

  /** Rows are checked as `RowOk` says and texts are read as `Decoded` says. */
  ghost predicate Wired(c: Codec, ok: RowCheck, reader: Reader) {
    && (forall id, row {:trigger RowAt(id, row)} :: RowAt(id, row) ==> (ok(id, row) <==> RowOk(c, id, row)))
    && (forall json, sha {:trigger TextAt(json, sha)} :: TextAt(json, sha) ==> reader(json, sha) == Decoded(c, json, sha))
  }

  /** The record a store returned is the answer to this command. */
  predicate ValidPersisted(c: Codec, p: Persisted, cmd: Command, requestSHA: string, stateSHA: string, sameID: bool) {
    && p.id != "" && (sameID ==> p.id == cmd.id) && p.row.task == cmd.task && p.row.run == cmd.run
    && p.row.schemaVersion == SCHEMA_VERSION && p.row.sha256 == stateSHA && p.requestSHA == requestSHA
    && p.row.sequence != 0 && ValidGitObject(p.row.revision) && p.row.ref == RefOf(p.id) && p.key == cmd.key
    && c.decode(p.row.json).Some?
  }

  function SnapshotOf(cmd: Command, w: Worktree, r: Runtime, completed: seq<PlanStep>, pending: seq<PlanStep>): Snapshot {
    Snapshot(SCHEMA_VERSION, cmd.task, cmd.run, w.repositoryID, w.bindingRevision, r.planRevision, w.baseRevision,
             w.headRevision, w.revision, w.dirtyFiles, w.diffSHA256, completed, pending, r.budget, r.policy, r.provider,
             r.tools, r.lastSequence, |r.actions| != 0, r.actions)
  }

  /** Where each single field of a snapshot comes from. */
  ghost predicate Copies(s: Snapshot, cmd: Command, tree: Worktree, runtime: Runtime) {
    && s.schemaVersion == 1 && s.taskID == cmd.task && s.runID == cmd.run
    && s.repositoryID == tree.repositoryID && s.bindingRevision == tree.bindingRevision
    && s.baseRevision == tree.baseRevision && s.worktreeHead == tree.headRevision
    && s.preservedRevision == tree.revision && s.diffSHA256 == tree.diffSHA256
    && s.planRevision == runtime.planRevision && s.budget == runtime.budget && s.policy == runtime.policy
    && s.provider == runtime.provider && s.tools == runtime.tools && s.lastSequence == runtime.lastSequence
    && (s.ambiguous <==> runtime.actions != [])
  }

  /** The steps are split by what became of them. */
  ghost predicate Splits(steps: seq<PlanStep>, completed: seq<PlanStep>, pending: seq<PlanStep>) {
    && multiset(completed) + multiset(pending) == multiset(steps)
    && (forall step :: step in multiset(completed) ==> step.state in {StepImplemented, StepValidated, StepSkipped})
    && (forall step :: step in multiset(pending) ==> step.state in {StepPending, StepInProgress, StepFailed})
  }

  /** The snapshot says what the ports reported, with its lists in canonical order. */
  ghost predicate Reflects(s: Snapshot, cmd: Command, tree: Worktree, runtime: Runtime) {
    && Copies(s, cmd, tree, runtime) && Splits(runtime.steps, s.completed, s.pending)
    && multiset(s.dirtyFiles) == multiset(tree.dirtyFiles) && multiset(s.actions) == multiset(runtime.actions)
    && ListsSorted(s)
  }

  /** The runtime is still at the revisions the capture asks for, and what was reported makes a valid snapshot. */
  ghost predicate Fit(cmd: Command, tree: Worktree, runtime: Runtime) {
    && runtime.planRevision == cmd.planRevision && runtime.policyRevision == runtime.policy.revision
    && exists s :: Reflects(s, cmd, tree, runtime) && Valid(s)
  }

  type Judging = (Snapshot, Command, Worktree, Runtime) -> bool

  type Fitting = (Command, Worktree, Runtime) -> bool

  // Marks the reports that are to be judged by what these say.
  predicate SnapshotAt(s: Snapshot) { true }

  predicate ReportAt(runtime: Runtime) { true }

  /** Snapshots are judged as `Reflects` says and reports as `Fit` says. */
  ghost predicate Judged(reflects: Judging, fits: Fitting) {
    && (forall s, cmd, tree, runtime {:trigger SnapshotAt(s), reflects(s, cmd, tree, runtime)} ::
          SnapshotAt(s) ==> (reflects(s, cmd, tree, runtime) <==> Reflects(s, cmd, tree, runtime)))
    && (forall cmd, tree, runtime {:trigger ReportAt(runtime), fits(cmd, tree, runtime)} ::
          ReportAt(runtime) ==> (fits(cmd, tree, runtime) <==> Fit(cmd, tree, runtime)))
  }

  lemma {:induction false} FilterMembers(f: PlanStep -> seq<PlanStep>, steps: seq<PlanStep>, step: PlanStep)
    requires forall x :: f(x) == [x] || f(x) == []
    requires step in multiset(FlatMap(f, steps))
    ensures f(step) == [step]
  {
    if step !in f(steps[0]) {
      FilterMembers(f, steps[1..], step);
    }
  }

  predicate StepsKnown(steps: seq<PlanStep>) {
    forall i :: 0 <= i < |steps| ==> CompletedState(steps[i].state) || PendingState(steps[i].state)
  }

  lemma FiltersSplit(steps: seq<PlanStep>)
    requires StepsKnown(steps)
    ensures Splits(steps, FlatMap(IfCompleted, steps), FlatMap(IfPending, steps))
  {
    var done, open := FlatMap(IfCompleted, steps), FlatMap(IfPending, steps);
    SplitLosesNothing(steps);
    forall step: PlanStep | step in multiset(done) ensures CompletedState(step.state) {
      FilterMembers(IfCompleted, steps, step);
    }
    forall step: PlanStep | step in multiset(open) ensures PendingState(step.state) {
      FilterMembers(IfPending, steps, step);
    }
  }

  /** Sorting what the ports reported gives a snapshot that reflects it. */
  lemma SnapshotReflects(cmd: Command, tree: Worktree, runtime: Runtime, completed: seq<PlanStep>, pending: seq<PlanStep>)
    requires Splits(runtime.steps, completed, pending)
    ensures Reflects(Normalized(SnapshotOf(cmd, tree, runtime, completed, pending)), cmd, tree, runtime)
  {
    var s := SnapshotOf(cmd, tree, runtime, completed, pending);
    NormalizedNormalizes(s);
    var n := Normalized(s);
    assert Copies(n, cmd, tree, runtime);
    assert Splits(runtime.steps, n.completed, n.pending);
  }

  lemma PartitionIsUnique(a: multiset<PlanStep>, b: multiset<PlanStep>, c: multiset<PlanStep>, d: multiset<PlanStep>)
    requires a + b == c + d
    requires forall step :: step in a || step in c ==> CompletedState(step.state)
    requires forall step :: step in b || step in d ==> PendingState(step.state)
    ensures a == c && b == d
  {
    forall step ensures a[step] == c[step] && b[step] == d[step] {
      assert (a + b)[step] == (c + d)[step];
    }
  }

  /** Whatever reflects the report is that snapshot up to order, and every reported step has a list. */
  lemma ReflectionIsUnique(s: Snapshot, cmd: Command, tree: Worktree, runtime: Runtime)
    requires Reflects(s, cmd, tree, runtime)
    ensures StepsKnown(runtime.steps)
    ensures SameUpToOrder(SnapshotOf(cmd, tree, runtime, FlatMap(IfCompleted, runtime.steps), FlatMap(IfPending, runtime.steps)), s)
  {
    var steps := runtime.steps;
    forall i | 0 <= i < |steps| ensures CompletedState(steps[i].state) || PendingState(steps[i].state) {
      assert steps[i] in multiset(steps);
    }
    FiltersSplit(steps);
    PartitionIsUnique(multiset(s.completed), multiset(s.pending),
                      multiset(FlatMap(IfCompleted, steps)), multiset(FlatMap(IfPending, steps)));
    assert |multiset(s.actions)| == |multiset(runtime.actions)|;
  }

  /** A fit report is canonicalized. */
  lemma FitIsCanonical(c: Codec, cmd: Command, tree: Worktree, runtime: Runtime)
    requires Fit(cmd, tree, runtime)
    ensures StepsKnown(runtime.steps)
    ensures Canonicalized(c, SnapshotOf(cmd, tree, runtime, FlatMap(IfCompleted, runtime.steps), FlatMap(IfPending, runtime.steps))).Some?
  {
    var s :| Reflects(s, cmd, tree, runtime) && Valid(s);
    ReflectionIsUnique(s, cmd, tree, runtime);
    var t := SnapshotOf(cmd, tree, runtime, FlatMap(IfCompleted, runtime.steps), FlatMap(IfPending, runtime.steps));
    NormalizedNormalizes(t);
    OrderIsInvisible(t, s, Normalized(t), s);
  }

  /** Some port reported a failure since the given call. */
  ghost predicate FailedSince(mark: nat, calls: seq<Call>) {
    exists i :: mark <= i < |calls| && !calls[i].ok
  }

  lemma FailedStays(mark: nat, later: nat, calls: seq<Call>, more: seq<Call>)
    requires mark <= later && calls <= more && FailedSince(later, calls)
    ensures FailedSince(mark, more)
  {
    var i :| later <= i < |calls| && !calls[i].ok;
    assert more[i] == calls[i];
  }

  lemma FailedIffNotUnfailing(mark: nat, calls: seq<Call>)
    requires mark <= |calls|
    ensures FailedSince(mark, calls) <==> !Unfailing(calls[mark..])
  {
    var new_ := calls[mark..];
    assert forall i :: 0 <= i < |new_| ==> new_[i] == calls[mark + i];
    if FailedSince(mark, calls) {
      var i :| mark <= i < |calls| && !calls[i].ok;
      assert !new_[i - mark].ok;
    }
  }

  /** The command's ref was set or deleted, and nothing else. */
  ghost predicate Toggled(w: World, v: World, cmd: Command) {
    (exists revision :: v == Hold(w, cmd, revision)) || v == Release(w, cmd)
  }

  lemma HoldThenRelease(w: World, cmd: Command, revision: string)
    ensures Release(Hold(w, cmd, revision), cmd) == Release(w, cmd)
  {
    assert Release(Hold(w, cmd, revision), cmd).refs == Release(w, cmd).refs;
  }

  predicate SameState(row: Row, cmd: Command, state: State) {
    row.task == cmd.task && row.run == cmd.run && row.sha256 == state.sha256
  }

  /** No checkpoint of the run holds the state yet. */
  predicate NewState(w: World, cmd: Command, state: State) {
    forall id :: id in w.rows ==> !SameState(w.rows[id], cmd, state)
  }

  function NewRow(cmd: Command, state: State, tree: Worktree, sequence: nat): Row {
    Row(cmd.task, cmd.run, SCHEMA_VERSION, state.json, state.sha256, sequence, tree.revision, tree.ref)
  }

  /** What the store's transaction may do, whether or not its outcome is reported. */
  ghost predicate CommitStep(w: World, v: World, cmd: Command, requestSHA: string, state: State, tree: Worktree) {
    || v == w
    || ((cmd.task, cmd.key) !in w.requests && exists id :: id in w.rows && SameState(w.rows[id], cmd, state) && v == Answered(w, cmd, id, requestSHA))
    || ((cmd.task, cmd.key) !in w.requests && cmd.id !in w.rows && NewState(w, cmd, state)
        && exists sequence: nat :: sequence > 0 && v == Created(w, cmd, NewRow(cmd, state, tree, sequence), requestSHA))
  }

  /** The ref is held for a command that has no row and no answer yet. */
  ghost predicate Holding(w: World, cmd: Command, tree: Worktree) {
    && cmd.id !in w.rows && (cmd.task, cmd.key) !in w.requests && tree.ref == RefOf(cmd.id)
    && RefOf(cmd.id) in w.refs && w.refs[RefOf(cmd.id)] == tree.revision
  }

  /** The request has its answer: the command's own row, or one that already held the state. */
  ghost predicate Answers(w: World, cmd: Command, requestSHA: string, state: State, tree: Worktree) {
    && (cmd.task, cmd.key) in w.requests && w.requests[(cmd.task, cmd.key)].id in w.rows
    && var p := Answer(w, cmd);
       && p.requestSHA == requestSHA && p.row.task == cmd.task && p.row.run == cmd.run && p.row.sha256 == state.sha256
       && (cmd.id in w.rows ==>
             p.id == cmd.id && p.row.revision == tree.revision && p.row.ref == tree.ref && p.row.json == state.json)
  }

  lemma HoldingSurvives(ok: RowCheck, w: World, v: World, cmd: Command, tree: Worktree)
    requires Permitted(ok, w, v, cmd) && Holding(w, cmd, tree)
    ensures Holding(v, cmd, tree)
  {}

  lemma AnswerSurvives(ok: RowCheck, w: World, v: World, cmd: Command, requestSHA: string, state: State, tree: Worktree)
    requires Permitted(ok, w, v, cmd) && Answers(w, cmd, requestSHA, state, tree)
    ensures Answers(v, cmd, requestSHA, state, tree) && Answer(v, cmd) == Answer(w, cmd)
    ensures cmd.id in v.rows <==> cmd.id in w.rows
  {}

  lemma FreshSurvives(ok: RowCheck, w: World, v: World, cmd: Command)
    requires Permitted(ok, w, v, cmd) && Fresh(w, cmd)
    ensures Fresh(v, cmd)
  {}

  lemma CreateAnswers(ok: RowCheck, w: World, cmd: Command, requestSHA: string, state: State, tree: Worktree, sequence: nat)
    requires WorldOk(ok, w) && Holding(w, cmd, tree) && ok(cmd.id, NewRow(cmd, state, tree, sequence)) && NewState(w, cmd, state)
    ensures var v := Created(w, cmd, NewRow(cmd, state, tree, sequence), requestSHA);
            WorldOk(ok, v) && Grows(w, v) && Answers(v, cmd, requestSHA, state, tree)
  {
    StepKeeps(ok, w, cmd, CreateRow(NewRow(cmd, state, tree, sequence), requestSHA));
  }

  lemma DedupAnswers(ok: RowCheck, w: World, cmd: Command, requestSHA: string, state: State, tree: Worktree, id: string)
    requires WorldOk(ok, w) && Holding(w, cmd, tree) && id in w.rows && SameState(w.rows[id], cmd, state)
    ensures var v := Answered(w, cmd, id, requestSHA);
            WorldOk(ok, v) && Grows(w, v) && Answers(v, cmd, requestSHA, state, tree)
  {
    StepKeeps(ok, w, cmd, AnswerRequest(id, requestSHA));
  }

  /** Whatever the transaction did, the world stays sound; the request is answered or still open. */
  lemma CommitKeeps(ok: RowCheck, w: World, v: World, cmd: Command, requestSHA: string, state: State, tree: Worktree)
    requires WorldOk(ok, w) && Holding(w, cmd, tree) && CommitStep(w, v, cmd, requestSHA, state, tree)
    requires forall sequence: nat :: sequence > 0 ==> ok(cmd.id, NewRow(cmd, state, tree, sequence))
    ensures WorldOk(ok, v) && Grows(w, v)
    ensures v == w || Answers(v, cmd, requestSHA, state, tree)
  {
    if v == w {
    } else if id :| id in w.rows && SameState(w.rows[id], cmd, state) && v == Answered(w, cmd, id, requestSHA) {
      DedupAnswers(ok, w, cmd, requestSHA, state, tree, id);
    } else {
      var sequence: nat :| sequence > 0 && v == Created(w, cmd, NewRow(cmd, state, tree, sequence), requestSHA);
      CreateAnswers(ok, w, cmd, requestSHA, state, tree, sequence);
    }
  }

  /** A record of the store answers the command it is looked up for. */
  lemma AnswerIsValid(c: Codec, ok: RowCheck, reader: Reader, w: World, cmd: Command, requestSHA: string, state: State, tree: Worktree)
    requires WorldOk(ok, w) && Answers(w, cmd, requestSHA, state, tree) && Wired(c, ok, reader)
    ensures ValidPersisted(c, Answer(w, cmd), cmd, requestSHA, state.sha256, false)
  {
    var p := Answer(w, cmd);
    assert ok(p.id, p.row);
    assert RowAt(p.id, p.row);
  }

  /** The rows a canonical state gives rise to pass the store's check. */
  lemma NewRowIsOk(c: Codec, ok: RowCheck, reader: Reader, cmd: Command, s: Snapshot, tree: Worktree, sequence: nat)
    requires Faithful(c) && Canonicalized(c, s).Some? && s.preservedRevision == tree.revision && Wired(c, ok, reader)
    requires cmd.id != "" && tree.ref == RefOf(cmd.id) && sequence > 0
    ensures var state := Canonicalized(c, s).value;
            && reader(state.json, state.sha256) == Some(state)
            && ok(cmd.id, NewRow(cmd, state, tree, sequence))
  {
    var state := Canonicalized(c, s).value;
    DecodesIffCanonical(c, state.json, state.sha256);
    assert Encodes(c, s, state.json);
    assert TextAt(state.json, state.sha256);
    assert RowAt(cmd.id, NewRow(cmd, state, tree, sequence));
  }

  lemma NotPreserved(before: seq<Call>, after: seq<Call>)
    requires || after == before + [PreservedWorktree(false)]
             || after == before + [RemovedRef(true), PreservedWorktree(false)]
             || after == before + [RemovedRef(false), PreservedWorktree(false)]
    ensures before <= after && PreservedWorktree(true) !in after[|before|..]
    ensures after == before + [RemovedRef(false), PreservedWorktree(false)] ==> RemovedRef(false) in after[|before|..]
  {
    if after == before + [RemovedRef(false), PreservedWorktree(false)] {
      assert after[|before|..][0] == RemovedRef(false);
    }
  }

  lemma ToggleKeeps(ok: RowCheck, w: World, v: World, cmd: Command)
    requires WorldOk(ok, w) && cmd.id !in w.rows && (v == w || Toggled(w, v, cmd))
    ensures WorldOk(ok, v) && Grows(w, v) && Fresh(v, cmd)
  {
    if v != w && v != Release(w, cmd) {
      var revision :| v == Hold(w, cmd, revision);
      StepKeeps(ok, w, cmd, HoldRef(revision));
    } else {
      StepKeeps(ok, w, cmd, if v == w then Idle else ReleaseRef);
    }
  }

  /** A stored record can be replayed for the request it answers. */
  lemma RecordIsAnswerable(c: Codec, ok: RowCheck, reader: Reader, w: World, cmd: Command)
    requires WorldOk(ok, w) && (cmd.task, cmd.key) in w.requests && Wired(c, ok, reader)
    ensures w.requests[(cmd.task, cmd.key)].id in w.rows
    ensures var p := Answer(w, cmd);
            && p.row.task == cmd.task && reader(p.row.json, p.row.sha256).Some?
            && (p.row.run == cmd.run ==> ValidPersisted(c, p, cmd, p.requestSHA, p.row.sha256, false))
  {
    var p := Answer(w, cmd);
    assert ok(p.id, p.row);
    assert RowAt(p.id, p.row) && TextAt(p.row.json, p.row.sha256);
  }

  lemma SuffixOf(before: seq<Call>, new_: seq<Call>)
    ensures (before + new_)[|before|..] == new_
  {}

  lemma LastIsNew(before: seq<Call>, mid: seq<Call>, call: Call)
    requires before <= mid
    ensures call in (mid + [call])[|before|..]
  {
    assert (mid + [call])[|before|..][|mid| - |before|] == call;
  }

  /** No port reported a failure. */
  predicate Unfailing(calls: seq<Call>) {
    forall i :: 0 <= i < |calls| ==> calls[i].ok
  }

  /** The transaction failed and so did the lookup that was to settle its outcome. */
  predicate Unreconciled(calls: seq<Call>) {
    |calls| >= 2 && calls[|calls| - 2].CommittedRow? && !calls[|calls| - 2].ok && calls[|calls| - 1] == LookedUp(false)
  }

  /**
   Why a ref may remain without a committed checkpoint: a removal failed, the outcome of the
   commit is unknown, or the ref was there before and the worktree was not preserved again.
   */
  predicate Excused(refBefore: bool, before: seq<Call>, after: seq<Call>) {
    || LeftBehind(before, after)
    || (before <= after && refBefore && PreservedWorktree(true) !in after[|before|..])
  }

  /** A removal failed since, or the outcome of the commit is unknown. */
  predicate LeftBehind(before: seq<Call>, after: seq<Call>) {
    before <= after && (RemovedRef(false) in after[|before|..] || Unreconciled(after))
  }

  /** What holds since after a call holds since before it. */
  lemma SinceEarlier(refBefore: bool, before: seq<Call>, call: Call, after: seq<Call>)
    requires before + [call] <= after
    ensures LeftBehind(before + [call], after) ==> LeftBehind(before, after)
    ensures Excused(refBefore, before + [call], after) && !call.PreservedWorktree? ==> Excused(refBefore, before, after)
    ensures FailedSince(|before| + 1, after) ==> FailedSince(|before|, after)
  {
    assert after[|before|..] == [call] + after[|before| + 1..];
  }

  /** What holds since the worktree was preserved holds since before it. */
  lemma NewInOrder(before: seq<Call>, after: seq<Call>, text: string)
    requires EndsIn(before, LookedUp(true)) && before + [PreservedWorktree(true)] <= after && Orderly(after, |before|)
    ensures Orderly(after, |before| - 1)
    ensures LeftBehind(before + [PreservedWorktree(true)], after) ==> LeftBehind(before, after)
    ensures FailedSince(|before| + 1, after) ==> FailedSince(|before|, after)
    ensures Passed(after, |before| + 1, text) ==> Passed(after, |before|, text)
  {
    var mid := before + [PreservedWorktree(true)];
    PreservedInOrder(before, mid);
    OrderlyJoin(mid, after, |before| - 1);
    SinceEarlier(false, before, PreservedWorktree(true), after);
    if Passed(after, |before| + 1, text) {
      PassedStays(after, after, |before| + 1, |before|, text);
    }
  }

  /** A text that reads back is the text of the state it gives, and has the digest it is stored under. */
  lemma ReadsItself(c: Codec, ok: RowCheck, reader: Reader, json: string, sha256: string)
    requires Wired(c, ok, reader) && reader(json, sha256).Some?
    ensures sha256 == c.digest(json) && reader(json, sha256).value.json == json
    ensures reader(json, sha256).value.sha256 == sha256
  {
    assert TextAt(json, sha256);
  }

  lemma AssembledInOrder(before: seq<Call>, after: seq<Call>)
    requires EndsIn(before, PreservedWorktree(true))
    requires || (exists ok :: after == before + [ReadRuntime(ok)])
             || (exists text, ok :: after == before + [ReadRuntime(true), Guarded(text, ok)])
    ensures before <= after && Orderly(after, |before| - 1)
    ensures after[|after| - 1].ReadRuntime? || !after[|after| - 1].ok ==> Removable(after)
  {
    if ok :| after == before + [ReadRuntime(ok)] {
      OrderlyNext(before, |before| - 1, ReadRuntime(ok));
    } else {
      var text, ok :| after == before + [ReadRuntime(true), Guarded(text, ok)];
      OrderlyNext(before, |before| - 1, ReadRuntime(true));
      OrderlyNext(before + [ReadRuntime(true)], |before| - 1, Guarded(text, ok));
      assert before + [ReadRuntime(true)] + [Guarded(text, ok)] == after;
    }
  }

  lemma PreservedInOrder(before: seq<Call>, after: seq<Call>)
    requires EndsIn(before, LookedUp(true))
    requires || after == before + [PreservedWorktree(true)] || after == before + [PreservedWorktree(false)]
             || after == before + [RemovedRef(true), PreservedWorktree(false)]
             || after == before + [RemovedRef(false), PreservedWorktree(false)]
    ensures Orderly(after, |before| - 1)
  {
    OrderlyNext(before, |before| - 1, after[|before|]);
    if |after| == |before| + 2 {
      OrderlyNext(before + [after[|before|]], |before| - 1, PreservedWorktree(false));
      assert before + [after[|before|]] + [PreservedWorktree(false)] == after;
    } else {
      assert after == before + [after[|before|]];
    }
  }

  lemma ReplayedInOrder(before: seq<Call>, mid: seq<Call>, after: seq<Call>, text: string)
    requires mid == before + [LookedUp(true)]
    requires after == mid || exists ok :: after == mid + [Guarded(text, ok)]
    ensures Orderly(after, |before|) && (GuardRefused(after[|mid|..]) ==> !Unfailing(after[|before|..]))
    ensures after == mid + [Guarded(text, true)] ==> Passed(after, |before|, text)
  {
    assert after[|before|..] == [LookedUp(true)] + after[|mid|..];
    if after != mid {
      assert after[|mid|].Guarded? && after[|before|] == LookedUp(true);
    }
    if i :| 0 <= i < |after[|mid|..]| && after[|mid|..][i].Guarded? && !after[|mid|..][i].ok {
      assert !after[|before|..][i + 1].ok;
    }
  }

  lemma ConcludedInOrder(before: seq<Call>, after: seq<Call>, mark: nat, retained: bool)
    requires Orderly(before, mark) && Removable(before)
    requires (retained && after == before) || after == before + [RemovedRef(retained)]
    ensures Orderly(after, mark) && (!retained ==> Removable(after))
  {
    if after != before {
      OrderlyNext(before, mark, RemovedRef(retained));
    }
  }

  lemma FirstCallIsOrderly(before: seq<Call>, call: Call)
    ensures Orderly(before + [call], |before|) && (before + [call])[|before|] == call
  {}

  datatype Settled = Unknown | NotCommitted | Known(persisted: Persisted, created: bool)

  class Service {
    const codec: Codec
    const identify: Command -> string
    const check: RowCheck
    const reader: Reader
    ghost const reflects: Judging
    ghost const fits: Fitting
    var world: World
    var calls: seq<Call>
    // where the present capture began, and the changes it made to the world since
    ghost var start: World
    ghost var taken: seq<Taken>
    // what the worktree and runtime ports last reported
    ghost var observed: Option<Worktree>
    ghost var reported: Option<Runtime>

    constructor (codec: Codec, identify: Command -> string, world: World)
      ensures this.codec == codec && this.identify == identify && this.world == world && calls == []
      ensures start == world && taken == []
      ensures Wired(codec, check, reader) && Judged(reflects, fits)
    {
      this.codec := codec;
      this.identify := identify;
      this.check := (id, row) => RowOk(codec, id, row);
      this.reader := (json, sha) => Decoded(codec, json, sha);
      this.reflects := (s, cmd, tree, runtime) => Reflects(s, cmd, tree, runtime);
      this.fits := (cmd, tree, runtime) => Fit(cmd, tree, runtime);
      this.world := world;
      calls := [];
      start, taken, observed, reported := world, [], None, None;
    }

    ghost predicate Ok()
      reads this
    {
      WorldOk(check, world)
    }

    /** Since it began, the capture of `cmd` took only enabled steps, and others did what they are permitted. */
    ghost predicate InStep(cmd: Command)
      reads this
    {
      Interleaved(check, cmd, start, taken, world)
    }

    /** Other captures take any steps they are permitted. */
    method Others(cmd: Command)
      requires Ok() && InStep(cmd)
      modifies this`world
      ensures Permitted(check, old(world), world, cmd) && InStep(cmd)
    {
      var next: World := *;
      if Permitted(check, world, next, cmd) {
        OthersMoveOn(check, cmd, start, taken, world, next);
        world := next;
      }
    }

    // -------------------------------------------------------------- ports

    method Find(cmd: Command) returns (r: Lookup)
      requires Ok()
      modifies this`calls
      ensures calls == old(calls) + [LookedUp(!r.LookupFailed?)]
      ensures !r.LookupFailed? ==> (r.Found? <==> (cmd.task, cmd.key) in world.requests)
      ensures r.Found? ==> (cmd.task, cmd.key) in world.requests && r.persisted == Answer(world, cmd)
    {
      var fails: bool := *;
      calls := calls + [LookedUp(!fails)];
      if fails {
        return LookupFailed;
      }
      return if (cmd.task, cmd.key) in world.requests then Found(Answer(world, cmd)) else Missing;
    }

    /** Deletes the ref only while it is at the given revision; it may report failure all the same. */
    method Remove(cmd: Command, ref: string, revision: string) returns (ok: bool)
      modifies this`world, this`calls, this`taken
      ensures calls == old(calls) + [RemovedRef(ok)]
      ensures world == old(world) || (ref == RefOf(cmd.id) && world == Release(old(world), cmd))
      ensures world != old(world) ==> ref in old(world).refs && old(world).refs[ref] == revision
      ensures ok ==> RefOf(cmd.id) !in world.refs
      ensures old(Ok() && InStep(cmd) && cmd.id !in world.rows) ==> InStep(cmd)
    {
      var runs: bool, reports: bool := *, *;
      ok := false;
      if runs && ref == RefOf(cmd.id) && revision != "" && ref in world.refs && world.refs[ref] == revision {
        if Ok() && InStep(cmd) && cmd.id !in world.rows {
          TakesStep(check, cmd, start, taken, world, ReleaseRef);
        }
        taken := taken + [Taken(world, ReleaseRef)];
        world := Release(world, cmd);
        ok := reports;
      }
      calls := calls + [RemovedRef(ok)];
    }

    method SetRef(cmd: Command, revision: string)
      modifies this`world, this`taken
      ensures world == Hold(old(world), cmd, revision)
      ensures old(Ok() && InStep(cmd) && cmd.id !in world.rows) ==> Ok() && InStep(cmd)
    {
      if Ok() && InStep(cmd) && cmd.id !in world.rows {
        TakesStep(check, cmd, start, taken, world, HoldRef(revision));
        StepKeeps(check, world, cmd, HoldRef(revision));
      }
      taken := taken + [Taken(world, HoldRef(revision))];
      world := Hold(world, cmd, revision);
    }

    /** Preserves the worktree under the command's ref; a ref already there must be at the same revision. */
    method Preserve(cmd: Command) returns (r: Option<Worktree>)
      modifies this`world, this`calls, this`taken, this`observed
      ensures observed == r
      ensures r.Some? ==> r.value.ref == RefOf(cmd.id) && world == Hold(old(world), cmd, r.value.revision)
      ensures r.Some? && RefOf(cmd.id) in old(world).refs ==> old(world).refs[RefOf(cmd.id)] == r.value.revision
      ensures r.Some? ==> calls == old(calls) + [PreservedWorktree(true)]
      ensures r.None? ==>
                || (calls == old(calls) + [PreservedWorktree(false)] && world == old(world))
                || (calls == old(calls) + [RemovedRef(true), PreservedWorktree(false)] && world == Release(old(world), cmd))
                || (calls == old(calls) + [RemovedRef(false), PreservedWorktree(false)] && Toggled(old(world), world, cmd))
      ensures old(Ok() && InStep(cmd) && cmd.id !in world.rows) ==> InStep(cmd)
    {
      var fails: bool, changed: bool, tree: Worktree := *, *, *;
      var revision := tree.revision;
      if fails || (RefOf(cmd.id) in world.refs && world.refs[RefOf(cmd.id)] != revision) {
        calls, observed := calls + [PreservedWorktree(false)], None;
        return None;
      }
      SetRef(cmd, revision);
      if changed {
        HoldThenRelease(old(world), cmd, revision);
        var ok := Remove(cmd, RefOf(cmd.id), revision);
        calls, observed := calls + [PreservedWorktree(false)], None;
        return None;
      }
      calls := calls + [PreservedWorktree(true)];
      observed := Some(tree.(ref := RefOf(cmd.id)));
      return Some(tree.(ref := RefOf(cmd.id)));
    }

    method Read(cmd: Command) returns (r: Option<Runtime>)
      modifies this`calls, this`reported
      ensures calls == old(calls) + [ReadRuntime(r.Some?)] && reported == r
    {
      var fails: bool, runtime: Runtime := *, *;
      calls := calls + [ReadRuntime(!fails)];
      reported := if fails then None else Some(runtime);
      return if fails then None else Some(runtime);
    }

    method Guard(json: string) returns (ok: bool)
      modifies this`calls
      ensures calls == old(calls) + [Guarded(json, ok)]
    {
      ok := *;
      calls := calls + [Guarded(json, ok)];
    }

    /** The row of this state passes the store's check. */
    ghost predicate Storable(cmd: Command, state: State, tree: Worktree) {
      forall sequence: nat :: sequence > 0 ==> check(cmd.id, NewRow(cmd, state, tree, sequence))
    }

    /** Attaches the request to a checkpoint that already holds the state. */
    method Attach(cmd: Command, requestSHA: string, id: string)
      requires Ok() && (cmd.task, cmd.key) !in world.requests && id in world.rows && world.rows[id].task == cmd.task
      modifies this`world, this`taken
      ensures world == Answered(old(world), cmd, id, requestSHA)
      ensures old(InStep(cmd)) ==> InStep(cmd)
    {
      if InStep(cmd) {
        TakesStep(check, cmd, start, taken, world, AnswerRequest(id, requestSHA));
      }
      taken := taken + [Taken(world, AnswerRequest(id, requestSHA))];
      world := Answered(world, cmd, id, requestSHA);
    }

    /** Inserts the row and its request together. */
    method InsertRow(cmd: Command, requestSHA: string, row: Row)
      requires Ok()
      modifies this`world, this`taken
      ensures world == Created(old(world), cmd, row, requestSHA)
      ensures old(InStep(cmd) && Creatable(check, world, cmd, row)) ==> InStep(cmd)
    {
      if InStep(cmd) && Creatable(check, world, cmd, row) {
        TakesStep(check, cmd, start, taken, world, CreateRow(row, requestSHA));
      }
      taken := taken + [Taken(world, CreateRow(row, requestSHA))];
      world := Created(world, cmd, row, requestSHA);
    }

    lemma NewRowIsCreatable(cmd: Command, state: State, tree: Worktree, sequence: nat)
      requires Holding(world, cmd, tree) && Storable(cmd, state, tree) && NewState(world, cmd, state) && sequence > 0
      ensures Creatable(check, world, cmd, NewRow(cmd, state, tree, sequence))
    {}

    /**
     The store's transaction. It answers an old request again, attaches the request to a checkpoint
     that already holds the state, or inserts the row with its event; and it may commit and yet
     report failure.
     */
    method Commit(cmd: Command, requestSHA: string, state: State, tree: Worktree) returns (r: CommitAnswer)
      requires Ok()
      modifies this`world, this`calls, this`taken
      ensures calls == old(calls) + [CommittedRow(state.json, r.Committed?)]
      ensures CommitStep(old(world), world, cmd, requestSHA, state, tree)
      ensures r.Committed? ==>
                && (cmd.task, cmd.key) in world.requests && world.requests[(cmd.task, cmd.key)].id in world.rows
                && r.persisted == Answer(world, cmd) && r.persisted.requestSHA == requestSHA
                && r.created == (cmd.id in world.rows && cmd.id !in old(world).rows)
      ensures old(Ok() && InStep(cmd) && Holding(world, cmd, tree)) && Storable(cmd, state, tree) ==> InStep(cmd)
    {
      var refuses: bool, silent: bool, sequence: nat := *, *, *;
      r := CommitFailed;
      if !refuses {
        if (cmd.task, cmd.key) in world.requests {
          if world.requests[(cmd.task, cmd.key)].requestSHA == requestSHA {
            r := Committed(Answer(world, cmd), false);
          }
        } else if exists id :: id in world.rows && SameState(world.rows[id], cmd, state) {
          var id :| id in world.rows && SameState(world.rows[id], cmd, state);
          Attach(cmd, requestSHA, id);
          r := Committed(Answer(world, cmd), false);
        } else if cmd.id !in world.rows && sequence > 0 {
          if Holding(world, cmd, tree) && Storable(cmd, state, tree) {
            NewRowIsCreatable(cmd, state, tree, sequence);
          }
          InsertRow(cmd, requestSHA, NewRow(cmd, state, tree, sequence));
          r := Committed(Answer(world, cmd), true);
        }
        if silent {
          r := CommitFailed;
        }
      }
      calls := calls + [CommittedRow(state.json, r.Committed?)];
    }

    // -------------------------------------------------------------- the protocol

    /** Whether the transaction ran is settled by looking the request up. */
    method Reconcile(cmd: Command, requestSHA: string, state: State, tree: Worktree) returns (a: Settled)
      requires Ok() && InStep(cmd) && EndsIn(calls, CommittedRow(state.json, false))
      requires Holding(world, cmd, tree) || Answers(world, cmd, requestSHA, state, tree)
      modifies this`world, this`calls
      ensures Ok() && Grows(old(world), world) && old(calls) <= calls && InStep(cmd)
      ensures a.NotCommitted? ==> Holding(world, cmd, tree)
      ensures calls == old(calls) + [LookedUp(!a.Unknown?)]
      ensures a.Known? ==> Answers(world, cmd, requestSHA, state, tree) && a.persisted == Answer(world, cmd) && !a.created
      ensures a.Unknown? ==> Unreconciled(calls) && (cmd.id !in world.rows || Answers(world, cmd, requestSHA, state, tree))
    {
      ghost var before := world;
      Others(cmd);
      if Holding(before, cmd, tree) {
        HoldingSurvives(check, before, world, cmd, tree);
      } else {
        AnswerSurvives(check, before, world, cmd, requestSHA, state, tree);
      }
      var found := Find(cmd);
      match found
      case LookupFailed => return Unknown;
      case Missing => return NotCommitted;
      case Found(p) => return Known(p, false);
    }

    /** Commits, and after a reported failure looks up what really happened. */
    method CommitAndReconcile(cmd: Command, requestSHA: string, state: State, tree: Worktree) returns (a: Settled)
      requires Ok() && Holding(world, cmd, tree)
      requires InStep(cmd) && Storable(cmd, state, tree) && EndsIn(calls, Guarded(state.json, true))
      modifies this`world, this`calls, this`taken
      ensures Ok() && Grows(old(world), world) && old(calls) <= calls && InStep(cmd)
      ensures a.NotCommitted? ==> Holding(world, cmd, tree)
      ensures Orderly(calls, |old(calls)| - 1) && (!a.Unknown? ==> Removable(calls))
      ensures !a.Known? ==> FailedSince(|old(calls)|, calls)
      ensures a.Known? ==>
                && Answers(world, cmd, requestSHA, state, tree) && a.persisted == Answer(world, cmd)
                && (a.created ==> cmd.id in world.rows)
      ensures a.Unknown? ==> Unreconciled(calls) && (cmd.id !in world.rows || Answers(world, cmd, requestSHA, state, tree))
    {
      ghost var before := world;
      var answer := Commit(cmd, requestSHA, state, tree);
      OrderlyNext(old(calls), |old(calls)| - 1, CommittedRow(state.json, answer.Committed?));
      CommitKeeps(check, before, world, cmd, requestSHA, state, tree);
      if answer.Committed? {
        return Known(answer.persisted, answer.created);
      }
      assert !calls[|old(calls)|].ok;
      ghost var mid := calls;
      a := Reconcile(cmd, requestSHA, state, tree);
      OrderlyNext(mid, |old(calls)| - 1, LookedUp(!a.Unknown?));
    }

    /** Checks the record and keeps or removes the ref, by whether the record is the command's own. */
    method Conclude(cmd: Command, requestSHA: string, state: State, tree: Worktree, p: Persisted, created: bool)
      returns (r: CaptureResult, retained: bool)
      requires Ok() && Answers(world, cmd, requestSHA, state, tree) && p == Answer(world, cmd)
      requires (created ==> cmd.id in world.rows) && tree.ref == RefOf(cmd.id) && InStep(cmd)
      requires ValidPersisted(codec, p, cmd, requestSHA, state.sha256, false)
      modifies this`world, this`calls, this`taken
      ensures Ok() && Grows(old(world), world) && old(calls) <= calls && InStep(cmd)
      ensures Answers(world, cmd, requestSHA, state, tree) && Answer(world, cmd) == p
      ensures !retained ==> cmd.id !in world.rows && RemovedRef(false) in calls[|old(calls)|..]
      ensures retained ==> r == Success(p, state, created) && (cmd.id in world.rows || RefOf(cmd.id) !in world.refs)
      ensures !retained ==> r == Failure && FailedSince(|old(calls)|, calls)
      ensures (retained && calls == old(calls)) || calls == old(calls) + [RemovedRef(retained)]
    {
      // a store that keeps its contract never returns an inconsistent record
      if !ValidPersisted(codec, p, cmd, requestSHA, state.sha256, created) {
        assert false;
      }
      if created || (p.id == cmd.id && p.row.ref == tree.ref && p.row.revision == tree.revision) {
        return Success(p, state, created), true;
      }
      ghost var before := world;
      var ok := Remove(cmd, tree.ref, tree.revision);
      assert cmd.id !in before.rows;
      StepKeeps(check, before, cmd, if world == before then Idle else ReleaseRef);
      if !ok {
        return Failure, false;
      }
      return Success(p, state, created), true;
    }

    /** The canonical state of what the ports reported; its row passes the store's check. */
    method StateFor(cmd: Command, tree: Worktree, runtime: Runtime) returns (r: Option<State>)
      requires Wired(codec, check, reader) && Faithful(codec) && cmd.id != "" && tree.ref == RefOf(cmd.id)
      ensures r.Some? ==>
                && reader(r.value.json, r.value.sha256) == Some(r.value) && Storable(cmd, r.value, tree)
                && Reflects(r.value.snapshot, cmd, tree, runtime) && Valid(r.value.snapshot)
      ensures r.None? ==> !Fit(cmd, tree, runtime)
    {
      if Fit(cmd, tree, runtime) {
        FitIsCanonical(codec, cmd, tree, runtime);
      }
      var split := SplitPlanSteps(runtime.steps);
      if split.None? {
        return None;
      }
      var snapshot := SnapshotOf(cmd, tree, runtime, split.value.0, split.value.1);
      r := Canonicalize(codec, snapshot);
      if r.None? {
        return None;
      }
      FiltersSplit(runtime.steps);
      SnapshotReflects(cmd, tree, runtime, split.value.0, split.value.1);
      CanonicalIsStorable(cmd, tree, snapshot);
    }

    lemma CanonicalIsStorable(cmd: Command, tree: Worktree, snapshot: Snapshot)
      requires Wired(codec, check, reader) && Faithful(codec) && cmd.id != "" && tree.ref == RefOf(cmd.id)
      requires Canonicalized(codec, snapshot).Some? && snapshot.preservedRevision == tree.revision
      ensures var state := Canonicalized(codec, snapshot).value;
              reader(state.json, state.sha256) == Some(state) && Storable(cmd, state, tree)
    {
      var state := Canonicalized(codec, snapshot).value;
      forall sequence: nat | sequence > 0
        ensures check(cmd.id, NewRow(cmd, state, tree, sequence))
      {
        NewRowIsOk(codec, check, reader, cmd, snapshot, tree, sequence);
      }
      NewRowIsOk(codec, check, reader, cmd, snapshot, tree, 1);
    }

    /** The state of what the ports reported, if the revisions are still those asked for. */
    method JudgedState(cmd: Command, tree: Worktree, runtime: Runtime) returns (r: Option<State>)
      requires Wired(codec, check, reader) && Judged(reflects, fits) && Faithful(codec) && cmd.id != "" && tree.ref == RefOf(cmd.id)
      ensures r.Some? ==>
                && reader(r.value.json, r.value.sha256) == Some(r.value) && Storable(cmd, r.value, tree)
                && reflects(r.value.snapshot, cmd, tree, runtime)
      ensures r.Some? <==> fits(cmd, tree, runtime)
    {
      assert ReportAt(runtime);
      if runtime.planRevision != cmd.planRevision || runtime.policyRevision != runtime.policy.revision {
        return None;
      }
      r := StateFor(cmd, tree, runtime);
      if r.Some? {
        assert SnapshotAt(r.value.snapshot);
      }
    }

    /** Reads the runtime and builds the canonical state the checkpoint is to hold. */
    method Assemble(cmd: Command, tree: Worktree) returns (r: Option<State>)
      requires Wired(codec, check, reader) && Judged(reflects, fits) && Faithful(codec) && cmd.id != "" && tree.ref == RefOf(cmd.id)
      modifies this`calls, this`reported
      ensures r.Some? ==> calls == old(calls) + [ReadRuntime(true), Guarded(r.value.json, true)]
      ensures r.None? ==>
                || (exists ok :: calls == old(calls) + [ReadRuntime(ok)])
                || (exists text :: calls == old(calls) + [ReadRuntime(true), Guarded(text, false)])
      ensures r.Some? ==>
                && reader(r.value.json, r.value.sha256) == Some(r.value) && Storable(cmd, r.value, tree)
                && reported.Some? && reflects(r.value.snapshot, cmd, tree, reported.value) && fits(cmd, tree, reported.value)
      ensures r.None? ==> FailedSince(|old(calls)|, calls) || (reported.Some? && !fits(cmd, tree, reported.value))
    {
      var runtime := Read(cmd);
      if runtime.None? {
        assert !calls[|old(calls)|].ok;
        return None;
      }
      r := JudgedState(cmd, tree, runtime.value);
      if r.None? {
        return None;
      }
      var clean := Guard(r.value.json);
      if !clean {
        assert !calls[|old(calls)| + 1].ok;
        return None;
      }
    }

    /** Commits the state and keeps or removes the ref by what became of it. */
    method SettleHeld(cmd: Command, requestSHA: string, tree: Worktree, state: State) returns (r: CaptureResult, retained: bool)
      requires Ok() && Wired(codec, check, reader) && Holding(world, cmd, tree) && InStep(cmd) && Storable(cmd, state, tree)
      requires EndsIn(calls, Guarded(state.json, true))
      modifies this`world, this`calls, this`taken
      ensures Ok() && Grows(old(world), world) && old(calls) <= calls && Fresh(world, cmd) && InStep(cmd)
      ensures !retained ==> cmd.id !in world.rows && r == Failure
      ensures retained && cmd.id !in world.rows && RefOf(cmd.id) in world.refs ==> Unreconciled(calls)
      ensures r.Success? ==>
                && retained && Answers(world, cmd, requestSHA, state, tree) && r.persisted == Answer(world, cmd)
                && r.state == state && (r.created ==> cmd.id in world.rows)
      ensures Orderly(calls, |old(calls)| - 1) && (!retained ==> Removable(calls))
      ensures r.Failure? ==> FailedSince(|old(calls)|, calls)
    {
      var settled := CommitAndReconcile(cmd, requestSHA, state, tree);
      match settled
      case Unknown => return Failure, true;
      case NotCommitted => return Failure, false;
      case Known(p, created) =>
        ghost var mid := calls;
        r, retained := ConcludeKnown(cmd, requestSHA, state, tree, p, created);
        ConcludedInOrder(mid, calls, |old(calls)| - 1, retained);
        if r.Failure? {
          FailedStays(|old(calls)|, |mid|, calls, calls);
        }
    }

    /** Everything between preserving the worktree and the deferred cleanup. */
    method CaptureHeld(cmd: Command, requestSHA: string, tree: Worktree) returns (r: CaptureResult, retained: bool)
      requires Ok() && Wired(codec, check, reader) && Judged(reflects, fits) && Faithful(codec) && cmd.id != "" && Holding(world, cmd, tree)
      requires InStep(cmd) && EndsIn(calls, PreservedWorktree(true))
      modifies this`world, this`calls, this`taken, this`reported
      ensures Ok() && Grows(old(world), world) && old(calls) <= calls
      ensures Fresh(world, cmd) && InStep(cmd)
      ensures !retained ==> cmd.id !in world.rows && r == Failure
      ensures retained && cmd.id !in world.rows && RefOf(cmd.id) in world.refs ==> Unreconciled(calls)
      ensures r.Success? ==>
                && retained && Answers(world, cmd, requestSHA, r.state, tree) && r.persisted == Answer(world, cmd)
                && (r.created ==> cmd.id in world.rows)
                && reader(r.state.json, r.state.sha256) == Some(r.state)
                && reported.Some? && reflects(r.state.snapshot, cmd, tree, reported.value) && fits(cmd, tree, reported.value)
      ensures Orderly(calls, |old(calls)| - 1) && (!retained ==> Removable(calls))
      ensures r.Success? ==> Passed(calls, |old(calls)|, r.state.json)
      ensures r.Failure? ==> FailedSince(|old(calls)|, calls) || (reported.Some? && !fits(cmd, tree, reported.value))
    {
      var state := Assemble(cmd, tree);
      AssembledInOrder(old(calls), calls);
      if state.None? {
        return Failure, false;
      }
      ghost var before, mid := world, calls;
      assert calls[|old(calls)| + 1] == Guarded(state.value.json, true);
      Others(cmd);
      HoldingSurvives(check, before, world, cmd, tree);
      r, retained := SettleHeld(cmd, requestSHA, tree, state.value);
      OrderlyJoin(mid, calls, |old(calls)| - 1);
      PassedStays(mid, calls, |old(calls)|, |old(calls)|, state.value.json);
      if r.Failure? {
        FailedStays(|old(calls)|, |mid|, calls, calls);
      }
    }

    method ConcludeKnown(cmd: Command, requestSHA: string, state: State, tree: Worktree, p: Persisted, created: bool)
      returns (r: CaptureResult, retained: bool)
      requires Ok() && Wired(codec, check, reader) && Answers(world, cmd, requestSHA, state, tree) && p == Answer(world, cmd)
      requires (created ==> cmd.id in world.rows) && tree.ref == RefOf(cmd.id) && InStep(cmd)
      modifies this`world, this`calls, this`taken
      ensures Ok() && Grows(old(world), world) && old(calls) <= calls && Fresh(world, cmd) && InStep(cmd)
      ensures !retained ==> cmd.id !in world.rows && r == Failure && FailedSince(|old(calls)|, calls)
      ensures (retained && calls == old(calls)) || calls == old(calls) + [RemovedRef(retained)]
      ensures retained ==>
                && r == Success(p, state, created) && (cmd.id in world.rows || RefOf(cmd.id) !in world.refs)
                && Answers(world, cmd, requestSHA, state, tree) && p == Answer(world, cmd)
    {
      ghost var known := world;
      Others(cmd);
      AnswerSurvives(check, known, world, cmd, requestSHA, state, tree);
      AnswerIsValid(codec, check, reader, world, cmd, requestSHA, state, tree);
      r, retained := Conclude(cmd, requestSHA, state, tree, p, created);
    }

    /** Answers a request from its record alone. */
    method ReplayedCapture(p: Persisted, cmd: Command, requestSHA: string) returns (r: CaptureResult)
      requires Faithful(codec) && Wired(codec, check, reader)
      modifies this`calls
      ensures old(calls) <= calls && OnlyReads(calls[|old(calls)|..])
      ensures r.Success? ==> r.persisted == p && !r.created && reader(p.row.json, p.row.sha256) == Some(r.state)
      ensures r.Success? ==> r.state.json == p.row.json && r.state.sha256 == p.row.sha256
      ensures var answerable := ValidPersisted(codec, p, cmd, requestSHA, p.row.sha256, false) && reader(p.row.json, p.row.sha256).Some?;
              r.Success? <==> answerable && !GuardRefused(calls[|old(calls)|..])
      ensures calls == old(calls) || exists ok :: calls == old(calls) + [Guarded(p.row.json, ok)]
      ensures r.Success? ==> calls == old(calls) + [Guarded(p.row.json, true)]
    {
      assert TextAt(p.row.json, p.row.sha256);
      if !ValidPersisted(codec, p, cmd, requestSHA, p.row.sha256, false) {
        return Failure;
      }
      var state := Canonicalize(codec, codec.decode(p.row.json).value);
      if state.None? || state.value.json != p.row.json || state.value.sha256 != p.row.sha256 {
        return Failure;
      }
      var clean := Guard(state.value.json);
      assert calls[|old(calls)|..] == [Guarded(p.row.json, clean)];
      if !clean {
        assert !calls[|old(calls)|..][0].ok;
        return Failure;
      }
      return Success(p, state.value, false);
    }

    /** Preserves the worktree: the ref is then held, or nothing is left behind that is not excused. */
    method PreserveNew(cmd: Command) returns (tree: Option<Worktree>)
      requires Ok() && cmd.id !in world.rows && (cmd.task, cmd.key) !in world.requests && InStep(cmd) && EndsIn(calls, LookedUp(true))
      modifies this`world, this`calls, this`taken, this`observed
      ensures Ok() && Grows(old(world), world) && old(calls) <= calls && Fresh(world, cmd) && InStep(cmd)
      ensures observed == tree && Orderly(calls, |old(calls)| - 1)
      ensures tree.Some? ==> Holding(world, cmd, tree.value) && calls == old(calls) + [PreservedWorktree(true)]
      ensures tree.None? ==> FailedSince(|old(calls)|, calls)
      ensures tree.None? && cmd.id !in world.rows && RefOf(cmd.id) in world.refs ==>
                Excused(RefOf(cmd.id) in old(world).refs, old(calls), calls)
    {
      ghost var before := world;
      tree := Preserve(cmd);
      PreservedInOrder(old(calls), calls);
      if tree.None? {
        ToggleKeeps(check, before, world, cmd);
        NotPreserved(old(calls), calls);
        assert !calls[|calls| - 1].ok;
      } else {
        StepKeeps(check, before, cmd, HoldRef(tree.value.revision));
        ghost var held := world;
        Others(cmd);
        HoldingSurvives(check, held, world, cmd, tree.value);
      }
    }

    /** A new request: preserve the worktree, capture, and clean up unless the ref is to be kept. */
    method CaptureNew(cmd: Command) returns (r: CaptureResult)
      requires Ok() && Wired(codec, check, reader) && Judged(reflects, fits) && Faithful(codec) && cmd.id != ""
      requires cmd.id !in world.rows && (cmd.task, cmd.key) !in world.requests && InStep(cmd) && EndsIn(calls, LookedUp(true))
      modifies this`world, this`calls, this`taken, this`observed, this`reported
      ensures Ok() && Grows(old(world), world) && old(calls) <= calls && Fresh(world, cmd) && InStep(cmd)
      ensures cmd.id !in world.rows && RefOf(cmd.id) in world.refs ==>
                Excused(RefOf(cmd.id) in old(world).refs, old(calls), calls)
      ensures r.Success? ==> Succeeded(cmd, r) && JudgedReported(cmd, r.state.snapshot)
      ensures Orderly(calls, |old(calls)| - 1) && (r.Success? ==> Passed(calls, |old(calls)|, r.state.json))
      ensures r.Failure? ==> FailedSince(|old(calls)|, calls) || JudgedUnfit(cmd)
    {
      var tree := PreserveNew(cmd);
      if tree.None? {
        return Failure;
      }
      r := CaptureAndCleanUp(cmd, tree.value);
      NewInOrder(old(calls), calls, if r.Success? then r.state.json else "");
    }

    /** The capture under the held ref, and the cleanup deferred until it ends. */
    method CaptureAndCleanUp(cmd: Command, tree: Worktree) returns (r: CaptureResult)
      requires Ok() && Wired(codec, check, reader) && Judged(reflects, fits) && Faithful(codec) && cmd.id != "" && Holding(world, cmd, tree)
      requires InStep(cmd) && EndsIn(calls, PreservedWorktree(true))
      modifies this`world, this`calls, this`taken, this`reported
      ensures Ok() && Grows(old(world), world) && old(calls) <= calls && Fresh(world, cmd) && InStep(cmd)
      ensures cmd.id !in world.rows && RefOf(cmd.id) in world.refs ==> LeftBehind(old(calls), calls)
      ensures r.Success? ==> Succeeded(cmd, r)
      ensures r.Success? ==>
                reported.Some? && reflects(r.state.snapshot, cmd, tree, reported.value) && fits(cmd, tree, reported.value)
      ensures Orderly(calls, |old(calls)| - 1) && (r.Success? ==> Passed(calls, |old(calls)|, r.state.json))
      ensures r.Failure? ==> FailedSince(|old(calls)|, calls) || (reported.Some? && !fits(cmd, tree, reported.value))
    {
      var retained: bool;
      r, retained := CaptureHeld(cmd, identify(cmd), tree);
      if !retained {
        ghost var mid := calls;
        CleanUp(cmd, tree);
        LastIsNew(old(calls), mid, RemovedRef(false));
        OrderlyNext(mid, |old(calls)| - 1, calls[|mid|]);
        if FailedSince(|old(calls)|, mid) {
          FailedStays(|old(calls)|, |old(calls)|, mid, calls);
        }
      }
    }

    /** The deferred cleanup; its outcome is ignored. */
    method CleanUp(cmd: Command, tree: Worktree)
      requires Ok() && cmd.id !in world.rows && tree.ref == RefOf(cmd.id) && InStep(cmd)
      modifies this`world, this`calls, this`taken
      ensures Ok() && Grows(old(world), world) && cmd.id !in world.rows && InStep(cmd)
      ensures calls == old(calls) + [RemovedRef(false)] || (calls == old(calls) + [RemovedRef(true)] && RefOf(cmd.id) !in world.refs)
    {
      ghost var before := world;
      Others(cmd);
      ghost var seen := world;
      var ok := Remove(cmd, tree.ref, tree.revision);
      StepKeeps(check, seen, cmd, if world == seen then Idle else ReleaseRef);
    }

    /** The store already holds the answer to this very command. */
    ghost predicate Repeats(w: World, cmd: Command) {
      && (cmd.task, cmd.key) in w.requests && w.requests[(cmd.task, cmd.key)].id in w.rows
      && Answer(w, cmd).requestSHA == identify(cmd) && Answer(w, cmd).row.run == cmd.run
    }

    ghost predicate JudgedReported(cmd: Command, s: Snapshot)
      reads this
    {
      && observed.Some? && reported.Some?
      && reflects(s, cmd, observed.value, reported.value) && fits(cmd, observed.value, reported.value)
    }

    ghost predicate JudgedUnfit(cmd: Command)
      reads this
    {
      observed.Some? && reported.Some? && !fits(cmd, observed.value, reported.value)
    }

    /** The snapshot reflects what the ports reported, and they reported something fit. */
    ghost predicate Reported(cmd: Command, s: Snapshot)
      reads this
    {
      && observed.Some? && reported.Some?
      && Reflects(s, cmd, observed.value, reported.value) && Fit(cmd, observed.value, reported.value)
    }

    ghost predicate Unfit(cmd: Command)
      reads this
    {
      observed.Some? && reported.Some? && !Fit(cmd, observed.value, reported.value)
    }

    /** What was judged is so. */
    lemma JudgementIsRight(cmd: Command, s: Snapshot)
      requires Judged(reflects, fits) && JudgedReported(cmd, s)
      ensures Reported(cmd, s)
    {
      assert SnapshotAt(s) && ReportAt(reported.value);
    }

    lemma UnfitIsRight(cmd: Command)
      requires Judged(reflects, fits) && JudgedUnfit(cmd)
      ensures Unfit(cmd)
    {
      assert ReportAt(reported.value);
    }

    /** The answer a successful capture returns, and what it means. */
    ghost predicate Succeeded(cmd: Command, r: CaptureResult)
      reads this
      requires r.Success?
    {
      && (cmd.task, cmd.key) in world.requests && world.requests[(cmd.task, cmd.key)].id in world.rows
      && r.persisted == Answer(world, cmd) && r.persisted.requestSHA == identify(cmd)
      && r.persisted.row.run == cmd.run && r.persisted.row.sha256 == r.state.sha256
      && reader(r.state.json, r.state.sha256) == Some(r.state)
      && (r.created ==> r.persisted.id == cmd.id) && (r.persisted.id == cmd.id ==> r.persisted.row.json == r.state.json)
    }

    /** Replays the record of a request that was answered before. */
    method AnswerAgain(cmd: Command, p: Persisted, ghost before: seq<Call>) returns (r: CaptureResult)
      requires Ok() && Wired(codec, check, reader) && Judged(reflects, fits) && Faithful(codec) && calls == before + [LookedUp(true)]
      requires (cmd.task, cmd.key) in world.requests && p == Answer(world, cmd)
      modifies this`calls
      ensures before <= calls && OnlyReads(calls[|before|..])
      ensures |before| < |calls| && calls[|before|] == LookedUp(true)
      ensures Orderly(calls, |before|) && (r.Success? ==> Passed(calls, |before|, r.state.json))
      ensures r.Success? ==> Succeeded(cmd, r) && !r.created && reader(p.row.json, p.row.sha256) == Some(r.state)
      ensures Repeats(world, cmd) && Unfailing(calls[|before|..]) ==> r.Success? && r.persisted == p && !r.created
    {
      RecordIsAnswerable(codec, check, reader, world, cmd);
      ghost var mid := calls;
      r := ReplayedCapture(p, cmd, identify(cmd));
      assert calls[|before|..] == [LookedUp(true)] + calls[|mid|..];
      ReplayedInOrder(before, mid, calls, p.row.json);
    }

    /** A request the lookup did not find, with other captures before the worktree is preserved. */
    method CaptureMissing(cmd: Command, ghost before: seq<Call>) returns (r: CaptureResult)
      requires Ok() && Wired(codec, check, reader) && Judged(reflects, fits) && Faithful(codec) && cmd.id != "" && Fresh(world, cmd)
      requires (cmd.task, cmd.key) !in world.requests && InStep(cmd) && calls == before + [LookedUp(true)]
      modifies this`world, this`calls, this`taken, this`observed, this`reported
      ensures Ok() && Grows(old(world), world) && before <= calls && Fresh(world, cmd) && InStep(cmd)
      ensures cmd.id !in world.rows && RefOf(cmd.id) in world.refs ==> Excused(RefOf(cmd.id) in old(world).refs, before, calls)
      ensures r.Success? ==> Succeeded(cmd, r) && JudgedReported(cmd, r.state.snapshot)
      ensures |before| < |calls| && calls[|before|] == LookedUp(true)
      ensures Orderly(calls, |before|) && (r.Success? ==> Passed(calls, |before|, r.state.json))
      ensures r.Failure? ==> FailedSince(|before|, calls) || JudgedUnfit(cmd)
    {
      ghost var missing := world;
      Others(cmd);
      FreshSurvives(check, missing, world, cmd);
      ghost var refBefore := RefOf(cmd.id) in world.refs;
      ghost var mid := calls;
      r := CaptureNew(cmd);
      if r.Success? {
        PassedStays(calls, calls, |mid|, |before|, r.state.json);
      }
      SinceEarlier(refBefore, before, LookedUp(true), calls);
    }

    /**
     Captures a checkpoint. Whatever fails, every committed checkpoint keeps its ref, and every
     change to the world is a step that was enabled when it was taken. A ref without a committed
     checkpoint stays behind only if a removal failed, or the outcome of the commit could not be
     looked up, or it was there before and the worktree was not preserved again. A request that
     already has an answer is answered from its record: only lookups and the secret guard are called.
     A new request holds what the ports reported, and succeeds if no port fails and that is fit.
     */
    method Capture(cmd: Command) returns (r: CaptureResult)
      requires Ok() && Wired(codec, check, reader) && Judged(reflects, fits) && Faithful(codec) && Fresh(world, cmd)
      modifies this`world, this`calls, this`start, this`taken, this`observed, this`reported
      ensures Ok() && Grows(old(world), world) && old(calls) <= calls && Fresh(world, cmd)
      ensures start == old(world) && InStep(cmd)
      ensures cmd.id !in world.rows && RefOf(cmd.id) in world.refs ==>
                Excused(RefOf(cmd.id) in old(world).refs, old(calls), calls)
      ensures r.Success? ==> Succeeded(cmd, r) && ValidCommand(cmd)
      ensures Orderly(calls, |old(calls)|) && (calls != old(calls) ==> calls[|old(calls)|].LookedUp?)
      ensures r.Success? ==> Passed(calls, |old(calls)|, r.state.json)
      ensures r.Success? && r.created ==> Reported(cmd, r.state.snapshot)
      ensures (cmd.task, cmd.key) !in old(world).requests ==>
                && (r.Success? ==> Reported(cmd, r.state.snapshot))
                && (r.Failure? && ValidCommand(cmd) && Unfailing(calls[|old(calls)|..]) ==> Unfit(cmd))
      ensures (cmd.task, cmd.key) in old(world).requests ==> world == old(world) && OnlyReads(calls[|old(calls)|..])
      ensures Repeats(old(world), cmd) && ValidCommand(cmd) && Unfailing(calls[|old(calls)|..]) ==>
                && r.Success? && r.persisted == Answer(old(world), cmd) && !r.created
                && reader(r.persisted.row.json, r.persisted.row.sha256) == Some(r.state)
    {
      start, taken := world, [];
      if !ValidCommand(cmd) {
        return Failure;
      }
      var existing := Find(cmd);
      match existing
      case LookupFailed =>
        SuffixOf(old(calls), [LookedUp(false)]);
        FirstCallIsOrderly(old(calls), LookedUp(false));
        assert !calls[|old(calls)|..][0].ok;
        return Failure;
      case Found(p) =>
        r := AnswerAgain(cmd, p, old(calls));
      case Missing =>
        r := CaptureMissing(cmd, old(calls));
        FailedIffNotUnfailing(|old(calls)|, calls);
        if r.Success? {
          JudgementIsRight(cmd, r.state.snapshot);
        } else if JudgedUnfit(cmd) {
          UnfitIsRight(cmd);
        }
    }

    /**
     Repeating a command that succeeded gives the same record from lookups and the secret guard
     alone, whatever other captures did in between, and the state that record holds. That is the
     state of the first answer exactly if the record holds its text, as it does when the record is
     the command's own; otherwise the record was found by digest, and two texts share that digest.
     `mark` is where the calls of the repetition begin.
     */
    method CaptureTwice(cmd: Command) returns (first: CaptureResult, second: CaptureResult, mark: nat)
      requires Ok() && Wired(codec, check, reader) && Judged(reflects, fits) && Faithful(codec) && Fresh(world, cmd)
      modifies this`world, this`calls, this`start, this`taken, this`observed, this`reported
      ensures Ok() && mark <= |calls|
      ensures first.Success? ==> OnlyReads(calls[mark..])
      ensures first.Success? && Unfailing(calls[mark..]) ==>
                && second.Success? && second.persisted == first.persisted && !second.created
                && (second.state == first.state <==> first.state.json == first.persisted.row.json)
      ensures first.Success? ==>
                && (first.created ==> first.persisted.id == cmd.id)
                && (first.persisted.id == cmd.id ==> first.state.json == first.persisted.row.json)
                && codec.digest(first.state.json) == codec.digest(first.persisted.row.json)
    {
      first := Capture(cmd);
      ghost var done := world;
      Others(cmd);
      FreshSurvives(check, done, world, cmd);
      mark := |calls|;
      ghost var again := world;
      second := Capture(cmd);
      if first.Success? {
        assert Answer(again, cmd) == first.persisted && Repeats(again, cmd);
        RecordIsAnswerable(codec, check, reader, again, cmd);
        var row := first.persisted.row;
        ReadsItself(codec, check, reader, row.json, row.sha256);
        ReadsItself(codec, check, reader, first.state.json, first.state.sha256);
      }
    }
  }
}
