/**
 The recovery snapshot of a checkpoint: what makes one acceptable, the canonical form its
 lists are sorted into, and the decoder that admits canonical text only.
 */
module CheckpointState {
  import opened Common
  import opened Text
  import opened Ordering

  // ---------------------------------------------------------------- data

  datatype StepState = StepPending | StepInProgress | StepImplemented | StepValidated | StepFailed | StepSkipped | StepUnknown

  datatype DirtyFile = DirtyFile(path: string, exists_: bool, sha256: string)

  datatype PlanStep = PlanStep(id: string, state: StepState)

  datatype ExactCost = ExactCost(currency: string, numerator: int, denominator: int)

  datatype Budget = Budget(
    id: string, revision: nat, reserved: ExactCost, charged: ExactCost, actual: ExactCost, detail: string)

  datatype Policy = Policy(revision: nat, version: string, sha256: string)

  datatype Tools = Tools(schemaVersion: int, sha256: string)

  datatype Provider = Provider(
    settingsRevision: nat, sha256: string, adapter: string, adapterVersion: string,
    provider: string, providerVersion: string, model: string, modelRevision: string)

  datatype Action = Action(id: string, kind: string, intentSHA256: string, toolRequestID: string)

  datatype Snapshot = Snapshot(
    schemaVersion: nat, taskID: string, runID: string, repositoryID: string, bindingRevision: nat,
    planRevision: nat, baseRevision: string, worktreeHead: string, preservedRevision: string,
    dirtyFiles: seq<DirtyFile>, diffSHA256: string,
    completed: seq<PlanStep>, pending: seq<PlanStep>,
    budget: Budget, policy: Policy, provider: Provider, tools: Tools,
    lastSequence: nat, ambiguous: bool, actions: seq<Action>)

  const SCHEMA_VERSION: nat := 1
  const MAXIMUM_DIRTY_FILES := 2048
  const MAXIMUM_PLAN_STEPS := 256
  const MAXIMUM_AMBIGUOUS_ACTIONS := 128

  // ---------------------------------------------------------------- values

  predicate LowerHex(s: string) {
    forall i :: 0 <= i < |s| ==> '0' <= s[i] <= '9' || 'a' <= s[i] <= 'f'
  }

  predicate ValidSHA256(s: string) {
    |s| == 64 && LowerHex(s)
  }

  predicate ValidGitObject(s: string) {
    (|s| == 40 || |s| == 64) && LowerHex(s)
  }

  predicate BoundedTrimmed(s: string, maximum: nat) {
    s != "" && Trim(s) == s && ByteLength(s) <= maximum
  }

  predicate IdentifierChar(c: char) {
    'a' <= c <= 'z' || 'A' <= c <= 'Z' || '0' <= c <= '9' || c == '-' || c == '.' || c == '_' || c == ':' || c == '/'
  }

  predicate BoundedIdentifier(s: string, maximum: nat) {
    BoundedTrimmed(s, maximum) && forall i :: 0 <= i < |s| ==> IdentifierChar(s[i])
  }

  /** A relative path that cleaning leaves alone and that stays below its root. */
  predicate SafePath(p: string) {
    ByteLength(p) <= 4096 && '\\' !in p && (p == "." || CleanSegments(p))
  }

  predicate ValidCost(c: ExactCost) {
    && |c.currency| == 3 && (forall i :: 0 <= i < 3 ==> 'A' <= c.currency[i] <= 'Z')
    && c.numerator >= 0 && c.denominator >= 1
  }

  predicate ValidBudget(b: Budget) {
    && b.id != "" && ValidCost(b.reserved) && ValidCost(b.charged) && ValidCost(b.actual)
    && b.charged.currency == b.reserved.currency && b.actual.currency == b.reserved.currency
  }

  predicate ValidFile(f: DirtyFile) {
    SafePath(f.path) && if f.exists_ then ValidSHA256(f.sha256) else f.sha256 == ""
  }

  predicate CompletedState(s: StepState) {
    s.StepImplemented? || s.StepValidated? || s.StepSkipped?
  }

  predicate PendingState(s: StepState) {
    s.StepPending? || s.StepInProgress? || s.StepFailed?
  }

  predicate ValidStep(step: PlanStep, done: bool) {
    BoundedTrimmed(step.id, 255) && if done then CompletedState(step.state) else PendingState(step.state)
  }

  predicate ValidAction(a: Action) {
    && BoundedIdentifier(a.id, 255) && BoundedIdentifier(a.kind, 128) && ValidSHA256(a.intentSHA256)
    && (a.toolRequestID != "" ==> BoundedIdentifier(a.toolRequestID, 255))
  }

  // ---------------------------------------------------------------- lists

  function PathOf(f: DirtyFile): string { f.path }

  function IdOf(s: PlanStep): string { s.id }

  function ActionIdOf(a: Action): string { a.id }

  predicate ValidFiles(files: seq<DirtyFile>) {
    (forall i :: 0 <= i < |files| ==> ValidFile(files[i])) && Strict(Before, PathOf, files)
  }

  predicate ValidActions(actions: seq<Action>) {
    (forall i :: 0 <= i < |actions| ==> ValidAction(actions[i])) && Strict(Before, ActionIdOf, actions)
  }

  predicate DistinctIds(steps: seq<PlanStep>) {
    forall i, j :: 0 <= i < j < |steps| ==> IdOf(steps[i]) != IdOf(steps[j])
  }

  predicate ValidSteps(completed: seq<PlanStep>, pending: seq<PlanStep>) {
    && (forall i :: 0 <= i < |completed| ==> ValidStep(completed[i], true))
    && (forall i :: 0 <= i < |pending| ==> ValidStep(pending[i], false))
    && DistinctIds(completed + pending)
  }

  /** One pass remembering the previous path. */
  method ValidateDirtyFiles(files: seq<DirtyFile>) returns (ok: bool)
    ensures ok <==> ValidFiles(files)
  {
    BeforeIsTotalOrder();
    var previous := "";
    for i := 0 to |files|
      invariant previous == if i == 0 then "" else files[i - 1].path
      invariant forall k :: 0 <= k < i ==> ValidFile(files[k])
      invariant forall k :: 0 < k < i ==> Before(PathOf(files[k - 1]), PathOf(files[k]))
    {
      var f := files[i];
      if !SafePath(f.path) {
        return false;
      }
      if previous != "" && !Before(previous, f.path) {
        assert i > 0;
        return false;
      }
      assert i > 0 ==> files[i - 1].path != "";
      previous := f.path;
      if f.exists_ && !ValidSHA256(f.sha256) {
        return false;
      }
      if !f.exists_ && f.sha256 != "" {
        return false;
      }
    }
    NeighboursAreEnough(Before, PathOf, files);
    return true;
  }

  /** One pass remembering the previous action. */
  method ValidateAmbiguousActions(actions: seq<Action>) returns (ok: bool)
    ensures ok <==> ValidActions(actions)
  {
    BeforeIsTotalOrder();
    var previous := "";
    for i := 0 to |actions|
      invariant previous == if i == 0 then "" else actions[i - 1].id
      invariant forall k :: 0 <= k < i ==> ValidAction(actions[k])
      invariant forall k :: 0 < k < i ==> Before(ActionIdOf(actions[k - 1]), ActionIdOf(actions[k]))
    {
      if !ValidAction(actions[i]) {
        return false;
      }
      if previous != "" && !Before(previous, actions[i].id) {
        assert i > 0;
        return false;
      }
      previous := actions[i].id;
    }
    NeighboursAreEnough(Before, ActionIdOf, actions);
    return true;
  }

  /** The identifiers of the first `n` steps, which are distinct. */
  ghost predicate SeenAre(seen: set<string>, steps: seq<PlanStep>, n: nat) {
    && n <= |steps|
    && (forall s :: s in seen <==> exists k :: 0 <= k < n && IdOf(steps[k]) == s)
    && (forall i, j :: 0 <= i < j < n ==> IdOf(steps[i]) != IdOf(steps[j]))
  }

  lemma SeenStep(seen: set<string>, steps: seq<PlanStep>, n: nat)
    requires SeenAre(seen, steps, n) && n < |steps|
    ensures steps[n].id in seen ==> !DistinctIds(steps)
    ensures steps[n].id !in seen ==> SeenAre(seen + {steps[n].id}, steps, n + 1)
  {
    if steps[n].id in seen {
      var k :| 0 <= k < n && IdOf(steps[k]) == steps[n].id;
      assert IdOf(steps[k]) == IdOf(steps[n]);
    } else {
      forall s ensures s in seen + {steps[n].id} <==> exists k :: 0 <= k < n + 1 && IdOf(steps[k]) == s {
        assert IdOf(steps[n]) == steps[n].id;
      }
    }
  }

  /** Continues through `steps`, the part of `all` from `start` on, with the identifiers seen so far. */
  method CheckSteps(steps: seq<PlanStep>, ghost all: seq<PlanStep>, ghost start: nat, before: set<string>, done: bool)
    returns (ok: bool, seen: set<string>)
    requires start + |steps| <= |all| && all[start..start + |steps|] == steps && SeenAre(before, all, start)
    ensures ok ==> SeenAre(seen, all, start + |steps|)
    ensures ok ==> forall k :: 0 <= k < |steps| ==> ValidStep(steps[k], done)
    ensures !ok ==> !DistinctIds(all) || exists k :: 0 <= k < |steps| && !ValidStep(steps[k], done)
  {
    seen := before;
    for i := 0 to |steps|
      invariant forall k :: 0 <= k < i ==> ValidStep(steps[k], done)
      invariant SeenAre(seen, all, start + i)
    {
      if !ValidStep(steps[i], done) {
        return false, seen;
      }
      assert all[start..start + |steps|][i] == all[start + i];
      SeenStep(seen, all, start + i);
      if steps[i].id in seen {
        return false, seen;
      }
      seen := seen + {steps[i].id};
    }
    return true, seen;
  }

  /** Two passes over one set of identifiers. */
  method ValidatePlanSteps(completed: seq<PlanStep>, pending: seq<PlanStep>) returns (ok: bool)
    ensures ok <==> ValidSteps(completed, pending)
  {
    ghost var all := completed + pending;
    var seen: set<string>;
    ok, seen := CheckSteps(completed, all, 0, {}, true);
    if ok {
      ok, seen := CheckSteps(pending, all, |completed|, seen, false);
    }
  }

  // ---------------------------------------------------------------- the whole snapshot

  /** Every check that does not look inside a list. */
  predicate ValidBindings(s: Snapshot) {
    && s.schemaVersion == SCHEMA_VERSION
    && s.taskID != "" && s.runID != "" && s.repositoryID != "" && s.planRevision != 0
    && ValidGitObject(s.baseRevision) && ValidGitObject(s.worktreeHead) && ValidGitObject(s.preservedRevision)
    && ValidSHA256(s.diffSHA256)
    && |s.dirtyFiles| <= MAXIMUM_DIRTY_FILES
    && 0 < |s.completed| + |s.pending| <= MAXIMUM_PLAN_STEPS
    && s.ambiguous == (|s.actions| != 0) && |s.actions| <= MAXIMUM_AMBIGUOUS_ACTIONS
    && ValidBudget(s.budget)
    && s.policy.revision != 0 && BoundedTrimmed(s.policy.version, 255) && ValidSHA256(s.policy.sha256)
    && s.tools.schemaVersion >= 1 && ValidSHA256(s.tools.sha256)
    && s.provider.settingsRevision != 0 && ValidSHA256(s.provider.sha256)
    && BoundedTrimmed(s.provider.adapter, 255) && BoundedTrimmed(s.provider.adapterVersion, 255)
    && BoundedTrimmed(s.provider.provider, 255) && BoundedTrimmed(s.provider.providerVersion, 255)
    && BoundedTrimmed(s.provider.model, 255) && BoundedTrimmed(s.provider.modelRevision, 255)
  }

  predicate Valid(s: Snapshot) {
    ValidBindings(s) && ValidFiles(s.dirtyFiles) && ValidSteps(s.completed, s.pending) && ValidActions(s.actions)
  }

  method ValidateSnapshot(s: Snapshot) returns (ok: bool)
    ensures ok <==> Valid(s)
  {
    if !ValidBindings(s) {
      return false;
    }
    var files := ValidateDirtyFiles(s.dirtyFiles);
    if !files {
      return false;
    }
    var steps := ValidatePlanSteps(s.completed, s.pending);
    if !steps {
      return false;
    }
    ok := ValidateAmbiguousActions(s.actions);
  }

  // ---------------------------------------------------------------- sorting

  /** The two snapshots differ at most in the order of their four lists. */
  ghost predicate SameUpToOrder(s: Snapshot, t: Snapshot) {
    && t == s.(dirtyFiles := t.dirtyFiles, completed := t.completed, pending := t.pending, actions := t.actions)
    && multiset(s.dirtyFiles) == multiset(t.dirtyFiles) && multiset(s.completed) == multiset(t.completed)
    && multiset(s.pending) == multiset(t.pending) && multiset(s.actions) == multiset(t.actions)
  }

  ghost predicate ListsSorted(s: Snapshot) {
    && Sorted(Before, PathOf, s.dirtyFiles) && Sorted(Before, IdOf, s.completed)
    && Sorted(Before, IdOf, s.pending) && Sorted(Before, ActionIdOf, s.actions)
  }

  /** `n` is what sorting the lists of `s` may give, with equal keys in any order. */
  ghost predicate Normalizes(s: Snapshot, n: Snapshot) {
    SameUpToOrder(s, n) && ListsSorted(n)
  }

  lemma SubIdsDistinct(completed: seq<PlanStep>, pending: seq<PlanStep>)
    requires DistinctIds(completed + pending)
    ensures DistinctIds(completed) && DistinctIds(pending)
  {
    var all := completed + pending;
    forall i, j | 0 <= i < j < |completed| ensures IdOf(completed[i]) != IdOf(completed[j]) {
      assert all[i] == completed[i] && all[j] == completed[j];
    }
    forall i, j | 0 <= i < j < |pending| ensures IdOf(pending[i]) != IdOf(pending[j]) {
      assert all[|completed| + i] == pending[i] && all[|completed| + j] == pending[j];
    }
  }

  lemma SortedStepsAgree(a: seq<PlanStep>, b: seq<PlanStep>)
    requires Sorted(Before, IdOf, a) && Sorted(Before, IdOf, b) && multiset(a) == multiset(b) && DistinctIds(a)
    ensures a == b
  {
    BeforeIsTotalOrder();
    forall i, j | 0 <= i < j < |a| ensures Before(IdOf(a[i]), IdOf(a[j])) {
      assert !Before(IdOf(a[j]), IdOf(a[i])) && IdOf(a[i]) != IdOf(a[j]);
    }
    SortIsUnique(Before, IdOf, a, b);
  }

  lemma ValidSortIsForced(n: Snapshot, m: Snapshot)
    requires SameUpToOrder(n, m) && ListsSorted(n) && ListsSorted(m) && Valid(n)
    ensures n == m
  {
    BeforeIsTotalOrder();
    SubIdsDistinct(n.completed, n.pending);
    SortIsUnique(Before, PathOf, n.dirtyFiles, m.dirtyFiles);
    SortedStepsAgree(n.completed, m.completed);
    SortedStepsAgree(n.pending, m.pending);
    SortIsUnique(Before, ActionIdOf, n.actions, m.actions);
  }

  /**
   Neither the order of the lists nor the way equal keys are sorted can be seen: from snapshots
   that differ in order only, any two sorting routines lead to the same verdict and, when it is
   acceptance, to the same snapshot.
   */
  lemma OrderIsInvisible(s: Snapshot, t: Snapshot, n: Snapshot, m: Snapshot)
    requires SameUpToOrder(s, t) && Normalizes(s, n) && Normalizes(t, m)
    ensures Valid(n) <==> Valid(m)
    ensures Valid(n) ==> n == m
  {
    if Valid(n) { ValidSortIsForced(n, m); }
    if Valid(m) { ValidSortIsForced(m, n); }
  }

  // ---------------------------------------------------------------- canonical form

  function Normalized(s: Snapshot): Snapshot {
    s.(dirtyFiles := SortBy(Before, PathOf, s.dirtyFiles), completed := SortBy(Before, IdOf, s.completed),
       pending := SortBy(Before, IdOf, s.pending), actions := SortBy(Before, ActionIdOf, s.actions))
  }

  lemma NormalizedNormalizes(s: Snapshot)
    ensures Normalizes(s, Normalized(s))
  {
    BeforeIsTotalOrder();
    SortBySorts(Before, PathOf, s.dirtyFiles);
    SortBySorts(Before, IdOf, s.completed);
    SortBySorts(Before, IdOf, s.pending);
    SortBySorts(Before, ActionIdOf, s.actions);
  }

  /** The JSON encoder and decoder and the digest, as the callers of this module see them. */
  datatype Codec = Codec(encode: Snapshot -> string, decode: string -> Option<Snapshot>, digest: string -> string)

  /** Decoding undoes encoding, and a digest is 64 lowercase hexadecimal digits. */
  ghost predicate Faithful(c: Codec) {
    && (forall s :: c.decode(c.encode(s)) == Some(s))
    && (forall text :: ValidSHA256(c.digest(text)))
  }

  datatype State = State(snapshot: Snapshot, json: string, sha256: string)

  function Canonicalized(c: Codec, s: Snapshot): Option<State> {
    var n := Normalized(s);
    if Valid(n) then Some(State(n, c.encode(n), c.digest(c.encode(n)))) else None
  }

  /** A sorting routine that promises order and nothing about equal keys. */
  method SortFunc<T(==), K(!new)>(before: (K, K) -> bool, key: T -> K, xs: seq<T>) returns (ys: seq<T>)
    requires TotalOrder(before)
    ensures SortOf(before, key, xs, ys)
  {
    SortBySorts(before, key, xs);
    ys := SortBy(before, key, xs);
  }

  method Canonicalize(c: Codec, s: Snapshot) returns (r: Option<State>)
    ensures r == Canonicalized(c, s)
  {
    BeforeIsTotalOrder();
    var files := SortFunc(Before, PathOf, s.dirtyFiles);
    var completed := SortFunc(Before, IdOf, s.completed);
    var pending := SortFunc(Before, IdOf, s.pending);
    var actions := SortFunc(Before, ActionIdOf, s.actions);
    var n := s.(dirtyFiles := files, completed := completed, pending := pending, actions := actions);
    NormalizedNormalizes(s);
    OrderIsInvisible(s, s, n, Normalized(s));
    var ok := ValidateSnapshot(n);
    if !ok {
      return None;
    }
    var json := c.encode(n);
    return Some(State(n, json, c.digest(json)));
  }

  /** Reordering any of the four lists changes neither acceptance nor result. */
  lemma CanonicalizeIgnoresOrder(c: Codec, s: Snapshot, t: Snapshot)
    requires SameUpToOrder(s, t)
    ensures Canonicalized(c, s) == Canonicalized(c, t)
  {
    NormalizedNormalizes(s);
    NormalizedNormalizes(t);
    OrderIsInvisible(s, t, Normalized(s), Normalized(t));
  }

  /** Canonicalizing a canonical snapshot gives it back. */
  lemma CanonicalizeIsIdempotent(c: Codec, s: Snapshot)
    requires Canonicalized(c, s).Some?
    ensures Canonicalized(c, Canonicalized(c, s).value.snapshot) == Canonicalized(c, s)
  {
    NormalizedNormalizes(s);
    CanonicalizeIgnoresOrder(c, s, Normalized(s));
  }

  // ---------------------------------------------------------------- decoding

  function Decoded(c: Codec, text: string, sha256: string): Option<State> {
    if !ValidSHA256(sha256) then None
    else
      match c.decode(text)
      case None => None
      case Some(s) =>
        if s.schemaVersion != SCHEMA_VERSION then None
        else
          match Canonicalized(c, s)
          case None => None
          case Some(state) => if state.json == text && state.sha256 == sha256 then Some(state) else None
  }

  method DecodeCanonicalState(c: Codec, text: string, sha256: string) returns (r: Option<State>)
    ensures r == Decoded(c, text, sha256)
  {
    var decoded := c.decode(text);
    if !ValidSHA256(sha256) || decoded.None? || decoded.value.schemaVersion != SCHEMA_VERSION {
      return None;
    }
    var state := Canonicalize(c, decoded.value);
    if state.None? || state.value.json != text || state.value.sha256 != sha256 {
      return None;
    }
    return state;
  }

  /**
   A text is admitted exactly when it is the encoding of some canonicalized snapshot and the
   expected digest is its own; what is returned is that snapshot's canonical state.
   */
  lemma DecodesIffCanonical(c: Codec, text: string, sha256: string)
    requires Faithful(c)
    ensures Decoded(c, text, sha256).Some? <==> sha256 == c.digest(text) && exists s :: Encodes(c, s, text)
    ensures forall s :: Encodes(c, s, text) && sha256 == c.digest(text) ==> Decoded(c, text, sha256) == Canonicalized(c, s)
  {
    if Decoded(c, text, sha256).Some? {
      assert Encodes(c, c.decode(text).value, text);
    }
    forall s | Encodes(c, s, text) && sha256 == c.digest(text)
      ensures Decoded(c, text, sha256) == Canonicalized(c, s)
    {
      var state := Canonicalized(c, s).value;
      assert c.decode(c.encode(state.snapshot)) == Some(state.snapshot);
      CanonicalizeIsIdempotent(c, s);
    }
  }

  ghost predicate Encodes(c: Codec, s: Snapshot, text: string) {
    Canonicalized(c, s).Some? && Canonicalized(c, s).value.json == text
  }
}
