/**
 The application log: a bounded, rotating list of redacted records. Rotation compacts the
 backing array in place; over any sequence of operations the bound holds, nothing goes
 missing uncounted, and under a clock that does not run backward the log is a suffix of what
 was accepted.
 */
module AppLog {
  import opened Common
  import opened Text

  datatype Level = Error | Warn | Info | Debug

  /** Every level, most severe first. */
  const ALL_LEVELS: seq<Level> := [Error, Warn, Info, Debug]

  /** Where a level stands among them. */
  function Severity(level: Level): (n: nat)
    ensures n < |ALL_LEVELS| && ALL_LEVELS[n] == level
  {
    match level
    case Error => 0
    case Warn => 1
    case Info => 2
    case Debug => 3
  }

  datatype Record = Record(at: int, level: Level, event: string, message: string, taskID: string, fields: map<string, string>)

  type Redactor = string -> Option<string>

  const EVENT_NAMES: set<string> := {
    "application.started", "application.stopped", "migration.applied", "task.created", "task.state-changed",
    "plan.proposed", "approval.requested", "approval.resolved", "tool.started", "tool.completed",
    "provider.requested", "provider.failed", "budget.exhausted", "recovery.required", "worker.lease-lost",
    "logs.cleared"}

  const TASK_SCOPED_EVENTS: set<string> := {
    "task.created", "task.state-changed", "plan.proposed", "approval.requested", "approval.resolved",
    "tool.started", "tool.completed", "budget.exhausted", "recovery.required"}

  const FORBIDDEN_FIELD_NAMES: set<string> := {
    "prompt", "prompts", "completion", "response_text", "model_output", "source", "source_code",
    "file_contents", "diff", "patch", "requirement", "requirement_text", "command_output", "stdout", "stderr"}

  const DEFAULT_MAXIMUM_RECORDS: nat := 10_000
  const MINIMUM_RECORDS: nat := 100
  const HOUR: int := 3_600_000_000_000
  const DEFAULT_RETENTION: int := 14 * 24 * HOUR
  const MINIMUM_RETENTION: int := HOUR

  predicate Forbidden(name: string) {
    ToLower(Trim(name)) in FORBIDDEN_FIELD_NAMES
  }

  /** A record that can be filtered and attributed. */
  predicate ValidRecord(record: Record) {
    && record.at != 0 && record.event in EVENT_NAMES && Trim(record.message) != ""
    && (record.event in TASK_SCOPED_EVENTS ==> record.taskID != "")
    && forall name :: name in record.fields ==> Trim(name) != ""
  }

  predicate Redactable(redact: Redactor, record: Record) {
    redact(record.message).Some? && forall name :: name in record.fields ==> redact(record.fields[name]).Some?
  }

  /** The stored form: stamped by the logger's clock, every text redacted. */
  function Redacted(redact: Redactor, record: Record, at: int): (r: Record)
    requires Redactable(redact, record)
    ensures r.level == record.level && r.event == record.event && r.taskID == record.taskID && r.at == at
    ensures redact(record.message) == Some(r.message) && r.fields.Keys == record.fields.Keys
    ensures forall name :: name in r.fields ==> redact(record.fields[name]) == Some(r.fields[name])
  {
    record.(at := at, message := redact(record.message).value,
            fields := map name | name in record.fields :: redact(record.fields[name]).value)
  }

  /**
   No text that did not come out of the redactor, no field that may carry a prompt or source, and
   an event that is known and attributed to its task if it has one.
   */
  ghost predicate Clean(redact: Redactor, record: Record) {
    && record.event in EVENT_NAMES && (record.event in TASK_SCOPED_EVENTS ==> record.taskID != "")
    && (exists raw :: redact(raw) == Some(record.message))
    && (forall name :: name in record.fields ==> !Forbidden(name) && exists raw :: redact(raw) == Some(record.fields[name]))
  }

  lemma RedactedIsClean(redact: Redactor, record: Record, at: int)
    requires Redactable(redact, record) && ValidRecord(record) && forall name :: name in record.fields ==> !Forbidden(name)
    ensures Clean(redact, Redacted(redact, record, at))
  {
    var r := Redacted(redact, record, at);
    assert redact(record.message) == Some(r.message);
    forall name | name in r.fields ensures exists raw :: redact(raw) == Some(r.fields[name]) {
      assert redact(record.fields[name]) == Some(r.fields[name]);
    }
  }

  // ---------------------------------------------------------------- rotation, on values

  /** The records not older than the cutoff, in order. */
  function Kept(records: seq<Record>, cutoff: int): (r: seq<Record>)
    ensures |r| <= |records|
  {
    if records == [] then []
    else
      var rest := Kept(records[..|records| - 1], cutoff);
      var last := records[|records| - 1];
      if last.at < cutoff then rest else rest + [last]
  }

  function Newest(records: seq<Record>, maximum: nat): (r: seq<Record>)
    ensures |r| <= maximum && |r| <= |records|
  {
    if |records| > maximum then records[|records| - maximum..] else records
  }

  function Rotated(records: seq<Record>, cutoff: int, maximum: nat): (r: seq<Record>)
    ensures |r| <= maximum && |r| <= |records|
  {
    Newest(Kept(records, cutoff), maximum)
  }

  predicate Chronological(records: seq<Record>) {
    forall i, j :: 0 <= i < j < |records| ==> records[i].at <= records[j].at
  }

  predicate IsSuffix(part: seq<Record>, whole: seq<Record>) {
    |part| <= |whole| && part == whole[|whole| - |part|..]
  }

  lemma {:induction false} NothingKept(records: seq<Record>, cutoff: int)
    requires forall i :: 0 <= i < |records| ==> records[i].at < cutoff
    ensures Kept(records, cutoff) == []
  {
    if records != [] { NothingKept(records[..|records| - 1], cutoff); }
  }

  /** In chronological order, what retention keeps is a suffix. */
  lemma {:induction false} KeptIsSuffix(records: seq<Record>, cutoff: int)
    requires Chronological(records)
    ensures IsSuffix(Kept(records, cutoff), records)
  {
    if records != [] {
      var p, last := records[..|records| - 1], records[|records| - 1];
      if last.at < cutoff {
        NothingKept(records, cutoff);
      } else {
        KeptIsSuffix(p, cutoff);
        assert records == p + [last];
      }
    }
  }

  lemma SuffixTransitive(a: seq<Record>, b: seq<Record>, c: seq<Record>)
    requires IsSuffix(a, b) && IsSuffix(b, c)
    ensures IsSuffix(a, c)
  {
    assert b == c[|c| - |b|..];
    assert a == b[|b| - |a|..] == c[|c| - |a|..];
  }

  lemma RotatedIsSuffix(records: seq<Record>, cutoff: int, maximum: nat)
    requires Chronological(records)
    ensures IsSuffix(Rotated(records, cutoff, maximum), records)
  {
    KeptIsSuffix(records, cutoff);
    SuffixTransitive(Rotated(records, cutoff, maximum), Kept(records, cutoff), records);
  }

  lemma SuffixIsChronological(part: seq<Record>, whole: seq<Record>)
    requires IsSuffix(part, whole) && Chronological(whole)
    ensures Chronological(part)
  {
    assert forall i :: 0 <= i < |part| ==> part[i] == whole[|whole| - |part| + i];
  }

  /** Rotating a suffix of a chronological history leaves a suffix of it. */
  lemma SuffixRotated(part: seq<Record>, whole: seq<Record>, cutoff: int, maximum: nat)
    requires Chronological(whole) && IsSuffix(part, whole)
    ensures IsSuffix(Rotated(part, cutoff, maximum), whole)
  {
    SuffixIsChronological(part, whole);
    RotatedIsSuffix(part, cutoff, maximum);
    SuffixTransitive(Rotated(part, cutoff, maximum), part, whole);
  }

  /** Exactly the records that are young enough, no other. */
  lemma {:induction false} KeptMembers(records: seq<Record>, cutoff: int, r: Record)
    ensures r in Kept(records, cutoff) <==> r in records && r.at >= cutoff
  {
    if records != [] {
      var p, last := records[..|records| - 1], records[|records| - 1];
      KeptMembers(p, cutoff, r);
      assert records == p + [last];
    }
  }

  lemma RotatedMembers(records: seq<Record>, cutoff: int, maximum: nat, r: Record)
    requires r in Rotated(records, cutoff, maximum)
    ensures r in records
  {
    KeptMembers(records, cutoff, r);
  }

  // ---------------------------------------------------------------- what rotation keeps

  /** How many of the records are not expired. */
  function Young(records: seq<Record>, cutoff: int): nat {
    if records == [] then 0 else Young(records[1..], cutoff) + (if records[0].at < cutoff then 0 else 1)
  }

  /** The record is not expired and fewer than `maximum` unexpired records follow it. */
  predicate Survives(records: seq<Record>, cutoff: int, maximum: nat, i: nat) {
    i < |records| && records[i].at >= cutoff && Young(records[i + 1..], cutoff) < maximum
  }

  /** The records that survive, in order. */
  function SurvivorsOf(records: seq<Record>, cutoff: int, maximum: nat): seq<Record> {
    if records == [] then []
    else (if Survives(records, cutoff, maximum, 0) then [records[0]] else []) + SurvivorsOf(records[1..], cutoff, maximum)
  }

  lemma {:induction false} KeptFront(x: Record, rest: seq<Record>, cutoff: int)
    ensures Kept([x] + rest, cutoff) == (if x.at < cutoff then [] else [x]) + Kept(rest, cutoff)
  {
    var all := [x] + rest;
    if rest == [] {
      assert all == [x] && all[..0] == [];
    } else {
      var p, last := rest[..|rest| - 1], rest[|rest| - 1];
      assert all[..|all| - 1] == [x] + p && all[|all| - 1] == last;
      KeptFront(x, p, cutoff);
    }
  }

  lemma {:induction false} YoungKept(records: seq<Record>, cutoff: int)
    ensures |Kept(records, cutoff)| == Young(records, cutoff)
  {
    if records != [] {
      assert records == [records[0]] + records[1..];
      KeptFront(records[0], records[1..], cutoff);
      YoungKept(records[1..], cutoff);
    }
  }

  /** One more unexpired record in front is kept exactly if there is room for it. */
  lemma NewestFront(x: Record, kept: seq<Record>, maximum: nat)
    ensures Newest([x] + kept, maximum) == if |kept| < maximum then [x] + Newest(kept, maximum) else Newest(kept, maximum)
  {
    if |kept| >= maximum {
      assert ([x] + kept)[|kept| + 1 - maximum..] == kept[|kept| - maximum..];
    }
  }

  lemma RotatedFront(x: Record, rest: seq<Record>, cutoff: int, maximum: nat)
    ensures Rotated([x] + rest, cutoff, maximum) ==
            (if Survives([x] + rest, cutoff, maximum, 0) then [x] else []) + Rotated(rest, cutoff, maximum)
  {
    KeptFront(x, rest, cutoff);
    YoungKept(rest, cutoff);
    assert ([x] + rest)[1..] == rest;
    NewestFront(x, Kept(rest, cutoff), maximum);
    assert [] + Kept(rest, cutoff) == Kept(rest, cutoff);
  }

  /**
   Rotation keeps exactly the records that survive, in order: as many as there are unexpired ones,
   up to the bound.
   */
  lemma {:induction false} RotationKeepsSurvivors(records: seq<Record>, cutoff: int, maximum: nat)
    ensures Rotated(records, cutoff, maximum) == SurvivorsOf(records, cutoff, maximum)
    ensures |Rotated(records, cutoff, maximum)| ==
            if Young(records, cutoff) <= maximum then Young(records, cutoff) else maximum
  {
    YoungKept(records, cutoff);
    if records != [] {
      RotationKeepsSurvivors(records[1..], cutoff, maximum);
      assert records == [records[0]] + records[1..];
      RotatedFront(records[0], records[1..], cutoff, maximum);
    }
  }

  // ---------------------------------------------------------------- the log as a state machine

  /** `accepted` is everything stored since the last clear and `clock` the latest time it carries. */
  datatype LogState = LogState(
    contents: seq<Record>, accepted: seq<Record>, dropped: nat, clock: int,
    minimumLevel: Level, verbose: bool, maximumRecords: nat, retention: int)

  datatype Operation =
    | DoLog(record: Record, now: int, later: int)
    | DoClear
    | DoSetVerbose(on: bool)
    | DoApplySettings(maximum: int, period: int, at: int)

  /** Whether a log in this state stores the record. */
  predicate Stores(redact: Redactor, s: LogState, record: Record) {
    && ValidRecord(record) && (record.level == Debug ==> s.verbose)
    && Severity(record.level) <= Severity(s.minimumLevel)
    && (forall name :: name in record.fields ==> !Forbidden(name))
    && Redactable(redact, record)
  }

  function AfterRotate(s: LogState, now: int): LogState {
    var rotated := Rotated(s.contents, now - s.retention, s.maximumRecords);
    s.(contents := rotated, dropped := s.dropped + |s.contents| - |rotated|)
  }

  function AfterStore(s: LogState, record: Record, later: int): LogState {
    AfterRotate(s.(contents := s.contents + [record], accepted := s.accepted + [record], clock := record.at), later)
  }

  function Step(redact: Redactor, s: LogState, op: Operation): LogState {
    match op
    case DoLog(record, now, later) =>
      if Stores(redact, s, record) then AfterStore(s, Redacted(redact, record, now), later) else s
    case DoClear => s.(contents := [], accepted := [], dropped := 0)
    case DoSetVerbose(on) =>
      s.(verbose := on, minimumLevel := if !on && s.minimumLevel == Debug then Info else s.minimumLevel)
    case DoApplySettings(maximum, period, at) =>
      if maximum >= MINIMUM_RECORDS && period >= MINIMUM_RETENTION
      then AfterRotate(s.(maximumRecords := maximum, retention := period), at) else s
  }

  /** Bounded, fully accounted for, clean, and never filtering at debug by accident. */
  ghost predicate Sound(redact: Redactor, s: LogState) {
    && |s.contents| <= s.maximumRecords && s.maximumRecords > 0 && s.retention > 0
    && |s.accepted| == s.dropped + |s.contents|
    && (forall r :: r in s.contents ==> r in s.accepted)
    && (forall r :: r in s.accepted ==> Clean(redact, r))
    && (s.minimumLevel == Debug ==> s.verbose)
  }

  /** What is retained is the most recent part of what was accepted. */
  ghost predicate InOrder(s: LogState) {
    && Chronological(s.accepted) && IsSuffix(s.contents, s.accepted)
    && forall r :: r in s.accepted ==> r.at <= s.clock
  }

  /** Switching verbosity decides about debug records only, and when it is off none is stored. */
  lemma VerbosityGatesDebug(redact: Redactor, s: LogState, on: bool, record: Record)
    requires Sound(redact, s)
    ensures var n := Step(redact, s, DoSetVerbose(on));
            && (record.level != Debug ==> (Stores(redact, n, record) <==> Stores(redact, s, record)))
            && (!on && record.level == Debug ==> !Stores(redact, n, record))
            && n.contents == s.contents && n.verbose == on
  {}

  lemma RotateKeepsOrder(s: LogState, now: int)
    requires InOrder(s)
    ensures InOrder(AfterRotate(s, now))
  {
    var n := AfterRotate(s, now);
    assert n.accepted == s.accepted && n.clock == s.clock;
    assert IsSuffix(n.contents, n.accepted) by {
      SuffixRotated(s.contents, s.accepted, now - s.retention, s.maximumRecords);
    }
  }

  lemma RotateKeeps(redact: Redactor, s: LogState, now: int)
    requires |s.accepted| == s.dropped + |s.contents| && s.maximumRecords > 0 && s.retention > 0
    requires forall r :: r in s.contents ==> r in s.accepted
    requires forall r :: r in s.accepted ==> Clean(redact, r)
    requires s.minimumLevel == Debug ==> s.verbose
    ensures Sound(redact, AfterRotate(s, now))
    ensures InOrder(s) ==> InOrder(AfterRotate(s, now))
  {
    if InOrder(s) {
      RotateKeepsOrder(s, now);
    }
    var rotated := Rotated(s.contents, now - s.retention, s.maximumRecords);
    forall r | r in rotated ensures r in s.accepted {
      RotatedMembers(s.contents, now - s.retention, s.maximumRecords, r);
    }
  }

  lemma StoreKeeps(redact: Redactor, s: LogState, record: Record, later: int)
    requires Sound(redact, s) && Clean(redact, record)
    ensures Sound(redact, AfterStore(s, record, later))
    ensures InOrder(s) && s.clock <= record.at ==> InOrder(AfterStore(s, record, later))
  {
    var grown := s.(contents := s.contents + [record], accepted := s.accepted + [record], clock := record.at);
    if InOrder(s) && s.clock <= record.at {
      forall i, j | 0 <= i < j < |grown.accepted| ensures grown.accepted[i].at <= grown.accepted[j].at {
        assert grown.accepted[i] in s.accepted;
      }
      assert IsSuffix(grown.contents, grown.accepted);
    }
    RotateKeeps(redact, grown, later);
  }

  /** Every operation keeps the log sound, and in order unless its clock ran backward. */
  lemma StepKeeps(redact: Redactor, s: LogState, op: Operation)
    requires Sound(redact, s)
    ensures Sound(redact, Step(redact, s, op))
    ensures InOrder(s) && (op.DoLog? ==> s.clock <= op.now) ==> InOrder(Step(redact, s, op))
  {
    match op
    case DoLog(record, now, later) =>
      if Stores(redact, s, record) {
        RedactedIsClean(redact, record, now);
        StoreKeeps(redact, s, Redacted(redact, record, now), later);
      }
    case DoClear =>
    case DoSetVerbose(on) =>
    case DoApplySettings(maximum, period, at) =>
      if maximum >= MINIMUM_RECORDS && period >= MINIMUM_RETENTION {
        var changed := s.(maximumRecords := maximum, retention := period);
        assert InOrder(s) ==> InOrder(changed);
        RotateKeeps(redact, changed, at);
      }
  }

  function Steps(redact: Redactor, s: LogState, ops: seq<Operation>): LogState
    decreases ops
  {
    if ops == [] then s else Steps(redact, Step(redact, s, ops[0]), ops[1..])
  }

  /** The clock never shows an earlier time than one it has shown. */
  predicate ClockForward(clock: int, ops: seq<Operation>)
    decreases ops
  {
    if ops == [] then true
    else if ops[0].DoLog? then clock <= ops[0].now && ClockForward(ops[0].now, ops[1..])
    else ClockForward(clock, ops[1..])
  }

  lemma {:induction false} ClockForwardEarlier(early: int, late: int, ops: seq<Operation>)
    requires early <= late && ClockForward(late, ops)
    ensures ClockForward(early, ops)
    decreases ops
  {
    if ops != [] && !ops[0].DoLog? { ClockForwardEarlier(early, late, ops[1..]); }
  }

  lemma StepClock(redact: Redactor, s: LogState, op: Operation)
    ensures Step(redact, s, op).clock == s.clock || (op.DoLog? && Step(redact, s, op).clock == op.now)
  {}

  lemma ClockAfterStep(redact: Redactor, s: LogState, ops: seq<Operation>)
    requires ops != [] && ClockForward(s.clock, ops)
    ensures ClockForward(Step(redact, s, ops[0]).clock, ops[1..])
  {
    StepClock(redact, s, ops[0]);
    if ops[0].DoLog? {
      ClockForwardEarlier(Step(redact, s, ops[0]).clock, ops[0].now, ops[1..]);
    }
  }

  /** Over any operations the log stays sound. */
  lemma {:induction false} EveryHistoryIsSound(redact: Redactor, s: LogState, ops: seq<Operation>)
    requires Sound(redact, s)
    ensures Sound(redact, Steps(redact, s, ops))
    decreases ops
  {
    if ops != [] {
      StepKeeps(redact, s, ops[0]);
      EveryHistoryIsSound(redact, Step(redact, s, ops[0]), ops[1..]);
    }
  }

  /** With a clock that does not run backward, the log stays a suffix of its history. */
  lemma {:induction false} EveryHistoryIsInOrder(redact: Redactor, s: LogState, ops: seq<Operation>)
    requires Sound(redact, s) && InOrder(s) && ClockForward(s.clock, ops)
    ensures InOrder(Steps(redact, s, ops))
    decreases ops
  {
    if ops != [] {
      StepKeeps(redact, s, ops[0]);
      ClockAfterStep(redact, s, ops);
      EveryHistoryIsInOrder(redact, Step(redact, s, ops[0]), ops[1..]);
    }
  }

  // ---------------------------------------------------------------- what a history leaves

  /** A rotation: how much had been accepted by then, and the bounds it applied. */
  datatype Rotation = Rotation(accepted: nat, cutoff: int, maximum: nat)

  /** The rotations since the last clear, given those before the step. */
  function RotationsAfter(redact: Redactor, s: LogState, rotations: seq<Rotation>, op: Operation): seq<Rotation> {
    match op
    case DoLog(record, _, later) =>
      if Stores(redact, s, record) then rotations + [Rotation(|s.accepted| + 1, later - s.retention, s.maximumRecords)]
      else rotations
    case DoClear => []
    case DoSetVerbose(_) => rotations
    case DoApplySettings(maximum, period, at) =>
      if maximum >= MINIMUM_RECORDS && period >= MINIMUM_RETENTION
      then rotations + [Rotation(|s.accepted|, at - period, maximum)] else rotations
  }

  function Rotations(redact: Redactor, s: LogState, rotations: seq<Rotation>, ops: seq<Operation>): seq<Rotation>
    decreases ops
  {
    if ops == [] then rotations
    else Rotations(redact, Step(redact, s, ops[0]), RotationsAfter(redact, s, rotations, ops[0]), ops[1..])
  }

  /** The rotation leaves the `i`-th accepted record: it is not expired, and not among too many newer ones. */
  predicate Spares(accepted: seq<Record>, rotation: Rotation, i: nat)
    requires i < |accepted|
  {
    i < rotation.accepted ==> accepted[i].at >= rotation.cutoff && rotation.accepted - i <= rotation.maximum
  }

  ghost predicate AllSpare(accepted: seq<Record>, rotations: seq<Rotation>, i: nat)
    requires i < |accepted|
  {
    forall k :: 0 <= k < |rotations| ==> Spares(accepted, rotations[k], i)
  }

  /** The last `kept` records are exactly those every rotation so far has spared. */
  ghost predicate Exact(accepted: seq<Record>, kept: nat, rotations: seq<Rotation>) {
    && (forall k :: 0 <= k < |rotations| ==> rotations[k].accepted <= |accepted|)
    && forall i: nat | i < |accepted| :: AllSpare(accepted, rotations, i) <==> i >= |accepted| - kept
  }

  lemma {:induction false} YoungSuffix(records: seq<Record>, cutoff: int)
    requires Chronological(records) && (records != [] ==> records[0].at >= cutoff)
    ensures Young(records, cutoff) == |records|
  {
    if records != [] {
      assert forall i :: 0 <= i < |records| - 1 ==> records[1..][i] == records[i + 1];
      YoungSuffix(records[1..], cutoff);
    }
  }

  /** In chronological order the unexpired records are the last ones. */
  lemma {:induction false} YoungAreLast(records: seq<Record>, cutoff: int, i: nat)
    requires Chronological(records) && i < |records|
    ensures records[i].at >= cutoff <==> i >= |records| - Young(records, cutoff)
  {
    var rest := records[1..];
    assert forall j :: 0 <= j < |rest| ==> rest[j] == records[j + 1];
    if records[0].at >= cutoff {
      YoungSuffix(records, cutoff);
    } else if i > 0 {
      YoungAreLast(rest, cutoff, i - 1);
    } else {
      YoungKept(rest, cutoff);
    }
  }

  /** One rotation of a suffix of the history drops exactly what it does not spare. */
  lemma RotationSpares(contents: seq<Record>, accepted: seq<Record>, cutoff: int, maximum: nat, i: nat)
    requires Chronological(accepted) && IsSuffix(contents, accepted) && i < |accepted|
    ensures i >= |accepted| - |Rotated(contents, cutoff, maximum)| <==>
            i >= |accepted| - |contents| && Spares(accepted, Rotation(|accepted|, cutoff, maximum), i)
  {
    SuffixIsChronological(contents, accepted);
    RotationKeepsSurvivors(contents, cutoff, maximum);
    var d := |accepted| - |contents|;
    if i >= d {
      assert contents[i - d] == accepted[i];
      YoungAreLast(contents, cutoff, i - d);
    }
  }

  lemma AllSpareNext(accepted: seq<Record>, rotations: seq<Rotation>, rotation: Rotation, i: nat)
    requires i < |accepted|
    ensures AllSpare(accepted, rotations + [rotation], i) <==> AllSpare(accepted, rotations, i) && Spares(accepted, rotation, i)
  {
    var more := rotations + [rotation];
    assert more[|rotations|] == rotation;
    assert forall k :: 0 <= k < |rotations| ==> more[k] == rotations[k];
  }

  lemma RotateIsExact(contents: seq<Record>, accepted: seq<Record>, rotations: seq<Rotation>, cutoff: int, maximum: nat)
    requires Chronological(accepted) && IsSuffix(contents, accepted) && Exact(accepted, |contents|, rotations)
    ensures Exact(accepted, |Rotated(contents, cutoff, maximum)|, rotations + [Rotation(|accepted|, cutoff, maximum)])
  {
    var rotation := Rotation(|accepted|, cutoff, maximum);
    forall i: nat | i < |accepted|
      ensures AllSpare(accepted, rotations + [rotation], i) <==> i >= |accepted| - |Rotated(contents, cutoff, maximum)|
    {
      RotationSpares(contents, accepted, cutoff, maximum, i);
      AllSpareNext(accepted, rotations, rotation, i);
    }
  }

  /** Storing a record leaves what was dropped dropped. */
  lemma GrownIsExact(accepted: seq<Record>, kept: nat, rotations: seq<Rotation>, record: Record)
    requires Exact(accepted, kept, rotations)
    ensures Exact(accepted + [record], kept + 1, rotations)
  {
    var grown := accepted + [record];
    forall i: nat | i < |grown| ensures AllSpare(grown, rotations, i) <==> i >= |grown| - (kept + 1) {
      if i < |accepted| {
        assert grown[i] == accepted[i];
        assert AllSpare(grown, rotations, i) <==> AllSpare(accepted, rotations, i);
      }
    }
  }

  lemma GrownInOrder(s: LogState, record: Record)
    requires InOrder(s) && s.clock <= record.at
    ensures Chronological(s.accepted + [record]) && IsSuffix(s.contents + [record], s.accepted + [record])
  {
    var grown := s.accepted + [record];
    forall i, j | 0 <= i < j < |grown| ensures grown[i].at <= grown[j].at {
      assert grown[i] in s.accepted;
    }
  }

  lemma StoreIsExact(s: LogState, rotations: seq<Rotation>, record: Record, later: int)
    requires InOrder(s) && Exact(s.accepted, |s.contents|, rotations) && s.clock <= record.at
    ensures var n := AfterStore(s, record, later);
            Exact(n.accepted, |n.contents|, rotations + [Rotation(|s.accepted| + 1, later - s.retention, s.maximumRecords)])
  {
    GrownInOrder(s, record);
    GrownIsExact(s.accepted, |s.contents|, rotations, record);
    RotateIsExact(s.contents + [record], s.accepted + [record], rotations, later - s.retention, s.maximumRecords);
  }

  lemma LogIsExact(redact: Redactor, s: LogState, rotations: seq<Rotation>, op: Operation)
    requires op.DoLog? && InOrder(s) && Exact(s.accepted, |s.contents|, rotations) && s.clock <= op.now
    ensures var n := Step(redact, s, op);
            Exact(n.accepted, |n.contents|, RotationsAfter(redact, s, rotations, op))
  {
    if Stores(redact, s, op.record) {
      StoreIsExact(s, rotations, Redacted(redact, op.record, op.now), op.later);
    }
  }

  lemma StepIsExact(redact: Redactor, s: LogState, rotations: seq<Rotation>, op: Operation)
    requires InOrder(s) && Exact(s.accepted, |s.contents|, rotations) && (op.DoLog? ==> s.clock <= op.now)
    ensures var n := Step(redact, s, op);
            Exact(n.accepted, |n.contents|, RotationsAfter(redact, s, rotations, op))
  {
    if op.DoLog? {
      LogIsExact(redact, s, rotations, op);
    } else if op.DoApplySettings? {
      RotateIsExact(s.contents, s.accepted, rotations, op.at - op.period, if op.maximum >= 0 then op.maximum else 0);
    }
  }

  /**
   With a clock that does not run backward, a record is gone exactly if some rotation since it was
   stored found it expired, or found at least as many newer records as the bound then was.
   */
  lemma {:induction false} EveryHistoryIsExact(redact: Redactor, s: LogState, rotations: seq<Rotation>, ops: seq<Operation>)
    requires Sound(redact, s) && InOrder(s) && Exact(s.accepted, |s.contents|, rotations) && ClockForward(s.clock, ops)
    ensures var n := Steps(redact, s, ops);
            Exact(n.accepted, |n.contents|, Rotations(redact, s, rotations, ops))
    decreases ops
  {
    if ops != [] {
      StepKeeps(redact, s, ops[0]);
      StepIsExact(redact, s, rotations, ops[0]);
      ClockAfterStep(redact, s, ops);
      EveryHistoryIsExact(redact, Step(redact, s, ops[0]), RotationsAfter(redact, s, rotations, ops[0]), ops[1..]);
    }
  }

  /** When no earlier rotation applied tighter bounds, the latest one alone says what is retained. */
  lemma LatestRotationDecides(accepted: seq<Record>, kept: nat, rotations: seq<Rotation>, latest: Rotation, i: nat)
    requires Exact(accepted, kept, rotations + [latest]) && latest.accepted == |accepted| && i < |accepted|
    requires forall k :: 0 <= k < |rotations| ==> rotations[k].cutoff <= latest.cutoff && latest.maximum <= rotations[k].maximum
    ensures i >= |accepted| - kept <==> accepted[i].at >= latest.cutoff && |accepted| - i <= latest.maximum
  {
    var all := rotations + [latest];
    assert all[|rotations|] == latest;
    assert forall k :: 0 <= k < |rotations| ==> all[k] == rotations[k] && all[k].accepted <= |accepted|;
    AllSpareNext(accepted, rotations, latest, i);
    if Spares(accepted, latest, i) {
      assert AllSpare(accepted, rotations, i);
    }
  }

  // ---------------------------------------------------------------- rotation, in place

  /** Moves the records to keep to the front of the array; the rest of the prefix is garbage. */
  method Compact(buffer: array<Record>, length: nat, cutoff: int) returns (kept: nat)
    requires length <= buffer.Length
    modifies buffer
    ensures kept <= length && buffer[..kept] == Kept(old(buffer[..length]), cutoff)
  {
    ghost var before := buffer[..length];
    kept := 0;
    for i := 0 to length
      invariant kept <= i
      invariant buffer[..kept] == Kept(before[..i], cutoff)
      invariant forall j :: i <= j < length ==> buffer[j] == before[j]
    {
      assert before[..i + 1][..i] == before[..i];
      ghost var done := buffer[..kept];
      if buffer[i].at >= cutoff {
        buffer[kept] := buffer[i];
        assert buffer[..kept] == done;
        assert buffer[..kept + 1] == done + [before[i]];
        kept := kept + 1;
      }
    }
    assert before[..length] == before;
  }

  /** Slides the newest records down over the ones dropped by the bound. */
  method KeepNewest(buffer: array<Record>, length: nat, maximum: nat) returns (kept: nat)
    requires length <= buffer.Length
    modifies buffer
    ensures kept <= length && buffer[..kept] == Newest(old(buffer[..length]), maximum)
  {
    if length <= maximum {
      return length;
    }
    ghost var before := buffer[..length];
    var excess := length - maximum;
    for j := 0 to maximum
      invariant forall k :: 0 <= k < j ==> buffer[k] == before[excess + k]
      invariant forall k :: j <= k < length ==> buffer[k] == before[k]
    {
      buffer[j] := buffer[j + excess];
    }
    assert buffer[..maximum] == before[excess..];
    return maximum;
  }

  /** Both passes of rotation, over one array. */
  method RotateBuffer(buffer: array<Record>, length: nat, cutoff: int, maximum: nat) returns (newest: nat)
    requires length <= buffer.Length
    modifies buffer
    ensures newest <= length && buffer[..newest] == Rotated(old(buffer[..length]), cutoff, maximum)
  {
    ghost var before := buffer[..length];
    var kept := Compact(buffer, length, cutoff);
    ghost var young := buffer[..kept];
    assert young == Kept(before, cutoff);
    newest := KeepNewest(buffer, kept, maximum);
    assert buffer[..newest] == Newest(young, maximum);
  }

  class Logger {
    const redact: Redactor
    var minimumLevel: Level
    var verbose: bool
    var maximumRecords: nat
    var retention: int
    var buffer: array<Record>
    var length: nat
    var dropped: nat
    ghost var accepted: seq<Record>
    ghost var clock: int

    ghost function State(): LogState
      requires length <= buffer.Length
      reads this, buffer
    {
      LogState(buffer[..length], accepted, dropped, clock, minimumLevel, verbose, maximumRecords, retention)
    }

    ghost predicate Valid()
      reads this, buffer
    {
      length <= buffer.Length && Sound(redact, State())
    }

    constructor (redact: Redactor, minimumLevel: Level, verbose: bool, maximumRecords: int, retention: int)
      requires minimumLevel == Debug ==> verbose
      ensures Valid() && fresh(buffer) && InOrder(State())
      ensures this.redact == redact
      ensures State() == LogState([], [], 0, 0, minimumLevel, verbose,
                                  if maximumRecords <= 0 then DEFAULT_MAXIMUM_RECORDS else maximumRecords,
                                  if retention <= 0 then DEFAULT_RETENTION else retention)
    {
      this.redact := redact;
      this.minimumLevel := minimumLevel;
      this.verbose := verbose;
      this.maximumRecords := if maximumRecords <= 0 then DEFAULT_MAXIMUM_RECORDS else maximumRecords;
      this.retention := if retention <= 0 then DEFAULT_RETENTION else retention;
      buffer := new Record[0];
      length, dropped, accepted, clock := 0, 0, [], 0;
    }

    /** Appends as a growing slice does: in place while there is room, else into a larger array. */
    method Append(record: Record)
      requires length <= buffer.Length
      modifies this`buffer, this`length, buffer
      ensures length <= buffer.Length && buffer[..length] == old(buffer[..length]) + [record]
      ensures buffer == old(buffer) || fresh(buffer)
    {
      if length == buffer.Length {
        var larger := new Record[2 * length + 1];
        for i := 0 to length
          modifies larger
          invariant forall k :: 0 <= k < i ==> larger[k] == buffer[k]
        {
          larger[i] := buffer[i];
        }
        assert larger[..length] == buffer[..length];
        buffer := larger;
      }
      buffer[length] := record;
      length := length + 1;
      assert buffer[..length] == buffer[..length - 1] + [record];
    }

    /** Applies retention and the record bound, counting what it drops. */
    method Rotate(now: int)
      requires length <= buffer.Length
      modifies this`length, this`dropped, buffer
      ensures length <= buffer.Length && State() == AfterRotate(old(State()), now)
    {
      var newest := RotateBuffer(buffer, length, now - retention, maximumRecords);
      dropped := dropped + (length - newest);
      length := newest;
    }

    /** Redacts and stores one record at `now`, then rotates at `later`. */
    method Log(record: Record, now: int, later: int) returns (stored: bool)
      requires Valid()
      modifies this, buffer
      ensures Valid() && State() == Step(redact, old(State()), DoLog(record, now, later))
      ensures stored <==> Stores(redact, old(State()), record)
      ensures buffer == old(buffer) || fresh(buffer)
    {
      StepKeeps(redact, State(), DoLog(record, now, later));
      if !ValidRecord(record) || (record.level == Debug && !verbose) || Severity(record.level) > Severity(minimumLevel) {
        return false;
      }
      if !(forall name :: name in record.fields ==> !Forbidden(name)) || !Redactable(redact, record) {
        return false;
      }
      Store(Redacted(redact, record, now), later);
      return true;
    }

    method Store(record: Record, later: int)
      requires length <= buffer.Length
      modifies this, buffer
      ensures length <= buffer.Length && State() == AfterStore(old(State()), record, later)
      ensures buffer == old(buffer) || fresh(buffer)
    {
      Append(record);
      accepted := accepted + [record];
      clock := record.at;
      Rotate(later);
    }

    /** Removes everything and forgets what was dropped. */
    method Clear() returns (cleared: nat)
      requires Valid()
      modifies this
      ensures Valid() && State() == Step(redact, old(State()), DoClear)
      ensures cleared == old(length) && fresh(buffer)
    {
      cleared := length;
      buffer := new Record[0];
      length, dropped, accepted := 0, 0, [];
    }

    /** Switches debug logging; a debug filter does not survive switching it off. */
    method SetVerbose(on: bool)
      requires Valid()
      modifies this`verbose, this`minimumLevel
      ensures Valid() && State() == Step(redact, old(State()), DoSetVerbose(on))
    {
      verbose := on;
      if !on && minimumLevel == Debug {
        minimumLevel := Info;
      }
    }

    /** Changes the bounds and rotates at once, or refuses and changes nothing. */
    method ApplySettings(maximum: int, period: int, now: int) returns (ok: bool)
      requires Valid()
      modifies this, buffer
      ensures Valid() && State() == Step(redact, old(State()), DoApplySettings(maximum, period, now))
      ensures ok <==> maximum >= MINIMUM_RECORDS && period >= MINIMUM_RETENTION
    {
      StepKeeps(redact, State(), DoApplySettings(maximum, period, now));
      if maximum < MINIMUM_RECORDS || period < MINIMUM_RETENTION {
        return false;
      }
      maximumRecords, retention := maximum, period;
      Rotate(now);
      return true;
    }
  }

  /** The level a name stands for; an empty one stands for the default. */
  function LevelNamed(name: string): Option<Level> {
    if name == "error" then Some(Error)
    else if name == "warn" then Some(Warn)
    else if name == "info" || name == "" then Some(Info)
    else if name == "debug" then Some(Debug)
    else None
  }

  /**
   Builds a logger. Without a redactor or a clock, with an unknown level, or with a debug filter
   nobody asked for, there is none.
   */
  method New(redact: Option<Redactor>, hasClock: bool, minimumLevel: string, verbose: bool, maximumRecords: int, retention: int)
    returns (r: Option<Logger>)
    ensures r.Some? <==>
            && redact.Some? && hasClock && LevelNamed(minimumLevel).Some?
            && (LevelNamed(minimumLevel) == Some(Debug) ==> verbose)
    ensures r.Some? ==>
              && fresh(r.value) && fresh(r.value.buffer) && r.value.Valid() && InOrder(r.value.State())
              && r.value.redact == redact.value
              && r.value.State() == LogState([], [], 0, 0, LevelNamed(minimumLevel).value, verbose,
                                             if maximumRecords <= 0 then DEFAULT_MAXIMUM_RECORDS else maximumRecords,
                                             if retention <= 0 then DEFAULT_RETENTION else retention)
  {
    var level := LevelNamed(minimumLevel);
    if redact.None? || !hasClock || level.None? || (level == Some(Debug) && !verbose) {
      return None;
    }
    var logger := new Logger(redact.value, level.value, verbose, maximumRecords, retention);
    return Some(logger);
  }
}
