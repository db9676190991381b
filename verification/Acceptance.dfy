/**
 The acceptance gate: live checks must be exactly the reviewed ones, and acceptance is open
 exactly when nothing is stale, running or blocking and every failed or waived check is
 acknowledged, no more and no fewer.
 */
module Acceptance {
  import opened Common
  import opened Text

  datatype CheckStatus =
    | Pending | Running | Passed | Failed | Waived | Skipped | Unavailable | Cancelled | Invalidated
    | UnknownStatus(name: string)

  datatype RequiredCheck = RequiredCheck(id: string, status: CheckStatus)

  datatype Review = Review(
    id: string, taskID: string, revision: nat, reportID: string, diffIdentity: string, planRevision: nat,
    requiredChecks: seq<RequiredCheck>, openedBy: string, idempotencyKey: string, openedAtUTC: bool)

  datatype Gate = Gate(
    canAccept: bool, stale: bool, running: seq<string>, acknowledgement: seq<string>, blocking: seq<string>)

  datatype Evaluation = Evaluated(gate: Gate) | InvalidReview

  datatype GateError = StaleReview | ValidationRunning | AcknowledgementNeeded | RequiredCheckBlocked

  const MAXIMUM_CHECKS := 1024
  const MAXIMUM_IDENTITY_TEXT := 255

  predicate ValidDigest(s: string) {
    |s| == 64 && forall i :: 0 <= i < |s| ==> '0' <= s[i] <= '9' || 'a' <= s[i] <= 'f'
  }

  predicate IsControl(c: char) {
    c as int < 0x20 || 0x7F <= c as int <= 0x9F
  }

  /** Non-empty, trimmed, bounded text without control characters. */
  predicate BoundedText(s: string) {
    s != "" && Trimmed(s) && ByteLength(s) <= MAXIMUM_IDENTITY_TEXT && forall i :: 0 <= i < |s| ==> !IsControl(s[i])
  }

  function IDs(checks: seq<RequiredCheck>): (ids: seq<string>)
    ensures |ids| == |checks| && forall i :: 0 <= i < |ids| ==> ids[i] == checks[i].id
  {
    seq(|checks|, i requires 0 <= i < |checks| => checks[i].id)
  }

  function Elements<T>(s: seq<T>): set<T> {
    set x | x in s
  }

  /** Checks that are named, known and all different. */
  ghost predicate ValidChecks(checks: seq<RequiredCheck>) {
    && (forall i :: 0 <= i < |checks| ==> BoundedText(checks[i].id) && !checks[i].status.UnknownStatus?)
    && Distinct(IDs(checks))
  }

  ghost predicate ValidReview(review: Review) {
    && ValidHeader(review)
    && ValidChecks(review.requiredChecks)
  }

  /** Acceptance waits for these. */
  predicate IsRunning(status: CheckStatus) {
    status == Pending || status == Running
  }

  /** These may be accepted when someone acknowledges them. */
  predicate Acknowledgeable(status: CheckStatus) {
    status == Failed || status == Waived
  }

  predicate IsBlocking(status: CheckStatus) {
    status == Skipped || status == Unavailable || status == Cancelled || status == Invalidated
  }

  ghost function AcknowledgeableIDs(checks: seq<RequiredCheck>): set<string> {
    set i | 0 <= i < |checks| && Acknowledgeable(checks[i].status) :: checks[i].id
  }

  // ---------------------------------------------------------------- pigeonhole

  lemma {:induction false} ElementsSize<T>(s: seq<T>)
    ensures |Elements(s)| <= |s|
    ensures |Elements(s)| == |s| <==> Distinct(s)
  {
    if s != [] {
      var p, x := s[..|s| - 1], s[|s| - 1];
      ElementsSize(p);
      assert Elements(s) == Elements(p) + {x};
      if x in p {
        var i :| 0 <= i < |p| && p[i] == x;
        assert Elements(s) == Elements(p);
        assert s[i] == s[|s| - 1];
      } else {
        assert |Elements(s)| == |Elements(p)| + 1;
        assert Distinct(p) ==> Distinct(s);
        assert Distinct(s) ==> Distinct(p) by {
          if Distinct(s) { assert forall i :: 0 <= i < |p| ==> p[i] == s[i]; }
        }
      }
    }
  }

  lemma SubsetSize<T>(a: set<T>, b: set<T>)
    requires a <= b
    ensures |a| <= |b|
    ensures |a| == |b| ==> a == b
  {
    assert b == a + (b - a);
    assert |b| == |a| + |b - a|;
  }

  /** As many distinct values, all drawn from the other list, can only be a reordering of it. */
  lemma Pigeonhole<T>(reviewed: seq<T>, live: seq<T>)
    ensures (|reviewed| == |live| && Distinct(live) && Elements(live) <= Elements(reviewed))
            <==> (Distinct(reviewed) && Distinct(live) && Elements(live) == Elements(reviewed))
  {
    ElementsSize(reviewed);
    ElementsSize(live);
    if |reviewed| == |live| && Distinct(live) && Elements(live) <= Elements(reviewed) {
      SubsetSize(Elements(live), Elements(reviewed));
    }
  }

  // ---------------------------------------------------------------- the live check set

  /** Accepts the live checks exactly when they are the reviewed ones, each once. */
  method ExactRequiredCheckSet(reviewed: seq<RequiredCheck>, live: seq<RequiredCheck>) returns (ok: bool)
    ensures ok <==>
            && Distinct(IDs(reviewed)) && Distinct(IDs(live))
            && Elements(IDs(live)) == Elements(IDs(reviewed))
            && forall i :: 0 <= i < |live| ==> !live[i].status.UnknownStatus?
  {
    Pigeonhole(IDs(reviewed), IDs(live));
    if |reviewed| != |live| {
      return false;
    }
    var ids := Elements(IDs(reviewed));
    var seen: set<string> := {};
    for i := 0 to |live|
      invariant forall j :: 0 <= j < i ==> !live[j].status.UnknownStatus? && live[j].id in ids && live[j].id in seen
      invariant forall x :: x in seen ==> exists j :: 0 <= j < i && live[j].id == x
      invariant forall j, k :: 0 <= j < k < i ==> live[j].id != live[k].id
    {
      if live[i].status.UnknownStatus? {
        return false;
      }
      if live[i].id !in ids {
        assert IDs(live)[i] in Elements(IDs(live));
        return false;
      }
      if live[i].id in seen {
        assert exists j :: 0 <= j < i && IDs(live)[j] == IDs(live)[i];
        return false;
      }
      seen := seen + {live[i].id};
    }
    return true;
  }

  // ---------------------------------------------------------------- the review

  predicate ValidHeader(review: Review) {
    && ValidDigest(review.id) && review.taskID != "" && review.revision != 0
    && ValidDigest(review.reportID) && ValidDigest(review.diffIdentity) && review.planRevision != 0
    && review.openedAtUTC && BoundedText(review.openedBy) && BoundedText(review.idempotencyKey)
    && |review.requiredChecks| <= MAXIMUM_CHECKS
  }

  method Validate(review: Review) returns (ok: bool)
    ensures ok <==> ValidReview(review)
  {
    if !ValidHeader(review) {
      return false;
    }
    ok := ValidateChecks(review.requiredChecks);
  }

  method ValidateChecks(checks: seq<RequiredCheck>) returns (ok: bool)
    ensures ok <==> ValidChecks(checks)
  {
    var seen: set<string> := {};
    for i := 0 to |checks|
      invariant forall j :: 0 <= j < i ==> checks[j].id in seen
      invariant forall id :: id in seen ==> exists j :: 0 <= j < i && checks[j].id == id
      invariant forall j :: 0 <= j < i ==> BoundedText(checks[j].id) && !checks[j].status.UnknownStatus?
      invariant forall j, k :: 0 <= j < k < i ==> checks[j].id != checks[k].id
    {
      if !BoundedText(checks[i].id) || checks[i].status.UnknownStatus? {
        return false;
      }
      if checks[i].id in seen {
        ghost var j :| 0 <= j < i && checks[j].id == checks[i].id;
        assert IDs(checks)[j] == IDs(checks)[i];
        return false;
      }
      seen := seen + {checks[i].id};
    }
    return true;
  }

  // ---------------------------------------------------------------- the gate

  /** Acknowledgements collected into a set, or nothing when one is malformed or repeated. */
  method CollectAcknowledgements(acknowledgements: seq<string>) returns (r: Option<set<string>>)
    ensures r.Some? <==> Distinct(acknowledgements)
                         && forall i :: 0 <= i < |acknowledgements| ==> BoundedText(acknowledgements[i])
    ensures r.Some? ==> r.value == Elements(acknowledgements)
  {
    var acknowledged: set<string> := {};
    for i := 0 to |acknowledgements|
      invariant acknowledged == Elements(acknowledgements[..i])
      invariant forall j :: 0 <= j < i ==> BoundedText(acknowledgements[j])
      invariant forall j, k :: 0 <= j < k < i ==> acknowledgements[j] != acknowledgements[k]
    {
      if !BoundedText(acknowledgements[i]) {
        return None;
      }
      if acknowledgements[i] in acknowledged {
        var j :| 0 <= j < i && acknowledgements[j] == acknowledgements[i];
        return None;
      }
      assert acknowledgements[..i + 1] == acknowledgements[..i] + [acknowledgements[i]];
      acknowledged := acknowledged + {acknowledgements[i]};
    }
    assert acknowledgements[..|acknowledgements|] == acknowledgements;
    return Some(acknowledged);
  }

  function IfRunning(c: RequiredCheck): seq<string> {
    if IsRunning(c.status) then [c.id] else []
  }

  function IfBlocking(c: RequiredCheck): seq<string> {
    if IsBlocking(c.status) then [c.id] else []
  }

  /** Lists a check that needs an acknowledgement and has none. */
  function IfUnacknowledged(acknowledged: set<string>): RequiredCheck -> seq<string> {
    (c: RequiredCheck) => if Acknowledgeable(c.status) && c.id !in acknowledged then [c.id] else []
  }

  /** The gate lists the checks that hold acceptance up, by why, in the order of the checks. */
  ghost predicate Lists(checks: seq<RequiredCheck>, acknowledged: set<string>, gate: Gate) {
    && gate.running == FlatMap(IfRunning, checks)
    && gate.blocking == FlatMap(IfBlocking, checks)
    && gate.acknowledgement == FlatMap(IfUnacknowledged(acknowledged), checks)
  }

  /** When the lists are empty. */
  lemma EmptyLists(checks: seq<RequiredCheck>, acknowledged: set<string>, gate: Gate)
    requires Lists(checks, acknowledged, gate)
    ensures gate.running == [] && gate.blocking == [] <==>
            forall i :: 0 <= i < |checks| ==> !IsRunning(checks[i].status) && !IsBlocking(checks[i].status)
    ensures gate.acknowledgement == [] <==> AcknowledgeableIDs(checks) <= acknowledged
  {
    FlatMapEmpty(IfRunning, checks);
    FlatMapEmpty(IfBlocking, checks);
    var f := IfUnacknowledged(acknowledged);
    FlatMapEmpty(f, checks);
    if gate.acknowledgement == [] {
      forall id | id in AcknowledgeableIDs(checks) ensures id in acknowledged {
        var i :| 0 <= i < |checks| && Acknowledgeable(checks[i].status) && checks[i].id == id;
        assert f(checks[i]) == [];
      }
    } else {
      var i :| 0 <= i < |checks| && f(checks[i]) != [];
      assert checks[i].id in AcknowledgeableIDs(checks);
    }
  }

  lemma TallyStep(checks: seq<RequiredCheck>, c: RequiredCheck)
    ensures AcknowledgeableIDs(checks + [c]) ==
            AcknowledgeableIDs(checks) + (if Acknowledgeable(c.status) then {c.id} else {})
  {
    var all := checks + [c];
    forall id | id in AcknowledgeableIDs(checks) ensures id in AcknowledgeableIDs(all) {
      var i :| 0 <= i < |checks| && Acknowledgeable(checks[i].status) && checks[i].id == id;
      assert all[i] == checks[i];
    }
    if Acknowledgeable(c.status) {
      assert all[|checks|] == c;
    }
  }

  lemma ListsNext(checks: seq<RequiredCheck>, acknowledged: set<string>, gate: Gate, i: nat)
    requires i < |checks| && Lists(checks[..i], acknowledged, gate)
    ensures var c := checks[i];
            Lists(checks[..i + 1], acknowledged,
                  gate.(running := gate.running + IfRunning(c), blocking := gate.blocking + IfBlocking(c),
                        acknowledgement := gate.acknowledgement + IfUnacknowledged(acknowledged)(c)))
    ensures AcknowledgeableIDs(checks[..i + 1]) ==
            AcknowledgeableIDs(checks[..i]) + (if Acknowledgeable(checks[i].status) then {checks[i].id} else {})
  {
    FlatMapNext(IfRunning, checks, i);
    FlatMapNext(IfBlocking, checks, i);
    FlatMapNext(IfUnacknowledged(acknowledged), checks, i);
    assert checks[..i + 1] == checks[..i] + [checks[i]];
    TallyStep(checks[..i], checks[i]);
  }

  /** Sorts the checks into those running, those unacknowledged and those blocking. */
  method TallyChecks(checks: seq<RequiredCheck>, acknowledged: set<string>) returns (gate: Gate, acknowledgeable: set<string>)
    ensures Lists(checks, acknowledged, gate) && acknowledgeable == AcknowledgeableIDs(checks)
    ensures !gate.stale && !gate.canAccept
  {
    gate := Gate(false, false, [], [], []);
    acknowledgeable := {};
    for i := 0 to |checks|
      invariant Lists(checks[..i], acknowledged, gate) && acknowledgeable == AcknowledgeableIDs(checks[..i])
      invariant !gate.stale && !gate.canAccept
    {
      var c := checks[i];
      ListsNext(checks, acknowledged, gate, i);
      if IsRunning(c.status) {
        gate := gate.(running := gate.running + [c.id]);
      } else if Acknowledgeable(c.status) {
        acknowledgeable := acknowledgeable + {c.id};
        if c.id !in acknowledged {
          gate := gate.(acknowledgement := gate.acknowledgement + [c.id]);
        }
      } else if IsBlocking(c.status) {
        gate := gate.(blocking := gate.blocking + [c.id]);
      }
    }
    assert checks[..|checks|] == checks;
  }

  ghost predicate IsStale(review: Review, reportID: string, diffIdentity: string) {
    reportID != review.reportID || diffIdentity != review.diffIdentity
  }

  /** The request itself is well-formed for these checks. */
  ghost predicate ProperAcknowledgements(checks: seq<RequiredCheck>, acknowledgements: seq<string>) {
    && Distinct(acknowledgements)
    && (forall i :: 0 <= i < |acknowledgements| ==> BoundedText(acknowledgements[i]))
    && Elements(acknowledgements) <= AcknowledgeableIDs(checks)
  }

  method EvaluateChecks(review: Review, reportID: string, diffIdentity: string,
                        checks: seq<RequiredCheck>, acknowledgements: seq<string>) returns (r: Evaluation)
    ensures r.Evaluated? <==>
            && ValidReview(review) && ValidDigest(reportID) && ValidDigest(diffIdentity)
            && (IsStale(review, reportID, diffIdentity) || ProperAcknowledgements(checks, acknowledgements))
    ensures r.Evaluated? ==> (r.gate.stale <==> IsStale(review, reportID, diffIdentity))
    ensures r.Evaluated? && r.gate.stale ==> r.gate == Gate(false, true, [], [], [])
    ensures r.Evaluated? && !r.gate.stale ==> Lists(checks, Elements(acknowledgements), r.gate)
    ensures r.Evaluated? ==>
              (r.gate.canAccept <==>
                 && !IsStale(review, reportID, diffIdentity)
                 && (forall i :: 0 <= i < |checks| ==> !IsRunning(checks[i].status) && !IsBlocking(checks[i].status))
                 && Elements(acknowledgements) == AcknowledgeableIDs(checks))
    ensures r.Evaluated? ==> (AcceptanceGateError(r.gate).None? <==> r.gate.canAccept)
  {
    var valid := Validate(review);
    if !valid || !ValidDigest(reportID) || !ValidDigest(diffIdentity) {
      return InvalidReview;
    }
    if reportID != review.reportID || diffIdentity != review.diffIdentity {
      return Evaluated(Gate(false, true, [], [], []));
    }
    var acknowledged := CollectAcknowledgements(acknowledgements);
    if acknowledged.None? {
      return InvalidReview;
    }
    var gate, acknowledgeable := TallyChecks(checks, acknowledged.value);
    if !(acknowledged.value <= acknowledgeable) {
      return InvalidReview;
    }
    EmptyLists(checks, acknowledged.value, gate);
    if gate.running == [] && gate.acknowledgement == [] && gate.blocking == [] {
      gate := gate.(canAccept := true);
    }
    return Evaluated(gate);
  }

  function AcceptanceGateError(gate: Gate): Option<GateError> {
    if gate.stale then Some(StaleReview)
    else if gate.running != [] then Some(ValidationRunning)
    else if gate.acknowledgement != [] then Some(AcknowledgementNeeded)
    else if gate.blocking != [] then Some(RequiredCheckBlocked)
    else None
  }

  ghost predicate SomeCheck(checks: seq<RequiredCheck>, p: CheckStatus -> bool) {
    exists i :: 0 <= i < |checks| && p(checks[i].status)
  }

  /** The error names what is to be dealt with first: a stale review, running checks, acknowledgements, then blocks. */
  lemma GateErrorNames(checks: seq<RequiredCheck>, acknowledged: set<string>, gate: Gate)
    requires Lists(checks, acknowledged, gate)
    ensures AcceptanceGateError(gate) == Some(StaleReview) <==> gate.stale
    ensures AcceptanceGateError(gate) == Some(ValidationRunning) <==> !gate.stale && SomeCheck(checks, IsRunning)
    ensures AcceptanceGateError(gate) == Some(AcknowledgementNeeded) <==>
            !gate.stale && !SomeCheck(checks, IsRunning) && !(AcknowledgeableIDs(checks) <= acknowledged)
    ensures AcceptanceGateError(gate) == Some(RequiredCheckBlocked) <==>
            !gate.stale && !SomeCheck(checks, IsRunning) && AcknowledgeableIDs(checks) <= acknowledged && SomeCheck(checks, IsBlocking)
  {
    EmptyLists(checks, acknowledged, gate);
    FlatMapEmpty(IfRunning, checks);
    FlatMapEmpty(IfBlocking, checks);
    assert gate.running == [] <==> !SomeCheck(checks, IsRunning) by {
      if i :| 0 <= i < |checks| && IsRunning(checks[i].status) { assert IfRunning(checks[i]) != []; }
    }
    assert gate.blocking == [] <==> !SomeCheck(checks, IsBlocking) by {
      if i :| 0 <= i < |checks| && IsBlocking(checks[i].status) { assert IfBlocking(checks[i]) != []; }
    }
  }

  /**
   The gate over live validation state. Acceptance is open exactly when the live checks are
   the reviewed ones, nothing is stale, every live check passed, failed or was waived, and the
   acknowledgements are exactly the failed and waived ones.
   */
  method EvaluateAcceptanceWithLiveChecks(review: Review, reportID: string, diffIdentity: string,
                                          live: seq<RequiredCheck>, acknowledgements: seq<string>) returns (r: Evaluation)
    ensures r.Evaluated? ==> Elements(IDs(live)) == Elements(IDs(review.requiredChecks)) && Distinct(IDs(live))
    ensures (r.Evaluated? && r.gate.canAccept) <==>
            && ValidReview(review) && Distinct(IDs(live)) && Elements(IDs(live)) == Elements(IDs(review.requiredChecks))
            && reportID == review.reportID && diffIdentity == review.diffIdentity
            && (forall i :: 0 <= i < |live| ==> live[i].status == Passed || Acknowledgeable(live[i].status))
            && Distinct(acknowledgements) && (forall i :: 0 <= i < |acknowledgements| ==> BoundedText(acknowledgements[i]))
            && Elements(acknowledgements) == AcknowledgeableIDs(live)
    ensures r.Evaluated? ==> (AcceptanceGateError(r.gate).None? <==> r.gate.canAccept)
  {
    var exact := ExactRequiredCheckSet(review.requiredChecks, live);
    if !exact {
      return InvalidReview;
    }
    r := EvaluateChecks(review, reportID, diffIdentity, live, acknowledgements);
  }
}
