/**
 The schema policy over parsed fields: exactly the declared headings, in order, each with
 acceptable content.
 */
module DocValidator {
  import opened Common
  import opened Text
  import opened DocSchema
  import opened DocParser

  function HeadingsOf(raws: seq<RawField>): (r: seq<string>)
    ensures |r| == |raws|
  {
    seq(|raws|, i requires 0 <= i < |raws| => raws[i].heading)
  }

  function NormalizedFields(specs: seq<Spec>, raws: seq<RawField>): (doc: Document)
    requires |specs| == |raws|
    ensures |doc| == |specs|
  {
    seq(|specs|, i requires 0 <= i < |specs| => NormalizedField(specs[i].kind, raws[i].body))
  }

  predicate AllValid(specs: seq<Spec>, doc: Document)
    requires |doc| == |specs|
  {
    forall i :: 0 <= i < |doc| ==> ValidContent(specs[i].kind, doc[i])
  }

  /** The headings must be the schema's own list, and every normalized field acceptable. */
  function Validated(specs: seq<Spec>, raws: seq<RawField>): Option<Document> {
    if HeadingsOf(raws) != Headings(specs) then None
    else
      assert |HeadingsOf(raws)| == |raws|;
      var doc := NormalizedFields(specs, raws);
      if AllValid(specs, doc) then Some(doc) else None
  }

  lemma {:induction false} DistinctCounts<T>(s: seq<T>, x: T)
    requires Distinct(s)
    ensures multiset(s)[x] <= 1
  {
    if s != [] {
      var front, last := s[..|s| - 1], s[|s| - 1];
      DistinctCounts(front, x);
      assert s == front + [last];
      if last == x {
        assert x !in front;
        assert multiset(front)[x] == 0;
      }
    }
  }

  /** Counts every heading, then refuses unknown and repeated ones. */
  method CountHeadings(specs: seq<Spec>, raws: seq<RawField>) returns (seen: map<string, nat>)
    ensures forall l :: l in seen <==> l in HeadingsOf(raws)
    ensures forall l :: l in seen ==> seen[l] == multiset(HeadingsOf(raws))[l]
  {
    var headings := HeadingsOf(raws);
    seen := map[];
    for i := 0 to |raws|
      invariant forall l :: l in seen <==> l in headings[..i]
      invariant forall l :: l in seen ==> seen[l] == multiset(headings[..i])[l]
    {
      var l := raws[i].heading;
      assert headings[..i + 1] == headings[..i] + [l];
      assert multiset(headings[..i + 1]) == multiset(headings[..i]) + multiset{l};
      seen := seen[l := (if l in seen then seen[l] else 0) + 1];
    }
    assert headings[..|raws|] == headings;
  }

  method CheckKnownOnce(specs: seq<Spec>, seen: map<string, nat>) returns (ok: bool)
    ensures ok <==> forall l :: l in seen ==> l in Headings(specs) && seen[l] <= 1
  {
    var rest := seen.Keys;
    while rest != {}
      invariant rest <= seen.Keys
      invariant forall l :: l in seen && l !in rest ==> l in Headings(specs) && seen[l] <= 1
      decreases |rest|
    {
      var l :| l in rest;
      if l !in Headings(specs) || seen[l] > 1 {
        return false;
      }
      rest := rest - {l};
    }
    return true;
  }

  method CheckComplete(specs: seq<Spec>, seen: map<string, nat>) returns (ok: bool)
    ensures ok <==> forall i :: 0 <= i < |specs| ==> specs[i].heading in seen
  {
    for i := 0 to |specs|
      invariant forall k :: 0 <= k < i ==> specs[k].heading in seen
    {
      if specs[i].heading !in seen {
        return false;
      }
    }
    return true;
  }

  lemma KnownOnce(specs: seq<Spec>, raws: seq<RawField>, seen: map<string, nat>)
    requires Distinct(Headings(specs))
    requires forall l :: l in seen <==> l in HeadingsOf(raws)
    requires forall l :: l in seen ==> seen[l] == multiset(HeadingsOf(raws))[l]
    requires !forall l :: l in seen ==> l in Headings(specs) && seen[l] <= 1
    ensures HeadingsOf(raws) != Headings(specs)
  {
    var l :| l in seen && !(l in Headings(specs) && seen[l] <= 1);
    DistinctCounts(Headings(specs), l);
  }

  lemma Incomplete(specs: seq<Spec>, raws: seq<RawField>, i: nat)
    requires i < |specs| && specs[i].heading !in HeadingsOf(raws)
    ensures HeadingsOf(raws) != Headings(specs)
  {
    assert Headings(specs)[i] in Headings(specs);
  }

  method CheckOrder(specs: seq<Spec>, raws: seq<RawField>) returns (ok: bool)
    ensures ok <==> HeadingsOf(raws) == Headings(specs)
  {
    if |raws| != |specs| {
      assert |HeadingsOf(raws)| != |Headings(specs)|;
      return false;
    }
    for index := 0 to |specs|
      invariant forall k :: 0 <= k < index ==> raws[k].heading == specs[k].heading
    {
      if raws[index].heading != specs[index].heading {
        assert HeadingsOf(raws)[index] != Headings(specs)[index];
        return false;
      }
    }
    assert HeadingsOf(raws) == Headings(specs);
    return true;
  }

  /** The count, completeness, length and order checks accept exactly the schema's own list. */
  method CheckHeadings(specs: seq<Spec>, raws: seq<RawField>) returns (ok: bool)
    requires Distinct(Headings(specs))
    ensures ok <==> HeadingsOf(raws) == Headings(specs)
  {
    var seen := CountHeadings(specs, raws);
    var known := CheckKnownOnce(specs, seen);
    if !known {
      KnownOnce(specs, raws, seen);
      return false;
    }
    var complete := CheckComplete(specs, seen);
    if !complete {
      ghost var i :| 0 <= i < |specs| && specs[i].heading !in seen;
      Incomplete(specs, raws, i);
      return false;
    }
    ok := CheckOrder(specs, raws);
  }

  method ValidateSchema(specs: seq<Spec>, raws: seq<RawField>) returns (r: Option<Document>)
    requires Distinct(Headings(specs))
    ensures r == Validated(specs, raws)
  {
    var ok := CheckHeadings(specs, raws);
    if !ok {
      return None;
    }
    assert |HeadingsOf(raws)| == |raws|;
    ghost var want := NormalizedFields(specs, raws);
    var doc: Document := [];
    for index := 0 to |specs|
      invariant doc == want[..index]
      invariant forall k :: 0 <= k < index ==> ValidContent(specs[k].kind, want[k])
    {
      var f := NormalizeField(specs[index].kind, raws[index].body);
      var valid := ValidateFieldContent(specs[index].kind, f);
      if !valid {
        assert !ValidContent(specs[index].kind, want[index]);
        return None;
      }
      doc := doc + [f];
    }
    assert want[..|specs|] == want;
    return Some(doc);
  }

  /** Every document the validator returns is in normal form. */
  lemma ValidatedIsNormal(specs: seq<Spec>, raws: seq<RawField>)
    requires Validated(specs, raws).Some?
    ensures NormalDocument(specs, Validated(specs, raws).value)
  {
    assert |HeadingsOf(raws)| == |raws|;
    var doc := NormalizedFields(specs, raws);
    forall i | 0 <= i < |doc| ensures NormalForm(specs[i].kind, doc[i]) {
      AcceptedFieldIsNormal(specs[i].kind, raws[i].body);
    }
  }

  // ---------------------------------------------------------------- the whole comment

  datatype Admitted = Admitted(opening: string, version: nat, doc: Document)

  /** The document after the schema header, if there is one. */
  function DocumentOf(specs: seq<Spec>, lines: seq<string>): Option<Document> {
    match HeaderFrom(lines, 0)
    case None => None
    case Some(index) => if index >= |lines| then None else Validated(specs, RawFields(lines[index + 1..]))
  }

  function Assembled(fits: bool, opening: string, doc: Option<Document>): Option<Admitted> {
    if !fits || opening == "" || doc.None? then None else Some(Admitted(opening, SCHEMA_VERSION, doc.value))
  }

  /** Parses a comment group and applies the schema policy. */
  function Admit(specs: seq<Spec>, group: seq<string>): Option<Admitted> {
    var lines := GroupLines(group);
    Assembled(ByteLength(RawText(group)) <= MAXIMUM_SOURCE_COMMENT_BYTES, OpeningSentence(lines), DocumentOf(specs, lines))
  }

  method AdmitComment(specs: seq<Spec>, group: seq<string>) returns (r: Option<Admitted>)
    requires Distinct(Headings(specs))
    ensures r == Admit(specs, group)
  {
    if ByteLength(RawText(group)) > MAXIMUM_SOURCE_COMMENT_BYTES {
      return None;
    }
    var lines := CommentGroupLines(group);
    var opening := FirstDescriptiveLine(lines);
    if opening == "" {
      return None;
    }
    var header := LocateSchemaHeader(lines);
    if header.None? {
      return None;
    }
    var fields := ParseRawFields(lines[header.value + 1..]);
    var doc := ValidateSchema(specs, fields);
    if doc.None? {
      return None;
    }
    return Some(Admitted(opening, SCHEMA_VERSION, doc.value));
  }
}
