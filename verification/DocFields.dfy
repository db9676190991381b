/** The nineteen fields of schema version 1, in their one order. */
module DocFields {
  import opened Common
  import opened Text
  import opened DocSchema
  import opened DocValidator
  import opened DocPrinter
  import opened DocRoundTrip
  import opened DocEncoding

  const HEADING_WORDS: seq<seq<string>> := [
    ["Purpose"], ["Use", "when"], ["Do", "not", "use", "when"], ["Semantics"], ["Inputs"], ["Outputs"],
    ["Preconditions"], ["Postconditions"], ["Effects"], ["Failure", "semantics"], ["Determinism"],
    ["Idempotency", "and", "retry"], ["Reconciliation", "and", "compensation"], ["Security", "and", "privacy"],
    ["Dependencies", "and", "bindings"], ["Complexity", "and", "limits"], ["Examples"], ["Verification"],
    ["Retrieval", "concepts"]]

  const FIELD_COUNT := 19

  /** Inputs to Failure semantics, and Examples, hold lists. */
  function KindOf(i: nat): Kind {
    if 4 <= i <= 9 || i == 16 then Items else Prose
  }

  const SCHEMA_V1: seq<Spec> := seq(FIELD_COUNT, i requires 0 <= i < FIELD_COUNT => Spec(Join(HEADING_WORDS[i]), KindOf(i)))

  predicate HeadingWords(ws: seq<string>) {
    1 <= |ws| <= 5 && forall i :: 0 <= i < |ws| ==> Letters(ws[i])
  }

  lemma FirstHeadings(i: nat)
    requires i < 10
    ensures HeadingWords(HEADING_WORDS[i])
  {}

  lemma MiddleHeadings(i: nat)
    requires 10 <= i < 14
    ensures HeadingWords(HEADING_WORDS[i])
  {}

  lemma LastHeadings(i: nat)
    requires 14 <= i < FIELD_COUNT
    ensures HeadingWords(HEADING_WORDS[i])
  {}

  /** The length and first letter of a heading's first word tell it from all others. */
  function Code(ws: seq<string>): int {
    if ws == [] || ws[0] == [] then 0 else |ws[0]| * 256 + ws[0][0] as int
  }

  const CODES: seq<int> := [
    7 * 256 + 'P' as int, 3 * 256 + 'U' as int, 2 * 256 + 'D' as int, 9 * 256 + 'S' as int, 6 * 256 + 'I' as int,
    7 * 256 + 'O' as int, 13 * 256 + 'P' as int, 14 * 256 + 'P' as int, 7 * 256 + 'E' as int, 7 * 256 + 'F' as int,
    11 * 256 + 'D' as int, 11 * 256 + 'I' as int, 14 * 256 + 'R' as int, 8 * 256 + 'S' as int, 12 * 256 + 'D' as int,
    10 * 256 + 'C' as int, 8 * 256 + 'E' as int, 12 * 256 + 'V' as int, 9 * 256 + 'R' as int]

  lemma CodesOf(i: nat)
    requires i < FIELD_COUNT
    ensures Code(HEADING_WORDS[i]) == CODES[i]
  {}

  lemma CodesAreDistinct()
    ensures Distinct(CODES)
  {}

  lemma LettersHaveNoSpace(ws: seq<string>)
    requires HeadingWords(ws)
    ensures AreWords(ws)
  {
    forall i | 0 <= i < |ws| ensures IsWord(ws[i]) { assert Letters(ws[i]); }
  }

  lemma JoinedHeading(ws: seq<string>)
    requires HeadingWords(ws)
    ensures HeaderShape(Join(ws) + ":")
  {
    LettersHaveNoSpace(ws);
    FieldsOfJoin(ws);
    var line := Join(ws) + ":";
    assert line[..|line| - 1] == Join(ws);
  }

  lemma HeadingsOfTable(i: nat)
    requires i < FIELD_COUNT
    ensures HeadingWords(HEADING_WORDS[i])
  {
    if i < 10 { FirstHeadings(i); } else if i < 14 { MiddleHeadings(i); } else { LastHeadings(i); }
  }

  lemma HeadingsDiffer(a: seq<string>, b: seq<string>)
    requires HeadingWords(a) && HeadingWords(b) && Code(a) != Code(b)
    ensures Join(a) != Join(b)
  {
    LettersHaveNoSpace(a);
    LettersHaveNoSpace(b);
    if Join(a) == Join(b) { JoinInjective(a, b); }
  }

  /** Every heading of the schema can be printed and read back, and no two are alike. */
  lemma SchemaIsGood()
    ensures |SCHEMA_V1| == FIELD_COUNT && GoodSchema(SCHEMA_V1)
  {
    forall i | 0 <= i < FIELD_COUNT ensures HeaderShape(SCHEMA_V1[i].heading + ":") {
      HeadingsOfTable(i);
      JoinedHeading(HEADING_WORDS[i]);
    }
    CodesAreDistinct();
    forall i, j | 0 <= i < j < FIELD_COUNT ensures Headings(SCHEMA_V1)[i] != Headings(SCHEMA_V1)[j] {
      HeadingsOfTable(i);
      HeadingsOfTable(j);
      CodesOf(i);
      CodesOf(j);
      HeadingsDiffer(HEADING_WORDS[i], HEADING_WORDS[j]);
    }
  }

  lemma HeadingIsPlain(ws: seq<string>)
    requires HeadingWords(ws)
    ensures GROUP !in Join(ws)
  {
    forall i | 0 <= i < |Join(ws)| ensures Join(ws)[i] != GROUP { JoinOfLetters(ws, i); }
  }

  lemma SchemaHeadingsArePlain()
    ensures PlainHeadings(SCHEMA_V1)
  {
    forall i | 0 <= i < FIELD_COUNT ensures GROUP !in SCHEMA_V1[i].heading {
      HeadingsOfTable(i);
      HeadingIsPlain(HEADING_WORDS[i]);
    }
  }

  /** Schema version 1: parsing undoes printing exactly on the documents that can survive. */
  lemma SchemaRoundTrip(identifier: string, opening: string, version: nat, doc: Document)
    requires |doc| == FIELD_COUNT && Printable(identifier, opening, version, doc)
    ensures Admit(SCHEMA_V1, CommentsOf(Printed(opening, SCHEMA_V1, doc))) == Some(Admitted(opening, version, doc))
            <==> Survives(opening, SCHEMA_V1, doc)
  {
    SchemaIsGood();
    ParsingUndoesPrinting(identifier, opening, version, SCHEMA_V1, doc);
  }

  /** Schema version 1: the canonical string determines the document. */
  lemma SchemaCanonical(v: nat, w: nat, a: Document, b: Document)
    requires NormalDocument(SCHEMA_V1, a) && NormalDocument(SCHEMA_V1, b)
    ensures Canonical(v, SCHEMA_V1, a) == Canonical(w, SCHEMA_V1, b) <==> v == w && a == b
  {
    SchemaHeadingsArePlain();
    CanonicalDeterminesDocument(v, w, SCHEMA_V1, a, b);
  }
}
