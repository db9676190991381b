/** Parsing undoes printing: exactly which documents survive the trip through a comment. */
module DocRoundTrip {
  import opened Common
  import opened Text
  import opened DocSchema
  import opened DocParser
  import opened DocValidator
  import opened DocPrinter

  // ---------------------------------------------------------------- text facts

  /** Collapsing keeps the first character of a text that starts with no space. */
  lemma CollapseHead(s: string)
    requires s != [] && !IsSpace(s[0])
    ensures Collapse(s) != [] && Collapse(s)[0] == s[0]
  {
    FieldsAreWords(s);
    assert TrimLeft(s) == s;
    assert Fields(s)[0] == TakeWord(s);
    JoinEnds(Fields(s));
  }

  lemma NormalWord(s: string)
    requires Normal(s) && s != []
    ensures !IsSpace(s[0]) && !IsSpace(s[|s| - 1]) && OneLine(s)
  {
    NormalIsTrimmed(s);
    NormalChars(s);
  }

  lemma SubstantiveIsNonEmpty(s: string, words: nat)
    requires words > 0 && Substantive(s, words)
    ensures s != []
  {}

  lemma {:induction false} ContainsNeedsRoom(s: string, part: string)
    requires ContainsFrom(s, part)
    ensures |part| <= |s|
  {
    if !HasPrefix(s, part) { ContainsNeedsRoom(s[1..], part); }
  }

  lemma {:induction false} ByteLengthAppend(a: string, b: string)
    ensures ByteLength(a + b) == ByteLength(a) + ByteLength(b)
  {
    if a == [] {
      assert a + b == b;
    } else {
      assert (a + b)[1..] == a[1..] + b;
      ByteLengthAppend(a[1..], b);
    }
  }

  // ---------------------------------------------------------------- comments and lines

  /** The line comments a text of such comments scans into. */
  function CommentsOf(text: string): seq<string> {
    Lines(text)[..|Lines(text)| - 1]
  }

  lemma CommentsOfUnlines(comments: seq<string>)
    requires forall i :: 0 <= i < |comments| ==> OneLine(comments[i])
    ensures CommentsOf(Unlines(comments)) == comments
  {
    LinesOfUnlines(comments);
  }

  lemma {:induction false} GroupLinesOfSlashed(lines: seq<string>)
    ensures GroupLines(Slashed(lines)) == lines
  {
    if lines != [] {
      var front, last := lines[..|lines| - 1], lines[|lines| - 1];
      GroupLinesOfSlashed(front);
      assert Slashed(lines)[..|lines| - 1] == Slashed(front);
      assert ("//" + last)[2..] == last;
      assert lines == front + [last];
    }
  }

  lemma {:induction false} RawTextIsUnlines(comments: seq<string>)
    requires comments != []
    ensures RawText(comments) + "\n" == Unlines(comments)
  {
    if |comments| == 1 {
      assert Terminate('\n', comments[1..]) == [];
    } else {
      RawTextIsUnlines(comments[1..]);
      assert comments[0] + "\n" + RawText(comments[1..]) + "\n" == comments[0] + "\n" + (RawText(comments[1..]) + "\n");
    }
  }

  lemma RawTextBytes(comments: seq<string>)
    requires comments != []
    ensures ByteLength(RawText(comments)) + 1 == ByteLength(Unlines(comments))
  {
    RawTextIsUnlines(comments);
    ByteLengthAppend(RawText(comments), "\n");
    assert "\n"[1..] == [];
    assert ByteLength("\n") == 1;
  }

  // ---------------------------------------------------------------- one field

  /** A body line unless the parser ignores it. */
  function Keep(text: string): seq<string> {
    if Ignored(text) then [] else [text]
  }

  function Kept(texts: seq<string>): seq<string> {
    FlatMap(Keep, texts)
  }

  lemma KeptAll(texts: seq<string>)
    requires forall i :: 0 <= i < |texts| ==> !Ignored(texts[i])
    ensures Kept(texts) == texts
  {
    FlatMapSingles(Keep, texts, texts);
  }

  /** Prose the parser takes for a naming exception. */
  predicate LooksLikeException(kind: Kind, f: Field) {
    !f.none && kind == Prose && HasPrefix(f.text, EXCEPTION_PREFIX)
  }

  lemma NoneBody(reason: string)
    requires Normal(reason) && reason != []
    ensures Normal("None: " + reason) && Trim(("None: " + reason)[|NONE_PREFIX|..]) == reason
  {
    var s := "None: " + reason;
    NormalIffTidy(reason);
    NormalWord(reason);
    forall i | 0 <= i < |s| && IsSpace(s[i]) ensures s[i] == ' ' && 0 < i < |s| - 1 && !IsSpace(s[i + 1]) {
      if i > 5 { assert s[i] == reason[i - 6]; }
      assert 5 <= i < |s| - 1 ==> s[i + 1] == reason[i - 5];
    }
    NormalIffTidy(s);
    assert s[|NONE_PREFIX|..] == " " + reason;
    TrimOfPadded(" ", reason);
  }

  lemma NoneRoundTrip(kind: Kind, f: Field)
    requires NormalForm(kind, f) && f.none
    ensures NormalizedField(kind, Kept(BodyTexts(kind, f))) == f
  {
    SubstantiveIsNonEmpty(f.reason, 2);
    NoneBody(f.reason);
    var s := "None: " + f.reason;
    assert s[0] == 'N' && EXCEPTION_PREFIX[0] == 'c';
    KeptAll([s]);
    assert HasPrefix(s, NONE_PREFIX);
  }

  lemma DashedLine(item: string)
    requires Normal(item) && item != []
    ensures Trim("- " + item) == "- " + item && Trim(("- " + item)[1..]) == item && !Ignored("- " + item)
  {
    NormalWord(item);
    TrimOfTrimmed("- " + item);
    assert ("- " + item)[1..] == " " + item;
    TrimOfPadded(" ", item);
    assert ("- " + item)[0] == '-' && EXCEPTION_PREFIX[0] == 'c';
  }

  lemma DashedStep(items: seq<string>, item: string)
    requires Normal(item) && item != []
    ensures ItemStep(items, "- " + item) == items + [item]
  {
    DashedLine(item);
    assert HasPrefix("- " + item, "-");
  }

  lemma {:induction false} ItemFold(step: (seq<string>, string) -> seq<string>, done: seq<string>, items: seq<string>)
    requires forall d, i :: 0 <= i < |items| ==> step(d, Dashed(items)[i]) == d + [items[i]]
    ensures Fold(step, done, Dashed(items)) == done + items
    decreases |items|
  {
    if items == [] {
      assert done + items == done;
    } else {
      var rest := items[1..];
      assert Dashed(items)[1..] == Dashed(rest);
      forall d, i | 0 <= i < |rest| ensures step(d, Dashed(rest)[i]) == d + [rest[i]] {
        assert Dashed(rest)[i] == Dashed(items)[i + 1];
      }
      ItemFold(step, done + [items[0]], rest);
      assert done + [items[0]] + rest == done + items;
    }
  }

  lemma DashedSteps(items: seq<string>)
    requires forall i :: 0 <= i < |items| ==> Normal(items[i]) && items[i] != []
    ensures ItemLines(Dashed(items)) == items
  {
    forall d, i | 0 <= i < |items| ensures ItemStep(d, Dashed(items)[i]) == d + [items[i]] {
      DashedStep(d, items[i]);
    }
    ItemFold(ItemStep, [], items);
    assert [] + items == items;
  }

  lemma DashedHead(items: seq<string>)
    requires items != []
    ensures Join(Dashed(items)) != [] && Join(Dashed(items))[0] == '-'
  {
    assert Dashed(items)[0] == "- " + items[0];
  }

  lemma DashedAreKept(items: seq<string>)
    requires forall i :: 0 <= i < |items| ==> Normal(items[i]) && ValidItem(items[i])
    ensures Kept(Dashed(items)) == Dashed(items)
    ensures ItemLines(Dashed(items)) == items && CollapseAll(items) == items
  {
    forall i | 0 <= i < |items| ensures items[i] != [] && !Ignored(Dashed(items)[i]) {
      SubstantiveIsNonEmpty(items[i], 3);
      DashedLine(items[i]);
    }
    KeptAll(Dashed(items));
    DashedSteps(items);
  }

  lemma ItemsRoundTrip(f: Field)
    requires NormalForm(Items, f) && !f.none
    ensures NormalizedField(Items, Kept(BodyTexts(Items, f))) == f
  {
    DashedAreKept(f.items);
    DashedHead(f.items);
    CollapseHead(Join(Dashed(f.items)));
    assert NONE_PREFIX[0] == 'N';
  }

  lemma ProseRoundTrip(f: Field)
    requires NormalForm(Prose, f) && !f.none && !HasPrefix(f.text, EXCEPTION_PREFIX)
    ensures NormalizedField(Prose, Kept(BodyTexts(Prose, f))) == f
  {
    SubstantiveIsNonEmpty(f.text, 3);
    KeptAll([f.text]);
  }

  lemma NothingIsInvalid()
    ensures !ValidContent(Prose, NormalizedField(Prose, []))
  {
    assert Fields([]) == [];
    assert Trim("") == "";
  }

  lemma ExceptionIsDropped(text: string)
    requires HasPrefix(text, EXCEPTION_PREFIX)
    ensures Kept([text]) == []
  {
    assert Keep(text) == [];
    FlatMapOne(Keep, text);
  }

  /** A field in normal form survives exactly when it does not look like a naming exception. */
  lemma FieldRoundTrip(kind: Kind, f: Field)
    requires NormalForm(kind, f)
    ensures var g := NormalizedField(kind, Kept(BodyTexts(kind, f)));
            if LooksLikeException(kind, f) then !ValidContent(kind, g) else g == f
  {
    if LooksLikeException(kind, f) {
      ExceptionIsDropped(f.text);
      NothingIsInvalid();
    } else if f.none {
      NoneRoundTrip(kind, f);
    } else if kind == Items {
      ItemsRoundTrip(f);
    } else {
      ProseRoundTrip(f);
    }
  }

  // ---------------------------------------------------------------- all fields

  lemma HeaderStep(fields: seq<RawField>, heading: string)
    requires HeaderShape(heading + ":")
    ensures FieldStep(fields, HEADING_INDENT + (heading + ":")) == fields + [RawField(heading, [])]
    ensures heading != [] && OneLine(heading)
  {
    var line := heading + ":";
    assert line[..|line| - 1] == heading;
    FieldsAreWords(heading);
    NormalIsTrimmed(heading);
    JoinEnds(Fields(heading));
    NormalWord(heading);
    assert Letter(heading[0]) by {
      assert Fields(heading)[0][0] == heading[0] && Letters(Fields(heading)[0]);
    }
    TrimOfPadded(HEADING_INDENT, line);
    assert (HEADING_INDENT + line)[3] == heading[0];
    assert EXCEPTION_PREFIX[|"codeflux"|] == ':' && EXCEPTION_PREFIX[|EXCEPTION_PREFIX| - 1] == ' ';
    NotException(line);
    assert TrimSuffix(line, ":") == heading;
  }

  /** A header-shaped line holds its one colon at the end. */
  lemma NotException(line: string)
    requires HeaderShape(line)
    ensures !Ignored(line)
  {
    if HasPrefix(line, EXCEPTION_PREFIX) {
      var heading := line[..|line| - 1];
      assert heading[8] == EXCEPTION_PREFIX[8] == ':';
      HeadingChars(heading, 8);
    }
  }

  lemma HeadingChars(heading: string, i: nat)
    requires Normal(heading) && i < |heading|
    requires forall k :: 0 <= k < |Fields(heading)| ==> Letters(Fields(heading)[k])
    ensures heading[i] == ' ' || Letter(heading[i])
  {
    JoinOfLetters(Fields(heading), i);
  }

  lemma {:induction false} JoinOfLetters(ws: seq<string>, i: nat)
    requires i < |Join(ws)| && forall k :: 0 <= k < |ws| ==> Letters(ws[k])
    ensures Join(ws)[i] == ' ' || Letter(Join(ws)[i])
  {
    assert Letters(ws[0]);
    if |ws| > 1 && |ws[0]| < i {
      JoinOfLetters(ws[1..], i - |ws[0]| - 1);
    }
  }

  predicate BodyLine(text: string) {
    text != [] && Trimmed(text) && OneLine(text)
  }

  lemma BodyStep(fields: seq<RawField>, heading: string, body: seq<string>, text: string)
    requires BodyLine(text)
    ensures FieldStep(fields + [RawField(heading, body)], BODY_INDENT + text)
            == fields + [RawField(heading, body + Keep(text))]
  {
    TrimOfPadded(BODY_INDENT, text);
    assert (BODY_INDENT + text)[3] == ' ';
    var all := fields + [RawField(heading, body)];
    assert all[..|all| - 1] == fields;
    assert body + [] == body;
  }

  /** A fold whose every step adds what `keep` keeps of a line to the last field's body. */
  lemma {:induction false} BodyFold(step: (seq<RawField>, string) -> seq<RawField>, keep: string -> seq<string>,
                                    fields: seq<RawField>, heading: string, body: seq<string>, pad: string, texts: seq<string>)
    requires forall b, i :: 0 <= i < |texts| ==>
               step(fields + [RawField(heading, b)], pad + texts[i]) == fields + [RawField(heading, b + keep(texts[i]))]
    ensures Fold(step, fields + [RawField(heading, body)], Indented(pad, texts))
            == fields + [RawField(heading, body + FlatMap(keep, texts))]
    decreases |texts|
  {
    if texts == [] {
      assert body + FlatMap(keep, texts) == body;
    } else {
      assert Indented(pad, texts)[1..] == Indented(pad, texts[1..]);
      BodyFold(step, keep, fields, heading, body + keep(texts[0]), pad, texts[1..]);
      assert body + keep(texts[0]) + FlatMap(keep, texts[1..]) == body + FlatMap(keep, texts);
    }
  }

  lemma BodySteps(fields: seq<RawField>, heading: string, texts: seq<string>)
    requires forall i :: 0 <= i < |texts| ==> BodyLine(texts[i])
    ensures Fold(FieldStep, fields + [RawField(heading, [])], Indented(BODY_INDENT, texts))
            == fields + [RawField(heading, Kept(texts))]
  {
    forall b, i | 0 <= i < |texts|
      ensures FieldStep(fields + [RawField(heading, b)], BODY_INDENT + texts[i]) == fields + [RawField(heading, b + Keep(texts[i]))]
    {
      BodyStep(fields, heading, b, texts[i]);
    }
    BodyFold(FieldStep, Keep, fields, heading, [], BODY_INDENT, texts);
    assert [] + Kept(texts) == Kept(texts);
  }

  lemma BodyLinesOf(kind: Kind, f: Field, i: nat)
    requires NormalForm(kind, f) && i < |BodyTexts(kind, f)|
    ensures BodyLine(BodyTexts(kind, f)[i])
  {
    if f.none {
      SubstantiveIsNonEmpty(f.reason, 2);
      NormalWord(f.reason);
    } else if kind == Items {
      assert ValidItem(f.items[i]);
      SubstantiveIsNonEmpty(f.items[i], 3);
      NormalWord(f.items[i]);
    } else {
      SubstantiveIsNonEmpty(f.text, 3);
      NormalWord(f.text);
    }
  }

  lemma RawFieldsOfBody(fields: seq<RawField>, heading: string, texts: seq<string>)
    requires HeaderShape(heading + ":") && forall i :: 0 <= i < |texts| ==> BodyLine(texts[i])
    ensures Fold(FieldStep, fields, [HEADING_INDENT + (heading + ":")] + Indented(BODY_INDENT, texts))
            == fields + [RawField(heading, Kept(texts))]
  {
    var head := HEADING_INDENT + (heading + ":");
    FoldAppend(FieldStep, fields, [head], Indented(BODY_INDENT, texts));
    FoldOne(FieldStep, fields, head);
    HeaderStep(fields, heading);
    BodySteps(fields, heading, texts);
  }

  lemma RawFieldsOfField(lines: seq<string>, spec: Spec, f: Field)
    requires HeaderShape(spec.heading + ":") && NormalForm(spec.kind, f)
    ensures RawFields(lines + FieldLines(spec, f))
            == RawFields(lines) + [RawField(spec.heading, Kept(BodyTexts(spec.kind, f)))]
  {
    var texts := BodyTexts(spec.kind, f);
    forall i | 0 <= i < |texts| ensures BodyLine(texts[i]) { BodyLinesOf(spec.kind, f, i); }
    FoldAppend(FieldStep, [], lines, FieldLines(spec, f));
    RawFieldsOfBody(RawFields(lines), spec.heading, texts);
  }

  /** What a printed field parses into. */
  function RereadField(spec: Spec, f: Field): RawField {
    RawField(spec.heading, Kept(BodyTexts(spec.kind, f)))
  }

  /** The raw fields a printed document parses into. */
  function Reread(specs: seq<Spec>, doc: Document): (raws: seq<RawField>)
    requires |specs| == |doc|
    ensures |raws| == |doc|
  {
    seq(|doc|, i requires 0 <= i < |doc| => RereadField(specs[i], doc[i]))
  }

  lemma RereadSnoc(specs: seq<Spec>, doc: Document)
    requires |specs| == |doc| > 0
    ensures var n := |doc| - 1; Reread(specs, doc) == Reread(specs[..n], doc[..n]) + [RereadField(specs[n], doc[n])]
  {}

  lemma {:induction false} RawFieldsOfDoc(specs: seq<Spec>, doc: Document)
    requires NormalDocument(specs, doc) && forall i :: 0 <= i < |specs| ==> HeaderShape(specs[i].heading + ":")
    ensures RawFields(DocLines(specs, doc)) == Reread(specs, doc)
    decreases |doc|
  {
    if doc != [] {
      var n := |doc| - 1;
      RawFieldsOfDoc(specs[..n], doc[..n]);
      RawFieldsOfField(DocLines(specs[..n], doc[..n]), specs[n], doc[n]);
      RereadSnoc(specs, doc);
    }
  }

  predicate NoException(specs: seq<Spec>, doc: Document)
    requires |specs| == |doc|
  {
    forall i :: 0 <= i < |doc| ==> !LooksLikeException(specs[i].kind, doc[i])
  }

  /** The validator gives the document back exactly when no prose looks like an exception. */
  lemma ValidatedReread(specs: seq<Spec>, doc: Document)
    requires NormalDocument(specs, doc)
    ensures Validated(specs, Reread(specs, doc)) == if NoException(specs, doc) then Some(doc) else None
  {
    var raws := Reread(specs, doc);
    assert HeadingsOf(raws) == Headings(specs);
    var back := NormalizedFields(specs, raws);
    forall i | 0 <= i < |doc|
      ensures if LooksLikeException(specs[i].kind, doc[i]) then !ValidContent(specs[i].kind, back[i]) else back[i] == doc[i]
    {
      FieldRoundTrip(specs[i].kind, doc[i]);
    }
    if NoException(specs, doc) {
      assert back == doc;
      forall i | 0 <= i < |doc| ensures ValidContent(specs[i].kind, back[i]) { assert NormalForm(specs[i].kind, doc[i]); }
    } else {
      var i :| 0 <= i < |doc| && LooksLikeException(specs[i].kind, doc[i]);
      assert !ValidContent(specs[i].kind, back[i]);
    }
  }

  // ---------------------------------------------------------------- opening and header

  lemma HeaderLineVersion()
    ensures HeaderVersion(HeaderLine()) == Some(SCHEMA_VERSION)
  {
    var line := HeaderLine();
    assert line[|HEADER_START|..|line| - |HEADER_END|] == "1";
    assert line[|line| - |HEADER_END|..] == HEADER_END;
    assert "1"[..0] == [];
    assert Decimal("1") == 1;
  }

  lemma HeaderLineText()
    ensures Trimmed(HeaderLine()) && OneLine(HeaderLine()) && HeaderLine()[0] == 'C'
  {
    assert OneLine(HEADER_START) && OneLine("1") && OneLine(HEADER_END);
  }

  lemma DirectiveText()
    ensures Trimmed(DIRECTIVE) && OneLine(DIRECTIVE) && ' ' !in DIRECTIVE && DIRECTIVE[0] == 'c'
    ensures |DIRECTIVE| < |HEADER_PHRASE| <= |HEADER_START| && EXCEPTION_PREFIX[0] == 'c'
  {}

  lemma DirectiveIsNotDecisive()
    ensures !Decisive(DIRECTIVE) && Skipped(DIRECTIVE)
  {
    DirectiveText();
    TrimOfTrimmed(DIRECTIVE);
    ShortIsNotDecisive(DIRECTIVE);
  }

  lemma ShortIsNotDecisive(raw: string)
    requires Trim(raw) == raw && |raw| < |HEADER_PHRASE| <= |HEADER_START|
    ensures !Decisive(raw)
  {
    if ContainsFrom(raw, HEADER_PHRASE) { ContainsNeedsRoom(raw, HEADER_PHRASE); }
  }

  /** A header line holds no end of sentence. */
  lemma HeaderHasNoSentenceEnd(line: string, i: nat)
    requires HeaderVersion(line).Some? && i < |line|
    ensures !SentenceEnd(line[i])
  {
    var a, b := |HEADER_START|, |line| - |HEADER_END|;
    var digits := line[a..b];
    if i < a {
      assert line[i] == HEADER_START[i];
    } else if i < b {
      assert line[i] == digits[i - a];
    } else {
      assert line[b..][i - b] == line[i];
      assert line[i] == HEADER_END[i - b];
    }
  }

  lemma OpeningHasSpace(identifier: string, opening: string)
    requires ValidOpening(identifier, opening)
    ensures ' ' in opening && opening != []
  {
    assert opening[|identifier|] == (identifier + " ")[|identifier|];
  }

  lemma OpeningFacts(identifier: string, opening: string)
    requires ValidOpening(identifier, opening) && Normal(opening)
    ensures Trim(" " + opening) == opening && opening != [] && opening != DIRECTIVE && OneLine(opening)
    ensures HeaderVersion(opening) == None
  {
    OpeningHasSpace(identifier, opening);
    DirectiveText();
    NormalWord(opening);
    TrimOfPadded(" ", opening);
    var i :| |identifier| + 1 <= i < |opening| && SentenceEnd(opening[i]);
    if HeaderVersion(opening).Some? { HeaderHasNoSentenceEnd(opening, i); }
  }

  /** Three lines before the header line: the opening, and two that neither describe nor decide. */
  ghost predicate Framed(lines: seq<string>, opening: string) {
    && |lines| >= 4 && Trim(lines[0]) == opening
    && Skipped(lines[1]) && Skipped(lines[2]) && !Skipped(lines[3]) && Trim(lines[3])[0] == 'C'
    && !Decisive(lines[1]) && !Decisive(lines[2]) && HeaderVersion(Trim(lines[3])) == Some(SCHEMA_VERSION)
  }

  lemma HeaderLineIsDescriptive()
    ensures Trim(" " + HeaderLine()) == HeaderLine() && !Skipped(" " + HeaderLine())
  {
    HeaderLineText();
    DirectiveText();
    TrimOfPadded(" ", HeaderLine());
  }

  lemma FramedBy(opening: string, directive: string, header: string, rest: seq<string>)
    requires Trim(" " + opening) == opening && Skipped(directive) && !Decisive(directive)
    requires Trim(" " + header) == header && !Skipped(" " + header) && header[0] == 'C'
    requires HeaderVersion(header) == Some(SCHEMA_VERSION)
    ensures var lines := [" " + opening, "", directive, " " + header] + rest;
            Framed(lines, opening) && lines[4..] == rest
  {
    var lines := [" " + opening, "", directive, " " + header] + rest;
    assert lines[1] == "" && lines[2] == directive && lines[3] == " " + header;
    EmptyIsNotDecisive("");
  }

  lemma CommentIsFramed(opening: string, specs: seq<Spec>, doc: Document)
    requires |specs| == |doc| && Trim(" " + opening) == opening
    ensures Framed(CommentLines(opening, specs, doc), opening)
    ensures CommentLines(opening, specs, doc)[4..] == DocLines(specs, doc)
  {
    HeaderLineVersion();
    HeaderLineText();
    HeaderLineIsDescriptive();
    DirectiveIsNotDecisive();
    FramedBy(opening, DIRECTIVE, HeaderLine(), DocLines(specs, doc));
  }

  lemma {:induction false} SkippedLines(lines: seq<string>, n: nat)
    requires n <= |lines| && forall i :: 0 <= i < n ==> Skipped(lines[i])
    ensures FromFirstDescriptive(lines) == FromFirstDescriptive(lines[n..])
  {
    if n == 0 {
      assert lines[0..] == lines;
    } else {
      SkippedLines(lines[1..], n - 1);
      assert lines[1..][n - 1..] == lines[n..];
    }
  }

  lemma OpeningOfLines(lines: seq<string>, opening: string)
    requires Framed(lines, opening) && Normal(opening) && opening != [] && !Skipped(lines[0])
    ensures OpeningSentence(lines) == opening
  {
    assert lines[1..][0] == lines[1];
    assert Paragraph(lines) == [opening] + [];
    assert Join([opening]) == opening;
  }

  lemma DescriptiveHead(lines: seq<string>, c: char)
    requires lines != [] && !Skipped(lines[0]) && Trim(lines[0])[0] == c && !IsSpace(c)
    ensures OpeningSentence(lines) != [] && OpeningSentence(lines)[0] == c
  {
    var parts := Paragraph(lines);
    assert parts[0] == Trim(lines[0]);
    assert Join(parts)[0] == c;
    CollapseHead(Join(parts));
  }

  /** An opening that looks like a naming exception is passed over for the header line. */
  lemma OpeningPassedOver(lines: seq<string>, c: char)
    requires |lines| >= 4 && Skipped(lines[0]) && Skipped(lines[1]) && Skipped(lines[2])
    requires !Skipped(lines[3]) && Trim(lines[3])[0] == c && !IsSpace(c)
    ensures OpeningSentence(lines) != [] && OpeningSentence(lines)[0] == c
  {
    SkippedLines(lines, 3);
    DescriptiveHead(lines[3..], c);
  }

  lemma HeaderOfLines(lines: seq<string>, opening: string)
    requires Framed(lines, opening) && HeaderVersion(opening) == None
    ensures HeaderFrom(lines, 0) == if ContainsFrom(opening, HEADER_PHRASE) then None else Some(3)
  {
    if !ContainsFrom(opening, HEADER_PHRASE) {
      assert HeaderFrom(lines, 3) == Some(3);
      assert HeaderFrom(lines, 2) == Some(3);
      assert HeaderFrom(lines, 1) == Some(3);
    }
  }

  // ---------------------------------------------------------------- the round trip

  lemma {:induction false} DocLinesAreOneLine(specs: seq<Spec>, doc: Document)
    requires NormalDocument(specs, doc) && forall i :: 0 <= i < |specs| ==> HeaderShape(specs[i].heading + ":")
    ensures forall k :: 0 <= k < |DocLines(specs, doc)| ==> OneLine(DocLines(specs, doc)[k])
    decreases |doc|
  {
    if doc != [] {
      var n := |doc| - 1;
      DocLinesAreOneLine(specs[..n], doc[..n]);
      FieldLinesAreOneLine(specs[n], doc[n]);
    }
  }

  lemma FieldLinesAreOneLine(spec: Spec, f: Field)
    requires HeaderShape(spec.heading + ":") && NormalForm(spec.kind, f)
    ensures forall k :: 0 <= k < |FieldLines(spec, f)| ==> OneLine(FieldLines(spec, f)[k])
  {
    HeaderStep([], spec.heading);
    var texts := BodyTexts(spec.kind, f);
    forall i | 0 <= i < |texts| ensures OneLine(BODY_INDENT + texts[i]) { BodyLinesOf(spec.kind, f, i); }
  }

  lemma SlashedAreOneLine(lines: seq<string>)
    requires forall k :: 0 <= k < |lines| ==> OneLine(lines[k])
    ensures forall k :: 0 <= k < |lines| ==> OneLine(Slashed(lines)[k])
  {}

  lemma PrintedGroup(lines: seq<string>)
    requires lines != [] && forall k :: 0 <= k < |lines| ==> OneLine(lines[k])
    ensures GroupLines(CommentsOf(Unlines(Slashed(lines)))) == lines
    ensures ByteLength(RawText(CommentsOf(Unlines(Slashed(lines))))) + 1 == ByteLength(Unlines(Slashed(lines)))
  {
    SlashedAreOneLine(lines);
    CommentsOfUnlines(Slashed(lines));
    GroupLinesOfSlashed(lines);
    RawTextBytes(Slashed(lines));
  }

  lemma CommentIsOneLine(opening: string, specs: seq<Spec>, doc: Document)
    requires GoodSchema(specs) && NormalDocument(specs, doc) && OneLine(opening)
    ensures forall k :: 0 <= k < |CommentLines(opening, specs, doc)| ==> OneLine(CommentLines(opening, specs, doc)[k])
  {
    HeaderLineText();
    DirectiveText();
    assert OneLine(" " + opening) && OneLine(" " + HeaderLine());
    DocLinesAreOneLine(specs, doc);
  }

  /** What a caller can check before printing. */
  ghost predicate Survives(opening: string, specs: seq<Spec>, doc: Document)
    requires |specs| == |doc|
  {
    && Normal(opening) && !Contains(opening, HEADER_PHRASE) && !HasPrefix(opening, EXCEPTION_PREFIX)
    && NormalDocument(specs, doc) && NoException(specs, doc)
    && ByteLength(Printed(opening, specs, doc)) <= MAXIMUM_SOURCE_COMMENT_BYTES + 1
  }

  lemma AdmittedIsNormal(specs: seq<Spec>, group: seq<string>)
    requires Admit(specs, group).Some?
    ensures Normal(Admit(specs, group).value.opening) && NormalDocument(specs, Admit(specs, group).value.doc)
  {
    var lines := GroupLines(group);
    CollapseIsNormal(Join(Paragraph(FromFirstDescriptive(lines))));
    var index := HeaderFrom(lines, 0).value;
    ValidatedIsNormal(specs, RawFields(lines[index + 1..]));
  }

  /** Reading framed lines: the three conditions on the opening and on its bytes, then the fields. */
  lemma FramedTrip(specs: seq<Spec>, group: seq<string>, lines: seq<string>, opening: string)
    requires GroupLines(group) == lines && Framed(lines, opening) && Normal(opening) && opening != []
    requires opening != DIRECTIVE && HeaderVersion(opening) == None
    ensures var read := Validated(specs, RawFields(lines[4..]));
            forall doc :: Admit(specs, group) == Some(Admitted(opening, SCHEMA_VERSION, doc)) <==>
              && ByteLength(RawText(group)) <= MAXIMUM_SOURCE_COMMENT_BYTES
              && !HasPrefix(opening, EXCEPTION_PREFIX) && !ContainsFrom(opening, HEADER_PHRASE)
              && read == Some(doc)
  {
    HeaderOfLines(lines, opening);
    DirectiveText();
    if HasPrefix(opening, EXCEPTION_PREFIX) {
      OpeningPassedOver(lines, 'C');
      assert opening[0] == EXCEPTION_PREFIX[0];
    } else {
      OpeningOfLines(lines, opening);
    }
  }

  lemma NormalTrip(identifier: string, opening: string, specs: seq<Spec>, doc: Document)
    requires GoodSchema(specs) && NormalDocument(specs, doc) && ValidOpening(identifier, opening) && Normal(opening)
    ensures Admit(specs, CommentsOf(Printed(opening, specs, doc))) == Some(Admitted(opening, SCHEMA_VERSION, doc))
            <==> Survives(opening, specs, doc)
  {
    var lines := CommentLines(opening, specs, doc);
    OpeningFacts(identifier, opening);
    CommentIsOneLine(opening, specs, doc);
    PrintedGroup(lines);
    CommentIsFramed(opening, specs, doc);
    FramedTrip(specs, CommentsOf(Printed(opening, specs, doc)), lines, opening);
    ContainsFromIff(opening, HEADER_PHRASE);
    RawFieldsOfDoc(specs, doc);
    ValidatedReread(specs, doc);
  }

  /**
   Parsing undoes printing. Whenever the printer accepts its input, reading the printed comment
   back gives exactly the opening sentence, the version and the document that were printed if
   and only if the opening is normalized, does not hold the header phrase and does not look
   like a naming exception; the document is in normal form; no prose looks like a naming
   exception; and the comment is within its byte bound.
   */
  lemma ParsingUndoesPrinting(identifier: string, opening: string, version: nat, specs: seq<Spec>, doc: Document)
    requires GoodSchema(specs) && |specs| == |doc| && Printable(identifier, opening, version, doc)
    ensures Admit(specs, CommentsOf(Printed(opening, specs, doc))) == Some(Admitted(opening, version, doc))
            <==> Survives(opening, specs, doc)
  {
    var group := CommentsOf(Printed(opening, specs, doc));
    if Normal(opening) && NormalDocument(specs, doc) {
      NormalTrip(identifier, opening, specs, doc);
    } else if Admit(specs, group).Some? {
      AdmittedIsNormal(specs, group);
    }
  }
}
