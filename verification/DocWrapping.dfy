/**
 Where the lines of a comment are broken does not matter: breaking a line of the opening or of a
 field at a space leaves what is admitted as it was, exactly unless the second part would be read
 as something else.
 */
module DocWrapping {
  import opened Common
  import opened Text
  import opened DocSchema
  import opened DocParser
  import opened DocValidator
  import opened DocPrinter
  import opened DocWords
  import DocRoundTrip

  // ---------------------------------------------------------------- dashes, in words

  lemma FieldsHead(s: string)
    ensures TrimLeft(s) == [] <==> Fields(s) == []
    ensures TrimLeft(s) != [] ==> Fields(s)[0] == TakeWord(TrimLeft(s))
  {}

  lemma TrimHead(s: string)
    ensures Trim(s) != "" <==> Fields(s) != []
    ensures Fields(s) != [] ==> Fields(s)[0] != [] && Trim(s)[0] == Fields(s)[0][0]
  {
    FieldsHead(s);
    TrimLeftShrinks(s);
    var t := TrimLeft(s);
    if t != [] { TrimRightKeepsHead(t); }
  }

  lemma {:induction false} TrimRightKeepsHead(s: string)
    requires s != [] && !IsSpace(s[0])
    ensures TrimRight(s) != [] && TrimRight(s)[0] == s[0]
  {
    if IsSpace(s[|s| - 1]) { TrimRightKeepsHead(s[..|s| - 1]); }
  }

  /** A line is dashed exactly if its first word starts with a dash. */
  lemma DashedByWords(s: string)
    ensures DashedLine(s) <==> Fields(s) != [] && HasPrefix(Fields(s)[0], "-")
  {
    TrimHead(s);
    assert "-" == ['-'];
  }

  predicate DashedWords(words: seq<string>) {
    words != [] && HasPrefix(words[0], "-")
  }

  /** The words after the dash. */
  function AfterDash(words: seq<string>): seq<string>
    requires DashedWords(words)
  {
    (if |words[0]| == 1 then [] else [words[0][1..]]) + words[1..]
  }

  lemma AfterDashSplit(a: seq<string>, b: seq<string>)
    requires a != []
    ensures DashedWords(a + b) <==> DashedWords(a)
    ensures DashedWords(a) ==> AfterDash(a + b) == AfterDash(a) + b
  {}

  lemma WordsOfTrimmed(t: string)
    requires t != [] && !IsSpace(t[0])
    ensures Fields(t) == [TakeWord(t)] + Fields(t[|TakeWord(t)|..])
  {}

  lemma CutAt(t: string, w: string)
    requires w <= t
    ensures t == w + t[|w|..]
  {}

  lemma DropHead(t: string, w: string, rest: string)
    requires t == w + rest && w != []
    ensures t[1..] == w[1..] + rest
  {}

  lemma AfterDashCons(w: string, words: seq<string>)
    requires w != [] && DashedWords([w] + words)
    ensures AfterDash([w] + words) == (if w[1..] == [] then [] else [w[1..]]) + words
  {
    assert ([w] + words)[1..] == words;
  }

  lemma WordsWithoutHead(t: string)
    requires t != [] && !IsSpace(t[0]) && DashedWords(Fields(t))
    ensures Fields(t[1..]) == AfterDash(Fields(t))
  {
    WordsOfTrimmed(t);
    var w := TakeWord(t);
    var rest := t[|w|..];
    CutAt(t, w);
    AfterDashCons(w, Fields(rest));
    DropHead(t, w, rest);
    HeadlessWords(t[1..], w[1..], rest);
  }

  /** So its words say whether it is dashed, and which words follow the dash. */
  lemma WordsAfterDash(s: string)
    ensures DashedLine(s) <==> DashedWords(Fields(s))
    ensures DashedLine(s) ==> Fields(Trim(s)[1..]) == AfterDash(Fields(s))
  {
    DashedByWords(s);
    if DashedLine(s) {
      FieldsOfTrim(s);
      WordsWithoutHead(Trim(s));
    }
  }

  lemma HeadlessWords(s: string, w: string, rest: string)
    requires s == w + rest && NoSpace(w) && (rest == [] || IsSpace(rest[0]))
    ensures Fields(s) == (if w == [] then [] else [w]) + Fields(rest)
  {
    if w != [] { FieldsOfWord(w); }
    if rest == [] {
      assert s == w;
    } else {
      assert rest == [rest[0]] + rest[1..] && s == w + [rest[0]] + rest[1..];
      FieldsAtSpace(w, rest[0], rest[1..]);
      LeadingSpace(rest[0], rest[1..]);
    }
  }

  // ---------------------------------------------------------------- lists of items that read alike

  type Reading = string -> seq<string>

  type Stepping = (seq<string>, string) -> seq<string>

  /** The same items, as far as their words go. */
  ghost predicate Alike(words: Reading, a: seq<string>, b: seq<string>) {
    |a| == |b| && forall k :: 0 <= k < |a| ==> words(a[k]) == words(b[k])
  }

  /** The list is `items` and one more item with these words. */
  ghost predicate Ends(words: Reading, list: seq<string>, items: seq<string>, last: seq<string>) {
    |list| == |items| + 1 && list[..|items|] == items && words(list[|items|]) == last
  }

  /** Dashed lines start an item, others continue the last one; a line's words say which it is. */
  ghost predicate StepLaws(words: Reading, step: Stepping) {
    && (forall items, line {:trigger step(items, line)} :: DashedWords(words(line)) ==> Ends(words, step(items, line), items, AfterDash(words(line))))
    && (forall items, line {:trigger step(items, line)} :: !DashedWords(words(line)) && items != [] ==>
          Ends(words, step(items, line), items[..|items| - 1], words(items[|items| - 1]) + words(line)))
    && (forall line {:trigger step([], line)} :: !DashedWords(words(line)) ==> step([], line) == [])
  }

  lemma EndsAlike(words: Reading, a: seq<string>, b: seq<string>, x: seq<string>, y: seq<string>, last: seq<string>)
    requires Ends(words, a, x, last) && Ends(words, b, y, last) && Alike(words, x, y)
    ensures Alike(words, a, b)
  {
    forall k | 0 <= k < |a| ensures words(a[k]) == words(b[k]) {
      if k < |x| { assert a[k] == a[..|x|][k] && b[k] == b[..|y|][k]; }
    }
  }

  lemma StepAlike(words: Reading, step: Stepping, a: seq<string>, b: seq<string>, line: string)
    requires StepLaws(words, step) && Alike(words, a, b)
    ensures Alike(words, step(a, line), step(b, line))
  {
    if DashedWords(words(line)) {
      EndsAlike(words, step(a, line), step(b, line), a, b, AfterDash(words(line)));
    } else if a != [] {
      var n := |a| - 1;
      EndsAlike(words, step(a, line), step(b, line), a[..n], b[..n], words(a[n]) + words(line));
    }
  }

  /** The line was broken in two: its words are theirs, in order. */
  ghost predicate BrokenInto(words: Reading, line: string, first: string, second: string) {
    words(line) == words(first) + words(second) && words(first) != [] && words(second) != []
  }

  lemma StepContinues(words: Reading, step: Stepping, list: seq<string>, items: seq<string>, last: seq<string>, line: string)
    requires StepLaws(words, step) && Ends(words, list, items, last) && !DashedWords(words(line))
    ensures Ends(words, step(list, line), items, last + words(line))
  {}

  /** Breaking a line into one that starts as it does and one that continues it adds the same words. */
  lemma BreakStep(words: Reading, step: Stepping, items: seq<string>, line: string, first: string, second: string)
    requires StepLaws(words, step) && BrokenInto(words, line, first, second) && !DashedWords(words(second))
    ensures Alike(words, step(items, line), step(step(items, first), second))
  {
    AfterDashSplit(words(first), words(second));
    var mid := step(items, first);
    if DashedWords(words(line)) {
      StepContinues(words, step, mid, items, AfterDash(words(first)), second);
      EndsAlike(words, step(items, line), step(mid, second), items, items, AfterDash(words(line)));
    } else if items != [] {
      var n := |items| - 1;
      StepContinues(words, step, mid, items[..n], words(items[n]) + words(first), second);
      assert words(items[n]) + words(first) + words(second) == words(items[n]) + words(line);
      EndsAlike(words, step(items, line), step(mid, second), items[..n], items[..n], words(items[n]) + words(line));
    }
  }

  lemma DashLaw(items: seq<string>, line: string)
    requires DashedWords(Fields(line))
    ensures Ends(Fields, ItemStep(items, line), items, AfterDash(Fields(line)))
  {
    WordsAfterDash(line);
    FieldsOfTrim(Trim(line)[1..]);
  }

  lemma ContinuationLaw(items: seq<string>, line: string)
    requires !DashedWords(Fields(line)) && items != []
    ensures Ends(Fields, ItemStep(items, line), items[..|items| - 1], Fields(items[|items| - 1]) + Fields(line))
  {
    DashedByWords(line);
    var n := |items| - 1;
    assert items == items[..n] + [items[n]];
    var more := ItemContinues(items[..n], items[n], line);
  }

  /** The list parser is such a step. */
  lemma ItemStepLaws()
    ensures StepLaws(Fields, ItemStep)
  {
    forall items, line | DashedWords(Fields(line)) ensures Ends(Fields, ItemStep(items, line), items, AfterDash(Fields(line))) {
      DashLaw(items, line);
    }
    forall items, line | !DashedWords(Fields(line)) && items != []
      ensures Ends(Fields, ItemStep(items, line), items[..|items| - 1], Fields(items[|items| - 1]) + Fields(line))
    {
      ContinuationLaw(items, line);
    }
    forall line | !DashedWords(Fields(line)) ensures ItemStep([], line) == [] { DashedByWords(line); }
  }

  // ---------------------------------------------------------------- bodies that read alike

  ghost predicate BodyAlike(words: Reading, step: Stepping, a: seq<string>, b: seq<string>) {
    FlatMap(words, a) == FlatMap(words, b) && Alike(words, Fold(step, [], a), Fold(step, [], b))
  }

  lemma AlikeCollapseAlike(a: seq<string>, b: seq<string>)
    requires Alike(Fields, a, b)
    ensures CollapseAll(a) == CollapseAll(b)
  {
    forall k | 0 <= k < |a| ensures Collapse(a[k]) == Collapse(b[k]) {}
  }

  lemma BodyAlikeSameField(kind: Kind, a: seq<string>, b: seq<string>)
    requires BodyAlike(Fields, ItemStep, a, b)
    ensures NormalizedField(kind, a) == NormalizedField(kind, b)
  {
    WordsOfJoin(a);
    WordsOfJoin(b);
    AlikeCollapseAlike(ItemLines(a), ItemLines(b));
  }

  lemma BodyGrowsBy(words: Reading, step: Stepping, body: seq<string>, line: string)
    ensures Fold(step, [], body + [line]) == step(Fold(step, [], body), line)
    ensures FlatMap(words, body + [line]) == FlatMap(words, body) + words(line)
  {
    FoldAppend(step, [], body, [line]);
    FoldOne(step, Fold(step, [], body), line);
    FlatMapAppend(words, body, [line]);
    FlatMapOne(words, line);
  }

  lemma BodyAlikeGrows(words: Reading, step: Stepping, a: seq<string>, b: seq<string>, line: string)
    requires StepLaws(words, step) && BodyAlike(words, step, a, b)
    ensures BodyAlike(words, step, a + [line], b + [line])
  {
    BodyGrowsBy(words, step, a, line);
    BodyGrowsBy(words, step, b, line);
    StepAlike(words, step, Fold(step, [], a), Fold(step, [], b), line);
  }

  lemma BreakBody(words: Reading, step: Stepping, body: seq<string>, line: string, first: string, second: string)
    requires StepLaws(words, step) && BrokenInto(words, line, first, second) && !DashedWords(words(second))
    ensures BodyAlike(words, step, body + [line], body + [first] + [second])
  {
    BodyGrowsBy(words, step, body, line);
    BodyGrowsBy(words, step, body, first);
    BodyGrowsBy(words, step, body + [first], second);
    BreakStep(words, step, Fold(step, [], body), line, first, second);
  }

  // ---------------------------------------------------------------- raw fields that read alike

  ghost predicate FieldAlike(words: Reading, step: Stepping, x: RawField, y: RawField) {
    x.heading == y.heading && BodyAlike(words, step, x.body, y.body)
  }

  ghost predicate RawAlike(words: Reading, step: Stepping, a: seq<RawField>, b: seq<RawField>) {
    |a| == |b| && forall k :: 0 <= k < |a| ==> FieldAlike(words, step, a[k], b[k])
  }

  type Parsing = (seq<RawField>, string) -> seq<RawField>

  /** How lines are read: which open a field, under which heading, and what a body keeps of the others. */
  datatype Layout = Layout(opens: string -> bool, head: string -> string, keep: string -> seq<string>)

  function Grown(x: RawField, more: seq<string>): RawField {
    RawField(x.heading, x.body + more)
  }

  ghost predicate ParseLaws(layout: Layout, parse: Parsing) {
    && (forall raws, raw {:trigger parse(raws, raw)} :: layout.opens(raw) ==> parse(raws, raw) == raws + [RawField(layout.head(raw), [])])
    && (forall raws, raw {:trigger parse(raws, raw)} :: !layout.opens(raw) && raws != [] ==>
          parse(raws, raw) == raws[..|raws| - 1] + [Grown(raws[|raws| - 1], layout.keep(raw))])
    && (forall raw {:trigger parse([], raw)} :: !layout.opens(raw) ==> parse([], raw) == [])
    && (forall raw :: |layout.keep(raw)| <= 1)
  }

  lemma RawLastAlike(words: Reading, step: Stepping, a: seq<RawField>, x: RawField, b: seq<RawField>, y: RawField)
    requires RawAlike(words, step, a, b) && FieldAlike(words, step, x, y)
    ensures RawAlike(words, step, a + [x], b + [y])
  {}

  lemma GrownAlike(words: Reading, step: Stepping, x: RawField, y: RawField, more: seq<string>)
    requires StepLaws(words, step) && FieldAlike(words, step, x, y) && |more| <= 1
    ensures FieldAlike(words, step, Grown(x, more), Grown(y, more))
  {
    if more == [] {
      assert Grown(x, more) == x && Grown(y, more) == y;
    } else {
      assert more == [more[0]];
      BodyAlikeGrows(words, step, x.body, y.body, more[0]);
    }
  }

  lemma ParseAlike(words: Reading, step: Stepping, layout: Layout, parse: Parsing, a: seq<RawField>, b: seq<RawField>, raw: string)
    requires StepLaws(words, step) && ParseLaws(layout, parse) && RawAlike(words, step, a, b)
    ensures RawAlike(words, step, parse(a, raw), parse(b, raw))
  {
    if layout.opens(raw) {
      var fresh_ := RawField(layout.head(raw), []);
      RawLastAlike(words, step, a, fresh_, b, fresh_);
    } else if a != [] {
      var n := |a| - 1;
      assert FieldAlike(words, step, a[n], b[n]);
      GrownAlike(words, step, a[n], b[n], layout.keep(raw));
      RawLastAlike(words, step, a[..n], Grown(a[n], layout.keep(raw)), b[..n], Grown(b[n], layout.keep(raw)));
    }
  }

  lemma {:induction false} FoldParseAlike(words: Reading, step: Stepping, layout: Layout, parse: Parsing,
                                          a: seq<RawField>, b: seq<RawField>, lines: seq<string>)
    requires StepLaws(words, step) && ParseLaws(layout, parse) && RawAlike(words, step, a, b)
    ensures RawAlike(words, step, Fold(parse, a, lines), Fold(parse, b, lines))
    decreases |lines|
  {
    if lines != [] {
      ParseAlike(words, step, layout, parse, a, b, lines[0]);
      FoldParseAlike(words, step, layout, parse, parse(a, lines[0]), parse(b, lines[0]), lines[1..]);
    }
  }

  /** The line is broken into lines that are read as it was, as parts of one body. */
  ghost predicate Harmless(words: Reading, layout: Layout, raw: string, p: string, q: string) {
    && !layout.opens(raw) && !layout.opens(p) && !layout.opens(q)
    && |layout.keep(raw)| == |layout.keep(p)| == |layout.keep(q)| == 1
    && BrokenInto(words, layout.keep(raw)[0], layout.keep(p)[0], layout.keep(q)[0])
    && !DashedWords(words(layout.keep(q)[0]))
  }

  lemma BreakParse(words: Reading, step: Stepping, layout: Layout, parse: Parsing, raws: seq<RawField>, raw: string, p: string, q: string)
    requires StepLaws(words, step) && ParseLaws(layout, parse) && Harmless(words, layout, raw, p, q)
    ensures RawAlike(words, step, parse(raws, raw), parse(parse(raws, p), q))
  {
    if raws != [] {
      var front, x := raws[..|raws| - 1], raws[|raws| - 1];
      var t, u, v := layout.keep(raw)[0], layout.keep(p)[0], layout.keep(q)[0];
      assert layout.keep(raw) == [t] && layout.keep(p) == [u] && layout.keep(q) == [v];
      var mid := parse(raws, p);
      assert mid == front + [Grown(x, [u])] && mid[..|mid| - 1] == front;
      assert Grown(Grown(x, [u]), [v]) == RawField(x.heading, x.body + [u] + [v]);
      BreakBody(words, step, x.body, t, u, v);
      RawLastAlike(words, step, front, Grown(x, [t]), front, Grown(Grown(x, [u]), [v]));
    }
  }

  lemma BreakLines(words: Reading, step: Stepping, layout: Layout, parse: Parsing,
                   a: seq<string>, raw: string, p: string, q: string, b: seq<string>)
    requires StepLaws(words, step) && ParseLaws(layout, parse) && Harmless(words, layout, raw, p, q)
    ensures RawAlike(words, step, Fold(parse, [], a + [raw] + b), Fold(parse, [], a + [p, q] + b))
  {
    var before := Fold(parse, [], a);
    FoldAppend(parse, [], a, [raw]);
    FoldOne(parse, before, raw);
    FoldAppend(parse, [], a, [p, q]);
    assert [p, q] == [p] + [q];
    FoldAppend(parse, before, [p], [q]);
    FoldOne(parse, before, p);
    FoldOne(parse, parse(before, p), q);
    BreakParse(words, step, layout, parse, before, raw, p, q);
    FoldAppend(parse, [], a + [raw], b);
    FoldAppend(parse, [], a + [p, q], b);
    FoldParseAlike(words, step, layout, parse, Fold(parse, [], a + [raw]), Fold(parse, [], a + [p, q]), b);
  }

  function HeadingOf(raw: string): string {
    TrimSuffix(Trim(raw), ":")
  }

  const COMMENT_LAYOUT := Layout(Opens, HeadingOf, KeptLine)

  lemma BodyLaw(raws: seq<RawField>, raw: string)
    requires !Opens(raw) && raws != []
    ensures FieldStep(raws, raw) == raws[..|raws| - 1] + [Grown(raws[|raws| - 1], KeptLine(raw))]
  {
    var n := |raws| - 1;
    assert raws == raws[..n] + [RawField(raws[n].heading, raws[n].body)];
    BodyGrows(raws[..n], raws[n].heading, raws[n].body, raw);
  }

  lemma OpenLaw(raws: seq<RawField>, raw: string)
    requires Opens(raw)
    ensures FieldStep(raws, raw) == raws + [RawField(HeadingOf(raw), [])]
  {}

  lemma StrayLaw(raw: string)
    requires !Opens(raw)
    ensures FieldStep([], raw) == []
  {}

  /** The field parser reads lines so. */
  lemma FieldStepLaws()
    ensures ParseLaws(COMMENT_LAYOUT, FieldStep)
  {
    forall raws: seq<RawField>, raw | COMMENT_LAYOUT.opens(raw)
      ensures FieldStep(raws, raw) == raws + [RawField(COMMENT_LAYOUT.head(raw), [])]
    {
      OpenLaw(raws, raw);
    }
    forall raws: seq<RawField>, raw | !COMMENT_LAYOUT.opens(raw) && raws != []
      ensures FieldStep(raws, raw) == raws[..|raws| - 1] + [Grown(raws[|raws| - 1], COMMENT_LAYOUT.keep(raw))]
    {
      BodyLaw(raws, raw);
    }
    forall raw | !COMMENT_LAYOUT.opens(raw) ensures FieldStep([], raw) == [] { StrayLaw(raw); }
  }

  lemma AlikeValidateAlike(specs: seq<Spec>, a: seq<RawField>, b: seq<RawField>)
    requires RawAlike(Fields, ItemStep, a, b)
    ensures Validated(specs, a) == Validated(specs, b)
  {
    forall k | 0 <= k < |a| ensures HeadingsOf(a)[k] == HeadingsOf(b)[k] { assert FieldAlike(Fields, ItemStep, a[k], b[k]); }
    assert HeadingsOf(a) == HeadingsOf(b);
    if |a| == |specs| {
      forall k | 0 <= k < |a| ensures NormalizedFields(specs, a)[k] == NormalizedFields(specs, b)[k] {
        assert FieldAlike(Fields, ItemStep, a[k], b[k]);
        BodyAlikeSameField(specs[k].kind, a[k].body, b[k].body);
      }
      assert NormalizedFields(specs, a) == NormalizedFields(specs, b);
    } else {
      assert |HeadingsOf(a)| == |a| && |Headings(specs)| == |specs|;
    }
  }

  // ---------------------------------------------------------------- lines of a comment

  /** A line of a body: it is kept, and opens no field. */
  predicate BodyText(raw: string) {
    !Ignored(Trim(raw)) && !Opens(raw)
  }

  /** The line of a body is broken at white space, and what follows it starts no item. */
  ghost predicate BodyBreak(raw: string, p: string, q: string) {
    BodyText(raw) && BodyText(p) && BodyText(q) && Fields(raw) == Fields(p) + Fields(q) && !DashedLine(q)
  }

  lemma BodyBreakIsHarmless(raw: string, p: string, q: string)
    requires BodyBreak(raw, p, q)
    ensures Harmless(Fields, COMMENT_LAYOUT, raw, p, q)
  {
    FieldsOfTrim(raw);
    FieldsOfTrim(p);
    FieldsOfTrim(q);
    TrimHead(p);
    TrimHead(q);
    DashedByWords(q);
  }

  /** Lines after the header read the same. */
  lemma BrokenLinesReadAlike(specs: seq<Spec>, a: seq<string>, raw: string, p: string, q: string, b: seq<string>)
    requires BodyBreak(raw, p, q)
    ensures Validated(specs, RawFields(a + ([raw] + b))) == Validated(specs, RawFields(a + ([p, q] + b)))
  {
    assert a + [raw] + b == a + ([raw] + b) && a + [p, q] + b == a + ([p, q] + b);
    ItemStepLaws();
    FieldStepLaws();
    BodyBreakIsHarmless(raw, p, q);
    BreakLines(Fields, ItemStep, COMMENT_LAYOUT, FieldStep, a, raw, p, q, b);
    AlikeValidateAlike(specs, RawFields(a + [raw] + b), RawFields(a + [p, q] + b));
  }

  // ---------------------------------------------------------------- the opening

  /** A line of a paragraph, broken at white space into lines of one. */
  ghost predicate OpeningBreak(raw: string, p: string, q: string) {
    !Skipped(raw) && !Skipped(p) && !Skipped(q) && Fields(raw) == Fields(p) + Fields(q)
  }

  /** The words of the lines up to the first skipped one. */
  function RunWords(skip: string -> bool, words: Reading, lines: seq<string>): seq<string> {
    if lines == [] || skip(lines[0]) then [] else words(lines[0]) + RunWords(skip, words, lines[1..])
  }

  /** The same, after the skipped lines in front. */
  function FirstRunWords(skip: string -> bool, words: Reading, lines: seq<string>): seq<string> {
    if lines != [] && skip(lines[0]) then FirstRunWords(skip, words, lines[1..]) else RunWords(skip, words, lines)
  }

  lemma {:induction false} ParagraphIsRun(lines: seq<string>)
    ensures Words(Paragraph(lines)) == RunWords(Skipped, Fields, lines)
  {
    if lines != [] && !Skipped(lines[0]) {
      ParagraphIsRun(lines[1..]);
      FieldsOfTrim(lines[0]);
      assert ([Trim(lines[0])] + Paragraph(lines[1..]))[1..] == Paragraph(lines[1..]);
    }
  }

  lemma {:induction false} OpeningIsFirstRun(lines: seq<string>)
    ensures Words(Paragraph(FromFirstDescriptive(lines))) == FirstRunWords(Skipped, Fields, lines)
  {
    if lines != [] && Skipped(lines[0]) {
      OpeningIsFirstRun(lines[1..]);
    } else {
      ParagraphIsRun(lines);
    }
  }

  lemma {:induction false} BrokenRun(skip: string -> bool, words: Reading, a: seq<string>, raw: string, p: string, q: string, b: seq<string>)
    requires !skip(raw) && !skip(p) && !skip(q) && words(raw) == words(p) + words(q)
    ensures RunWords(skip, words, a + [raw] + b) == RunWords(skip, words, a + [p, q] + b)
  {
    var x, y := a + [raw] + b, a + [p, q] + b;
    if a == [] {
      assert x[0] == raw && x[1..] == b && y[0] == p && y[1..][0] == q && y[1..][1..] == b;
    } else {
      assert x[0] == a[0] && y[0] == a[0] && x[1..] == a[1..] + [raw] + b && y[1..] == a[1..] + [p, q] + b;
      BrokenRun(skip, words, a[1..], raw, p, q, b);
    }
  }

  lemma {:induction false} BrokenFirstRun(skip: string -> bool, words: Reading, a: seq<string>, raw: string, p: string, q: string, b: seq<string>)
    requires !skip(raw) && !skip(p) && !skip(q) && words(raw) == words(p) + words(q)
    ensures FirstRunWords(skip, words, a + [raw] + b) == FirstRunWords(skip, words, a + [p, q] + b)
  {
    var x, y := a + [raw] + b, a + [p, q] + b;
    BrokenRun(skip, words, a, raw, p, q, b);
    if a == [] {
      assert x[0] == raw && y[0] == p;
    } else {
      assert x[0] == a[0] && y[0] == a[0] && x[1..] == a[1..] + [raw] + b && y[1..] == a[1..] + [p, q] + b;
      BrokenFirstRun(skip, words, a[1..], raw, p, q, b);
    }
  }

  lemma OpeningByWords(x: seq<string>, y: seq<string>)
    requires FirstRunWords(Skipped, Fields, x) == FirstRunWords(Skipped, Fields, y)
    ensures OpeningSentence(x) == OpeningSentence(y)
  {
    OpeningIsFirstRun(x);
    OpeningIsFirstRun(y);
    WordsOfJoin(Paragraph(FromFirstDescriptive(x)));
    WordsOfJoin(Paragraph(FromFirstDescriptive(y)));
  }

  lemma BrokenOpening(a: seq<string>, raw: string, p: string, q: string, b: seq<string>)
    requires OpeningBreak(raw, p, q)
    ensures OpeningSentence(a + [raw] + b) == OpeningSentence(a + [p, q] + b)
  {
    BrokenFirstRun(Skipped, Fields, a, raw, p, q, b);
    OpeningByWords(a + [raw] + b, a + [p, q] + b);
  }

  /** Once a paragraph has ended, what follows is no part of the opening. */
  lemma {:induction false} RunEnds(skip: string -> bool, words: Reading, a: seq<string>, more: seq<string>)
    requires exists k :: 0 <= k < |a| && skip(a[k])
    ensures RunWords(skip, words, a + more) == RunWords(skip, words, a)
  {
    assert (a + more)[0] == a[0];
    if !skip(a[0]) {
      var k :| 0 <= k < |a| && skip(a[k]);
      assert a[1..][k - 1] == a[k] && (a + more)[1..] == a[1..] + more;
      RunEnds(skip, words, a[1..], more);
    }
  }

  /** The lines hold a paragraph that has ended. */
  ghost predicate ParagraphEnds(skip: string -> bool, a: seq<string>) {
    exists i, k :: 0 <= i < k < |a| && !skip(a[i]) && skip(a[k])
  }

  lemma {:induction false} FirstRunEnds(skip: string -> bool, words: Reading, a: seq<string>, more: seq<string>)
    requires ParagraphEnds(skip, a)
    ensures FirstRunWords(skip, words, a + more) == FirstRunWords(skip, words, a)
  {
    var i, k :| 0 <= i < k < |a| && !skip(a[i]) && skip(a[k]);
    assert (a + more)[0] == a[0];
    if skip(a[0]) {
      assert a[1..][i - 1] == a[i] && a[1..][k - 1] == a[k] && (a + more)[1..] == a[1..] + more;
      FirstRunEnds(skip, words, a[1..], more);
    } else {
      RunEnds(skip, words, a, more);
    }
  }

  // ---------------------------------------------------------------- the whole comment

  lemma HeaderBefore(a: seq<string>, index: nat, more: seq<string>)
    requires HeaderAt(a, index)
    ensures HeaderAt(a + more, index)
  {
    assert forall j :: 0 <= j <= index ==> (a + more)[j] == a[j];
  }

  lemma SameBehindHeader(specs: seq<Spec>, a: seq<string>, index: nat, x: seq<string>, y: seq<string>)
    requires HeaderAt(a, index)
    requires Validated(specs, RawFields(a[index + 1..] + x)) == Validated(specs, RawFields(a[index + 1..] + y))
    ensures DocumentOf(specs, a + x) == DocumentOf(specs, a + y)
  {
    AfterHeader(specs, a, index, x);
    AfterHeader(specs, a, index, y);
  }

  /** Breaking a line of a body after the header leaves the document as it was. */
  lemma BrokenBodyLine(specs: seq<Spec>, a: seq<string>, index: nat, raw: string, p: string, q: string, b: seq<string>)
    requires HeaderAt(a, index) && BodyBreak(raw, p, q)
    ensures DocumentOf(specs, a + ([raw] + b)) == DocumentOf(specs, a + ([p, q] + b))
  {
    BrokenLinesReadAlike(specs, a[index + 1..], raw, p, q, b);
    SameBehindHeader(specs, a, index, [raw] + b, [p, q] + b);
  }

  lemma AfterHeader(specs: seq<Spec>, a: seq<string>, index: nat, more: seq<string>)
    requires HeaderAt(a, index)
    ensures DocumentOf(specs, a + more) == Validated(specs, RawFields(a[index + 1..] + more))
  {
    HeaderBefore(a, index, more);
    DocumentAt(specs, a + more, index);
    assert (a + more)[index + 1..] == a[index + 1..] + more;
  }

  /** The lines before a break, and after it, one further on. */
  ghost predicate Inserted(x: seq<string>, y: seq<string>, n: nat) {
    && n < |x| && |y| == |x| + 1
    && (forall j :: 0 <= j < n ==> x[j] == y[j]) && (forall j :: n < j < |x| ==> x[j] == y[j + 1])
  }

  lemma HeaderShifts(x: seq<string>, y: seq<string>, n: nat, index: nat)
    requires Inserted(x, y, n) && index > n && !Decisive(x[n]) && !Decisive(y[n]) && !Decisive(y[n + 1])
    ensures HeaderAt(x, index) <==> HeaderAt(y, index + 1)
  {
    if HeaderAt(x, index) {
      forall j | 0 <= j < index + 1 ensures !Decisive(y[j]) {
        if j > n + 1 { assert y[j] == x[j - 1]; } else if j < n { assert y[j] == x[j]; }
      }
    }
    if HeaderAt(y, index + 1) {
      forall j | 0 <= j < index ensures !Decisive(x[j]) {
        if j > n { assert x[j] == y[j + 1]; } else if j < n { assert x[j] == y[j]; }
      }
    }
  }

  lemma HeaderIsDecisive(lines: seq<string>, index: nat)
    requires HeaderAt(lines, index)
    ensures Decisive(lines[index])
  {}

  lemma SameTails(x: seq<string>, y: seq<string>, n: nat, index: nat)
    requires Inserted(x, y, n) && n < index < |x|
    ensures x[index + 1..] == y[index + 2..]
  {}

  lemma SameAfter(specs: seq<Spec>, x: seq<string>, y: seq<string>, n: nat, index: nat)
    requires Inserted(x, y, n) && n < index && HeaderAt(x, index) && HeaderAt(y, index + 1)
    ensures DocumentOf(specs, x) == DocumentOf(specs, y)
  {
    DocumentAt(specs, x, index);
    DocumentAt(specs, y, index + 1);
    SameTails(x, y, n, index);
  }

  /** No line of the break is a header, and none is before it. */
  ghost predicate Headless(x: seq<string>, y: seq<string>, n: nat)
    requires Inserted(x, y, n)
  {
    && !Decisive(x[n]) && !Decisive(y[n]) && !Decisive(y[n + 1])
    && forall index: nat :: index < n ==> !HeaderAt(x, index) && !HeaderAt(y, index)
  }

  lemma HeaderAfterBreak(x: seq<string>, y: seq<string>, n: nat, index: nat)
    requires Inserted(x, y, n) && Headless(x, y, n)
    ensures HeaderAt(x, index) ==> index > n
    ensures HeaderAt(y, index) ==> index > n + 1
  {
    if HeaderAt(x, index) { HeaderIsDecisive(x, index); }
    if HeaderAt(y, index) { HeaderIsDecisive(y, index); }
  }

  lemma HeaderInEither(specs: seq<Spec>, x: seq<string>, y: seq<string>, n: nat) returns (index: nat)
    requires Inserted(x, y, n) && Headless(x, y, n) && (DocumentOf(specs, x).Some? || DocumentOf(specs, y).Some?)
    ensures index > n && HeaderAt(x, index) && HeaderAt(y, index + 1)
  {
    if DocumentOf(specs, x).Some? {
      index := HeaderFound(specs, x);
      HeaderAfterBreak(x, y, n, index);
    } else {
      var later := HeaderFound(specs, y);
      HeaderAfterBreak(x, y, n, later);
      index := later - 1;
    }
    HeaderShifts(x, y, n, index);
  }

  /** Breaking a line before the header leaves the document as it was. */
  lemma BrokenEarlyLine(specs: seq<Spec>, x: seq<string>, y: seq<string>, n: nat)
    requires Inserted(x, y, n) && Headless(x, y, n)
    ensures DocumentOf(specs, x) == DocumentOf(specs, y)
  {
    if DocumentOf(specs, x).Some? || DocumentOf(specs, y).Some? {
      var index := HeaderInEither(specs, x, y, n);
      SameAfter(specs, x, y, n, index);
    }
  }

  predicate FitsBound(group: seq<string>) {
    ByteLength(RawText(group)) <= MAXIMUM_SOURCE_COMMENT_BYTES
  }

  lemma AdmitByParts(specs: seq<Spec>, g: seq<string>, h: seq<string>)
    requires FitsBound(g) && FitsBound(h)
    requires OpeningSentence(GroupLines(g)) == OpeningSentence(GroupLines(h))
    requires DocumentOf(specs, GroupLines(g)) == DocumentOf(specs, GroupLines(h))
    ensures Admit(specs, g) == Admit(specs, h)
  {}

  /** Breaking a line of a field where it has white space changes nothing that is admitted. */
  lemma BreakingABodyLine(specs: seq<Spec>, g: seq<string>, h: seq<string>, a: seq<string>, index: nat,
                          raw: string, p: string, q: string, b: seq<string>)
    requires FitsBound(g) && FitsBound(h) && GroupLines(g) == a + ([raw] + b) && GroupLines(h) == a + ([p, q] + b)
    requires HeaderAt(a, index) && ParagraphEnds(Skipped, a) && BodyBreak(raw, p, q)
    ensures Admit(specs, g) == Admit(specs, h)
  {
    FirstRunEnds(Skipped, Fields, a, [raw] + b);
    FirstRunEnds(Skipped, Fields, a, [p, q] + b);
    OpeningByWords(GroupLines(g), GroupLines(h));
    BrokenBodyLine(specs, a, index, raw, p, q, b);
    AdmitByParts(specs, g, h);
  }

  lemma BreakInserts(a: seq<string>, raw: string, p: string, q: string, b: seq<string>)
    ensures var x, y := a + [raw] + b, a + [p, q] + b;
            Inserted(x, y, |a|) && x[|a|] == raw && y[|a|] == p && y[|a| + 1] == q
  {}

  lemma BreakIsHeadless(a: seq<string>, raw: string, p: string, q: string, b: seq<string>)
    requires !Decisive(raw) && !Decisive(p) && !Decisive(q) && forall index: nat :: !HeaderAt(a, index)
    ensures Inserted(a + [raw] + b, a + [p, q] + b, |a|) && Headless(a + [raw] + b, a + [p, q] + b, |a|)
  {
    BreakInserts(a, raw, p, q, b);
    assert a + [raw] + b == a + ([raw] + b) && a + [p, q] + b == a + ([p, q] + b);
    forall index: nat | index < |a|
      ensures !HeaderAt(a + [raw] + b, index) && !HeaderAt(a + [p, q] + b, index)
    {
      HeaderNotBefore(a, [raw] + b, index);
      HeaderNotBefore(a, [p, q] + b, index);
    }
  }

  /** Breaking a line of the opening where it has white space changes nothing that is admitted. */
  lemma BreakingAnOpeningLine(specs: seq<Spec>, g: seq<string>, h: seq<string>, a: seq<string>,
                              raw: string, p: string, q: string, b: seq<string>)
    requires FitsBound(g) && FitsBound(h) && GroupLines(g) == a + [raw] + b && GroupLines(h) == a + [p, q] + b
    requires OpeningBreak(raw, p, q) && !Decisive(raw) && !Decisive(p) && !Decisive(q)
    requires forall index: nat :: !HeaderAt(a, index)
    ensures Admit(specs, g) == Admit(specs, h)
  {
    BrokenOpening(a, raw, p, q, b);
    BreakIsHeadless(a, raw, p, q, b);
    BrokenEarlyLine(specs, a + [raw] + b, a + [p, q] + b, |a|);
    AdmitByParts(specs, g, h);
  }

  lemma HeaderNotBefore(a: seq<string>, more: seq<string>, index: nat)
    requires !HeaderAt(a, index) && index < |a|
    ensures !HeaderAt(a + more, index)
  {
    assert forall j :: 0 <= j <= index ==> (a + more)[j] == a[j];
  }

  /** A line with white space in it is broken there; indentation does not matter. */
  lemma BreaksAtSpace(pad: string, p: string, c: char, q: string)
    requires IsSpace(c) && forall i :: 0 <= i < |pad| ==> IsSpace(pad[i])
    ensures Fields(pad + (p + [c] + q)) == Fields(pad + p) + Fields(pad + q)
  {
    assert pad + (p + [c] + q) == (pad + p) + [c] + q;
    PaddingIsNoWord(pad, q);
    var front := pad + p;
    FieldsAtSpace(front, c, q);
  }

  lemma {:induction false} PaddingIsNoWord(pad: string, s: string)
    requires forall i :: 0 <= i < |pad| ==> IsSpace(pad[i])
    ensures Fields(pad + s) == Fields(s)
  {
    if pad == [] {
      assert pad + s == s;
    } else {
      assert pad + s == [pad[0]] + (pad[1..] + s);
      LeadingSpace(pad[0], pad[1..] + s);
      PaddingIsNoWord(pad[1..], s);
    }
  }

  // ---------------------------------------------------------------- printed comments

  predicate NoException(s: string) {
    !HasPrefix(Trim(s), EXCEPTION_PREFIX)
  }

  /** A line indented as the printer indents bodies opens no field. */
  lemma IndentedIsBodyText(s: string)
    requires Fields(s) != [] && NoException(BODY_INDENT + s)
    ensures BodyText(BODY_INDENT + s)
  {
    var raw := BODY_INDENT + s;
    PaddingIsNoWord(BODY_INDENT, s);
    TrimHead(raw);
    assert raw[3] == BODY_INDENT[3] == ' ';
  }

  lemma PrintedBreak(p: string, c: char, q: string)
    requires IsSpace(c) && Fields(p) != [] && Fields(q) != [] && !DashedLine(BODY_INDENT + q)
    requires NoException(BODY_INDENT + (p + [c] + q)) && NoException(BODY_INDENT + p) && NoException(BODY_INDENT + q)
    ensures BodyBreak(BODY_INDENT + (p + [c] + q), BODY_INDENT + p, BODY_INDENT + q)
  {
    var whole := p + [c] + q;
    FieldsAtSpace(p, c, q);
    IndentedIsBodyText(whole);
    IndentedIsBodyText(p);
    IndentedIsBodyText(q);
    PaddingIsNoWord(BODY_INDENT, whole);
    PaddingIsNoWord(BODY_INDENT, p);
    PaddingIsNoWord(BODY_INDENT, q);
  }

  lemma HeaderAtThree(a: seq<string>)
    requires |a| >= 4 && !Decisive(a[0]) && !Decisive(a[1]) && !Decisive(a[2])
    requires HeaderVersion(Trim(a[3])) == Some(SCHEMA_VERSION)
    ensures HeaderAt(a, 3)
  {
    forall j | 0 <= j < 3 ensures !Decisive(a[j]) {
      assert j == 0 || j == 1 || j == 2;
    }
  }

  lemma FrontLines(opening: string, specs: seq<Spec>, doc: Document, n: nat)
    requires |specs| == |doc| && 4 <= n <= |CommentLines(opening, specs, doc)|
    ensures var a := CommentLines(opening, specs, doc)[..n];
            a[0] == " " + opening && a[1] == "" && a[2] == DIRECTIVE && a[3] == " " + HeaderLine()
  {}

  lemma BlankIsSkipped()
    ensures Skipped("") && !Decisive("")
  {
    EmptyIsNotDecisive("");
  }

  lemma HeaderReadsBack()
    ensures HeaderVersion(Trim(" " + HeaderLine())) == Some(SCHEMA_VERSION)
  {
    DocRoundTrip.HeaderLineIsDescriptive();
    DocRoundTrip.HeaderLineVersion();
  }

  lemma PrintedHeader(opening: string, specs: seq<Spec>, doc: Document, n: nat)
    requires |specs| == |doc| && 4 <= n <= |CommentLines(opening, specs, doc)|
    requires !Decisive(" " + opening) && !Skipped(" " + opening)
    ensures HeaderAt(CommentLines(opening, specs, doc)[..n], 3)
    ensures ParagraphEnds(Skipped, CommentLines(opening, specs, doc)[..n])
  {
    var a := CommentLines(opening, specs, doc)[..n];
    FrontLines(opening, specs, doc, n);
    BlankIsSkipped();
    HeaderReadsBack();
    DocRoundTrip.DirectiveIsNotDecisive();
    HeaderAtThree(a);
    assert !Skipped(a[0]) && Skipped(a[1]);
  }

  /**
   Breaking any line the printer writes for a field at white space, with the same indentation
   again, leaves what is read back as it was: unless a part looks like a naming exception or the
   second one starts with a dash, and as long as the comment keeps its bound.
   */
  lemma PrintedLinesMayBreak(specs: seq<Spec>, opening: string, doc: Document, n: nat, p: string, c: char, q: string)
    requires |specs| == |doc| && 4 <= n < |CommentLines(opening, specs, doc)|
    requires !Decisive(" " + opening) && !Skipped(" " + opening)
    requires CommentLines(opening, specs, doc)[n] == BODY_INDENT + (p + [c] + q)
    requires IsSpace(c) && Fields(p) != [] && Fields(q) != [] && !DashedLine(BODY_INDENT + q)
    requires NoException(BODY_INDENT + (p + [c] + q)) && NoException(BODY_INDENT + p) && NoException(BODY_INDENT + q)
    requires var lines := CommentLines(opening, specs, doc);
             && FitsBound(Slashed(lines))
             && FitsBound(Slashed(lines[..n] + ([BODY_INDENT + p, BODY_INDENT + q] + lines[n + 1..])))
    ensures var lines := CommentLines(opening, specs, doc);
            Admit(specs, Slashed(lines[..n] + ([BODY_INDENT + p, BODY_INDENT + q] + lines[n + 1..]))) == Admit(specs, Slashed(lines))
  {
    var lines := CommentLines(opening, specs, doc);
    PrintedHeader(opening, specs, doc, n);
    PrintedBreak(p, c, q);
    DocRoundTrip.GroupLinesOfSlashed(lines);
    var broken := lines[..n] + ([BODY_INDENT + p, BODY_INDENT + q] + lines[n + 1..]);
    DocRoundTrip.GroupLinesOfSlashed(broken);
    SplitAt(lines, n);
    BreakingABodyLine(specs, Slashed(lines), Slashed(broken), lines[..n], 3, lines[n], BODY_INDENT + p, BODY_INDENT + q, lines[n + 1..]);
  }

  lemma SplitAt(lines: seq<string>, n: nat)
    requires n < |lines|
    ensures lines == lines[..n] + ([lines[n]] + lines[n + 1..])
  {}

  lemma PrintedOpeningBreak(p: string, c: char, q: string)
    requires IsSpace(c) && !Skipped(" " + (p + [c] + q)) && !Skipped(" " + p) && !Skipped(" " + q)
    ensures OpeningBreak(" " + (p + [c] + q), " " + p, " " + q)
  {
    BreaksAtSpace(" ", p, c, q);
  }

  /** And so does breaking the opening, into lines that neither end the paragraph nor look like a header. */
  lemma PrintedOpeningMayBreak(specs: seq<Spec>, p: string, c: char, q: string, doc: Document)
    requires |specs| == |doc| && IsSpace(c)
    requires !Skipped(" " + (p + [c] + q)) && !Skipped(" " + p) && !Skipped(" " + q)
    requires !Decisive(" " + (p + [c] + q)) && !Decisive(" " + p) && !Decisive(" " + q)
    requires var lines := CommentLines(p + [c] + q, specs, doc);
             FitsBound(Slashed(lines)) && FitsBound(Slashed([" " + p, " " + q] + lines[1..]))
    ensures var lines := CommentLines(p + [c] + q, specs, doc);
            Admit(specs, Slashed([" " + p, " " + q] + lines[1..])) == Admit(specs, Slashed(lines))
  {
    var lines := CommentLines(p + [c] + q, specs, doc);
    var broken := [" " + p, " " + q] + lines[1..];
    var raw := " " + (p + [c] + q);
    assert lines == [] + [raw] + lines[1..] && broken == [] + [" " + p, " " + q] + lines[1..];
    DocRoundTrip.GroupLinesOfSlashed(lines);
    DocRoundTrip.GroupLinesOfSlashed(broken);
    PrintedOpeningBreak(p, c, q);
    BreakingAnOpeningLine(specs, Slashed(lines), Slashed(broken), [], raw, " " + p, " " + q, lines[1..]);
  }

  // ---------------------------------------------------------------- breaks that do matter

  /** A second part that is dropped takes its words with it. */
  lemma DroppedPartIsMissed(x: seq<string>, line: string, p: string, q: string, y: seq<string>)
    requires BrokenInto(Fields, line, p, q)
    ensures Words(x + [p] + y) != Words(x + [line] + y)
  {
    FlatMapAppend(Fields, x + [p], y);
    FlatMapAppend(Fields, x + [line], y);
    WordsGrow(x, p);
    WordsGrow(x, line);
  }

  /** How many lines of a body start an item. */
  function DashCount(lines: seq<string>): nat {
    if lines == [] then 0 else DashCount(lines[..|lines| - 1]) + (if DashedLine(lines[|lines| - 1]) then 1 else 0)
  }

  lemma {:induction false} DashCountAppend(a: seq<string>, b: seq<string>)
    ensures DashCount(a + b) == DashCount(a) + DashCount(b)
    decreases |b|
  {
    if b == [] {
      assert a + b == a;
    } else {
      var front, last := b[..|b| - 1], b[|b| - 1];
      assert (a + b)[..|a + b| - 1] == a + front && (a + b)[|a + b| - 1] == last;
      DashCountAppend(a, front);
    }
  }

  lemma OneItemMore(words: Reading, step: Stepping, items: seq<string>, line: string)
    requires StepLaws(words, step)
    ensures |step(items, line)| == |items| + (if DashedWords(words(line)) then 1 else 0)
  {}

  /** A list has an item for every dashed line. */
  lemma {:induction false} ItemsAreCounted(lines: seq<string>)
    ensures |ItemLines(lines)| == DashCount(lines)
  {
    if lines != [] {
      var front, last := lines[..|lines| - 1], lines[|lines| - 1];
      assert lines == front + [last];
      ItemsAreCounted(front);
      BodyGrowsBy(Fields, ItemStep, front, last);
      ItemStepLaws();
      OneItemMore(Fields, ItemStep, ItemLines(front), last);
      DashedByWords(last);
    }
  }

  lemma BreakCounts(x: seq<string>, line: string, p: string, q: string, y: seq<string>)
    requires BrokenInto(Fields, line, p, q)
    ensures |ItemLines(x + [p, q] + y)| == |ItemLines(x + [line] + y)| + (if DashedLine(q) then 1 else 0)
  {
    ItemsAreCounted(x + [p, q] + y);
    ItemsAreCounted(x + [line] + y);
    DashCountAppend(x + [p, q], y);
    DashCountAppend(x + [line], y);
    DashCountAppend(x, [p, q]);
    DashCountAppend(x, [line]);
    assert [p, q][..1] == [p];
    DashedByWords(line);
    DashedByWords(p);
    AfterDashSplit(Fields(p), Fields(q));
  }

  lemma BrokenBody(x: seq<string>, line: string, p: string, q: string, y: seq<string>)
    requires BrokenInto(Fields, line, p, q) && !DashedLine(q)
    ensures BodyAlike(Fields, ItemStep, x + [line] + y, x + [p, q] + y)
  {
    ItemStepLaws();
    DashedByWords(q);
    BreakBody(Fields, ItemStep, x, line, p, q);
    assert x + [p] + [q] == x + [p, q];
    BodiesGrowAlike(Fields, ItemStep, x + [line], x + [p, q], y);
  }

  lemma {:induction false} BodiesGrowAlike(words: Reading, step: Stepping, a: seq<string>, b: seq<string>, more: seq<string>)
    requires StepLaws(words, step) && BodyAlike(words, step, a, b)
    ensures BodyAlike(words, step, a + more, b + more)
    decreases |more|
  {
    if more == [] {
      assert a + more == a && b + more == b;
    } else {
      BodyAlikeGrows(words, step, a, b, more[0]);
      BodiesGrowAlike(words, step, a + [more[0]], b + [more[0]], more[1..]);
      assert a + [more[0]] + more[1..] == a + more && b + [more[0]] + more[1..] == b + more;
    }
  }

  /** A list read from a body is read again from the broken one exactly if the second part is not dashed. */
  lemma ListBreakIff(x: seq<string>, line: string, p: string, q: string, y: seq<string>)
    requires BrokenInto(Fields, line, p, q)
    ensures CollapseAll(ItemLines(x + [p, q] + y)) == CollapseAll(ItemLines(x + [line] + y)) <==> !DashedLine(q)
  {
    BreakCounts(x, line, p, q, y);
    if !DashedLine(q) {
      BrokenBody(x, line, p, q, y);
      AlikeCollapseAlike(ItemLines(x + [line] + y), ItemLines(x + [p, q] + y));
    } else {
      assert |CollapseAll(ItemLines(x + [p, q] + y))| != |CollapseAll(ItemLines(x + [line] + y))|;
    }
  }
}
