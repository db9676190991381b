/**
 What the documentation parser reads, said in words and lines alone: which comments are
 admitted and what the admitted document says, for every comment, however it is wrapped.
 */
module DocWords {
  import opened Common
  import opened Text
  import opened DocSchema
  import opened DocParser
  import opened DocValidator

  // ---------------------------------------------------------------- words of lines

  /** The words of a list of lines, in order. */
  function Words(lines: seq<string>): seq<string> {
    FlatMap(Fields, lines)
  }

  lemma {:induction false} WordsOfJoin(lines: seq<string>)
    ensures Fields(Join(lines)) == Words(lines)
  {
    if lines != [] {
      if |lines| == 1 {
        assert lines == [lines[0]];
        FlatMapOne(Fields, lines[0]);
      } else {
        WordsOfJoin(lines[1..]);
        FieldsAtSpace(lines[0], ' ', Join(lines[1..]));
        assert lines[0] + " " + Join(lines[1..]) == lines[0] + [' '] + Join(lines[1..]);
      }
    }
  }

  lemma {:induction false} WordsAreWords(lines: seq<string>)
    ensures AreWords(Words(lines))
  {
    if lines != [] {
      FieldsAreWords(lines[0]);
      WordsAreWords(lines[1..]);
    }
  }

  /** Normal texts with the same words are the same text. */
  lemma SameWordsSameText(a: string, b: string)
    requires Normal(a) && Normal(b) && Fields(a) == Fields(b)
    ensures a == b
  {}

  // ---------------------------------------------------------------- groups of lines

  function Flatten(blocks: seq<seq<string>>): seq<string> {
    if blocks == [] then [] else Flatten(blocks[..|blocks| - 1]) + blocks[|blocks| - 1]
  }

  /** The lines fall into blocks, each opened by a line that starts one, after some that start none. */
  ghost predicate Grouped(starts: string -> bool, lines: seq<string>, before: seq<string>, blocks: seq<seq<string>>) {
    && lines == before + Flatten(blocks)
    && (forall i :: 0 <= i < |before| ==> !starts(before[i]))
    && forall k :: 0 <= k < |blocks| ==> IsBlock(starts, blocks[k])
  }

  ghost predicate IsBlock(starts: string -> bool, block: seq<string>) {
    block != [] && starts(block[0]) && forall j :: 0 < j < |block| ==> !starts(block[j])
  }

  lemma StartsBlock(starts: string -> bool, front: seq<string>, before: seq<string>, blocks: seq<seq<string>>, line: string)
    requires Grouped(starts, front, before, blocks) && starts(line)
    ensures Grouped(starts, front + [line], before, blocks + [[line]])
  {
    var more := blocks + [[line]];
    assert more[..|blocks|] == blocks && IsBlock(starts, [line]);
  }

  lemma ExtendsBlock(starts: string -> bool, front: seq<string>, before: seq<string>, blocks: seq<seq<string>>, line: string)
    requires Grouped(starts, front, before, blocks) && !starts(line) && blocks != []
    ensures var n := |blocks| - 1;
            Grouped(starts, front + [line], before, blocks[..n] + [blocks[n] + [line]])
  {
    var n := |blocks| - 1;
    var more := blocks[..n] + [blocks[n] + [line]];
    assert more[..n] == blocks[..n] && IsBlock(starts, blocks[n]);
    assert IsBlock(starts, more[n]);
    assert before + Flatten(more) == before + (Flatten(blocks[..n]) + blocks[n]) + [line];
  }

  lemma {:induction false} GroupingExists(starts: string -> bool, lines: seq<string>)
    returns (before: seq<string>, blocks: seq<seq<string>>)
    ensures Grouped(starts, lines, before, blocks)
  {
    before, blocks := [], [];
    if lines != [] {
      var front, line := lines[..|lines| - 1], lines[|lines| - 1];
      assert lines == front + [line];
      before, blocks := GroupingExists(starts, front);
      if starts(line) {
        StartsBlock(starts, front, before, blocks, line);
        blocks := blocks + [[line]];
      } else if blocks == [] {
        assert before + [line] == before + [line] + Flatten([]);
        before := before + [line];
      } else {
        ExtendsBlock(starts, front, before, blocks, line);
        blocks := blocks[..|blocks| - 1] + [blocks[|blocks| - 1] + [line]];
      }
    }
  }

  lemma GroupedFront(starts: string -> bool, before: seq<string>, blocks: seq<seq<string>>)
    requires blocks != [] && Grouped(starts, before + Flatten(blocks), before, blocks)
    ensures var front, block := blocks[..|blocks| - 1], blocks[|blocks| - 1];
            && Grouped(starts, before + Flatten(front), before, front) && IsBlock(starts, block)
            && before + Flatten(blocks) == (before + Flatten(front)) + block
  {}

  /** The step turns a block into one more element that fits it. */
  ghost predicate Adds<T(!new)>(starts: string -> bool, step: (seq<T>, string) -> seq<T>, fits: (T, seq<string>) -> bool) {
    forall done, block :: IsBlock(starts, block) ==>
      var after := Fold(step, done, block);
      |after| == |done| + 1 && after[..|done|] == done && fits(after[|done|], block)
  }

  /** A fold that adds one element per block gives one element per block. */
  lemma {:induction false} FoldGroups<T(!new)>(starts: string -> bool, step: (seq<T>, string) -> seq<T>, fits: (T, seq<string>) -> bool,
                                               before: seq<string>, blocks: seq<seq<string>>)
    requires Grouped(starts, before + Flatten(blocks), before, blocks)
    requires Adds(starts, step, fits) && Fold(step, [], before) == []
    ensures var all := Fold(step, [], before + Flatten(blocks));
            |all| == |blocks| && forall k :: 0 <= k < |all| ==> fits(all[k], blocks[k])
    decreases |blocks|
  {
    if blocks == [] {
      assert before + Flatten(blocks) == before;
    } else {
      var front, block := blocks[..|blocks| - 1], blocks[|blocks| - 1];
      GroupedFront(starts, before, blocks);
      FoldGroups(starts, step, fits, before, front);
      FoldAppend(step, [], before + Flatten(front), block);
      var done := Fold(step, [], before + Flatten(front));
      var after := Fold(step, done, block);
      forall k | 0 <= k < |after| ensures fits(after[k], blocks[k]) {
        if k < |done| { assert after[k] == after[..|done|][k] && blocks[k] == front[k]; }
      }
    }
  }

  // ---------------------------------------------------------------- list items

  predicate DashedLine(line: string) {
    HasPrefix(Trim(line), "-")
  }

  /** The words of one item: those after its dash and those of the lines that continue it. */
  function ItemWords(block: seq<string>): seq<string>
    requires block != [] && DashedLine(block[0])
  {
    Fields(Trim(block[0])[1..]) + Words(block[1..])
  }

  lemma {:induction false} NoItemsBefore(before: seq<string>)
    requires forall i :: 0 <= i < |before| ==> !DashedLine(before[i])
    ensures Fold(ItemStep, [], before) == []
  {
    if before != [] { NoItemsBefore(before[1..]); }
  }

  /** A continuation adds its words to the last item. */
  lemma ItemContinues(items: seq<string>, item: string, line: string) returns (more: string)
    requires !DashedLine(line)
    ensures ItemStep(items + [item], line) == items + [more] && Fields(more) == Fields(item) + Fields(line)
  {
    FieldsOfTrim(line);
    var t := Trim(line);
    assert (items + [item])[..|items|] == items;
    if t == "" {
      more := item;
      assert Fields(item) + Fields(line) == Fields(item);
    } else {
      var joined := item + " " + t;
      assert joined == item + [' '] + t;
      FieldsAtSpace(item, ' ', t);
      FieldsAreWords(joined);
      FieldsOfJoin(Fields(joined));
      more := Collapse(joined);
    }
  }

  lemma BlockContinues(items: seq<string>, front: seq<string>, shorter: string, line: string) returns (item: string)
    requires Fold(ItemStep, items, front) == items + [shorter] && !DashedLine(line)
    ensures Fold(ItemStep, items, front + [line]) == items + [item] && Fields(item) == Fields(shorter) + Fields(line)
  {
    FoldAppend(ItemStep, items, front, [line]);
    FoldOne(ItemStep, items + [shorter], line);
    item := ItemContinues(items, shorter, line);
  }

  lemma BlockOpens(items: seq<string>, line: string)
    requires DashedLine(line)
    ensures Fold(ItemStep, items, [line]) == items + [Trim(Trim(line)[1..])]
    ensures Fields(Trim(Trim(line)[1..])) == Fields(Trim(line)[1..])
  {
    FieldsOfTrim(Trim(line)[1..]);
    FoldOne(ItemStep, items, line);
  }

  lemma WordsGrow(lines: seq<string>, line: string)
    ensures Words(lines + [line]) == Words(lines) + Fields(line)
  {
    FlatMapAppend(Fields, lines, [line]);
    FlatMapOne(Fields, line);
  }

  lemma AfterHeadGrows(head: seq<string>, words: string -> seq<string>, rest: seq<string>, line: string)
    ensures head + FlatMap(words, rest + [line]) == head + FlatMap(words, rest) + words(line)
  {
    FlatMapAppend(words, rest, [line]);
    FlatMapOne(words, line);
  }

  lemma ItemWordsGrow(front: seq<string>, line: string)
    requires front != [] && DashedLine(front[0])
    ensures ItemWords(front + [line]) == ItemWords(front) + Fields(line)
  {
    assert (front + [line])[1..] == front[1..] + [line];
    AfterHeadGrows(Fields(Trim(front[0])[1..]), Fields, front[1..], line);
  }

  lemma {:induction false} ItemOfBlock(items: seq<string>, block: seq<string>) returns (item: string)
    requires IsBlock(DashedLine, block)
    ensures Fold(ItemStep, items, block) == items + [item] && Fields(item) == ItemWords(block)
    decreases |block|
  {
    if |block| == 1 {
      assert block == [block[0]];
      item := Trim(Trim(block[0])[1..]);
      BlockOpens(items, block[0]);
    } else {
      var front, line := block[..|block| - 1], block[|block| - 1];
      assert block == front + [line];
      var shorter := ItemOfBlock(items, front);
      item := BlockContinues(items, front, shorter, line);
      ItemWordsGrow(front, line);
    }
  }

  predicate ItemFits(item: string, block: seq<string>) {
    block != [] && DashedLine(block[0]) && Fields(item) == ItemWords(block)
  }

  lemma ItemsOfBlocks(before: seq<string>, blocks: seq<seq<string>>)
    requires Grouped(DashedLine, before + Flatten(blocks), before, blocks)
    ensures var items := ItemLines(before + Flatten(blocks));
            |items| == |blocks| && forall k :: 0 <= k < |items| ==> ItemFits(items[k], blocks[k])
  {
    NoItemsBefore(before);
    forall done, block | IsBlock(DashedLine, block)
      ensures var after := Fold(ItemStep, done, block);
              |after| == |done| + 1 && after[..|done|] == done && ItemFits(after[|done|], block)
    {
      var item := ItemOfBlock(done, block);
    }
    FoldGroups(DashedLine, ItemStep, ItemFits, before, blocks);
  }

  // ---------------------------------------------------------------- what a field says

  /** The body has an item's block of lines for each of these items, with the item's words. */
  ghost predicate SpellsItems(body: seq<string>, items: seq<string>) {
    exists before, blocks :: Grouped(DashedLine, body, before, blocks) && |blocks| == |items|
      && forall k :: 0 <= k < |blocks| ==> ItemFits(items[k], blocks[k])
  }

  /** The body says what the field says, word for word. */
  ghost predicate Spells(kind: Kind, body: seq<string>, f: Field) {
    var words := Words(body);
    if f.none then HasPrefix(Join(words), "None:") && Fields(Join(words)[5..]) == Fields(f.reason)
    else
      && words != [] && !HasPrefix(Join(words), "None:")
      && if kind == Items then SpellsItems(body, f.items) else words == Fields(f.text)
  }

  lemma CollapseKeepsWords(s: string)
    ensures Fields(Collapse(s)) == Fields(s)
  {
    FieldsAreWords(s);
    FieldsOfJoin(Fields(s));
  }

  lemma ParsedItemsSpell(body: seq<string>, items: seq<string>)
    requires CollapseAll(ItemLines(body)) == items
    ensures SpellsItems(body, items)
  {
    var parsed := ItemLines(body);
    var before, blocks := GroupingExists(DashedLine, body);
    ItemsOfBlocks(before, blocks);
    forall k | 0 <= k < |blocks| ensures ItemFits(items[k], blocks[k]) {
      assert items[k] == Collapse(parsed[k]) && ItemFits(parsed[k], blocks[k]);
      CollapseKeepsWords(parsed[k]);
    }
  }

  lemma SpelledItemsParse(body: seq<string>, items: seq<string>)
    requires SpellsItems(body, items) && forall k :: 0 <= k < |items| ==> Normal(items[k])
    ensures CollapseAll(ItemLines(body)) == items
  {
    var parsed := ItemLines(body);
    var before, blocks :| Grouped(DashedLine, body, before, blocks) && |blocks| == |items|
      && forall k :: 0 <= k < |blocks| ==> ItemFits(items[k], blocks[k]);
    ItemsOfBlocks(before, blocks);
    forall k | 0 <= k < |items| ensures CollapseAll(parsed)[k] == items[k] {
      assert ItemFits(parsed[k], blocks[k]);
    }
  }

  lemma CollapsedItems(body: seq<string>, items: seq<string>)
    requires forall k :: 0 <= k < |items| ==> Normal(items[k])
    ensures CollapseAll(ItemLines(body)) == items <==> SpellsItems(body, items)
  {
    if CollapseAll(ItemLines(body)) == items {
      ParsedItemsSpell(body, items);
    } else if SpellsItems(body, items) {
      SpelledItemsParse(body, items);
    }
  }

  lemma ReasonIsSpelled(full: string, reason: string)
    requires Normal(full) && HasPrefix(full, "None:") && Normal(reason)
    ensures Trim(full[5..]) == reason <==> Fields(full[5..]) == Fields(reason)
  {
    var rest := full[5..];
    assert full == full[..5] + rest;
    NormalSuffix(full[..5], rest);
    FieldsOfTrim(rest);
    if Fields(rest) == Fields(reason) { SameWordsSameText(Trim(rest), reason); }
  }

  lemma EmptyIffNoWords(body: seq<string>)
    ensures Collapse(Join(body)) == Join(Words(body)) && Normal(Join(Words(body)))
    ensures Fields(Join(Words(body))) == Words(body)
    ensures Join(Words(body)) == "" <==> Words(body) == []
  {
    WordsOfJoin(body);
    WordsAreWords(body);
    FieldsOfJoin(Words(body));
    CollapseIsNormal(Join(body));
    NormalIsTrimmed(Join(Words(body)));
  }

  /** A body is read as an acceptable field exactly if it says what the field says. */
  lemma FieldIsSpelled(kind: Kind, body: seq<string>, f: Field)
    requires NormalForm(kind, f)
    ensures NormalizedField(kind, body) == f <==> Spells(kind, body, f)
  {
    EmptyIffNoWords(body);
    var full := Join(Words(body));
    if f.none {
      if HasPrefix(full, "None:") { ReasonIsSpelled(full, f.reason); }
    } else if kind == Items {
      CollapsedItems(body, f.items);
    } else {
      NormalIsTrimmed(f.text);
      if Words(body) == Fields(f.text) { SameWordsSameText(full, f.text); }
    }
  }

  // ---------------------------------------------------------------- the fields of a comment

  /** The line opens a field. */
  predicate Opens(raw: string) {
    !Ignored(Trim(raw)) && IsFieldHeaderLine(raw, Trim(raw))
  }

  /** The line as a body keeps it, if it does. */
  function KeptLine(raw: string): seq<string> {
    if Ignored(Trim(raw)) then [] else [Trim(raw)]
  }

  function BodyOf(block: seq<string>): seq<string> {
    if block == [] then [] else FlatMap(KeptLine, block[1..])
  }

  function HeadOf(block: seq<string>): string {
    if block == [] then "" else TrimSuffix(Trim(block[0]), ":")
  }

  lemma {:induction false} NoFieldsBefore(before: seq<string>)
    requires forall i :: 0 <= i < |before| ==> !Opens(before[i])
    ensures Fold(FieldStep, [], before) == []
  {
    if before != [] { NoFieldsBefore(before[1..]); }
  }

  lemma BodyGrows(fields: seq<RawField>, heading: string, body: seq<string>, raw: string)
    requires !Opens(raw)
    ensures FieldStep(fields + [RawField(heading, body)], raw) == fields + [RawField(heading, body + KeptLine(raw))]
  {
    assert (fields + [RawField(heading, body)])[..|fields|] == fields;
    assert body + [] == body;
  }

  lemma {:induction false} FieldOfBlock(fields: seq<RawField>, block: seq<string>)
    requires IsBlock(Opens, block)
    ensures Fold(FieldStep, fields, block) == fields + [RawField(TrimSuffix(Trim(block[0]), ":"), BodyOf(block))]
    decreases |block|
  {
    if |block| == 1 {
      assert block == [block[0]] && block[1..] == [];
      FoldOne(FieldStep, fields, block[0]);
    } else {
      var front, raw := block[..|block| - 1], block[|block| - 1];
      assert block == front + [raw] && block[1..] == front[1..] + [raw];
      FieldOfBlock(fields, front);
      FoldAppend(FieldStep, fields, front, [raw]);
      var heading := TrimSuffix(Trim(block[0]), ":");
      FoldOne(FieldStep, fields + [RawField(heading, BodyOf(front))], raw);
      BodyGrows(fields, heading, BodyOf(front), raw);
      FlatMapAppend(KeptLine, front[1..], [raw]);
      FlatMapOne(KeptLine, raw);
    }
  }

  predicate FieldFits(raw: RawField, block: seq<string>) {
    block != [] && raw == RawField(HeadOf(block), BodyOf(block))
  }

  lemma FieldsAreBlocks(before: seq<string>, blocks: seq<seq<string>>)
    requires Grouped(Opens, before + Flatten(blocks), before, blocks)
    ensures var raws := RawFields(before + Flatten(blocks));
            |raws| == |blocks| && forall k :: 0 <= k < |raws| ==> FieldFits(raws[k], blocks[k])
  {
    NoFieldsBefore(before);
    forall done, block | IsBlock(Opens, block)
      ensures var after := Fold(FieldStep, done, block);
              |after| == |done| + 1 && after[..|done|] == done && FieldFits(after[|done|], block)
    {
      FieldOfBlock(done, block);
    }
    FoldGroups(Opens, FieldStep, FieldFits, before, blocks);
  }

  /** The block is headed as the schema asks and its body says what the field says. */
  ghost predicate BlockSpells(spec: Spec, block: seq<string>, f: Field) {
    block != [] && HeadOf(block) == spec.heading && Spells(spec.kind, BodyOf(block), f)
  }

  /** The lines hold one block per field of the schema, in its order, that says what the field says. */
  ghost predicate LinesSpell(specs: seq<Spec>, lines: seq<string>, doc: Document) {
    exists before, blocks :: Grouped(Opens, lines, before, blocks) && |blocks| == |specs| == |doc|
      && forall i :: 0 <= i < |blocks| ==> BlockSpells(specs[i], blocks[i], doc[i])
  }

  lemma HeadingsOfBlocks(specs: seq<Spec>, raws: seq<RawField>, blocks: seq<seq<string>>)
    requires |raws| == |blocks| == |specs| && forall i :: 0 <= i < |blocks| ==> FieldFits(raws[i], blocks[i])
    ensures HeadingsOf(raws) == Headings(specs) <==> forall i :: 0 <= i < |blocks| ==> HeadOf(blocks[i]) == specs[i].heading
  {
    forall i | 0 <= i < |blocks| ensures HeadingsOf(raws)[i] == HeadOf(blocks[i]) && Headings(specs)[i] == specs[i].heading {
      assert FieldFits(raws[i], blocks[i]);
    }
  }

  lemma BodiesOfBlocks(specs: seq<Spec>, raws: seq<RawField>, blocks: seq<seq<string>>, doc: Document)
    requires |raws| == |blocks| == |specs| && forall i :: 0 <= i < |blocks| ==> FieldFits(raws[i], blocks[i])
    requires NormalDocument(specs, doc)
    ensures NormalizedFields(specs, raws) == doc <==>
            forall i :: 0 <= i < |blocks| ==> Spells(specs[i].kind, BodyOf(blocks[i]), doc[i])
  {
    forall i | 0 <= i < |blocks|
      ensures NormalizedFields(specs, raws)[i] == doc[i] <==> Spells(specs[i].kind, BodyOf(blocks[i]), doc[i])
    {
      assert FieldFits(raws[i], blocks[i]);
      FieldIsSpelled(specs[i].kind, BodyOf(blocks[i]), doc[i]);
    }
  }

  lemma BlocksValidate(specs: seq<Spec>, lines: seq<string>, before: seq<string>, blocks: seq<seq<string>>, doc: Document)
    requires Grouped(Opens, lines, before, blocks) && NormalDocument(specs, doc)
    ensures Validated(specs, RawFields(lines)) == Some(doc) <==>
            |blocks| == |specs| && forall i :: 0 <= i < |blocks| ==> BlockSpells(specs[i], blocks[i], doc[i])
  {
    FieldsAreBlocks(before, blocks);
    ValidatedBlocks(specs, RawFields(lines), blocks, doc);
  }

  lemma ValidatedBlocks(specs: seq<Spec>, raws: seq<RawField>, blocks: seq<seq<string>>, doc: Document)
    requires |raws| == |blocks| && forall i :: 0 <= i < |blocks| ==> FieldFits(raws[i], blocks[i])
    requires NormalDocument(specs, doc)
    ensures Validated(specs, raws) == Some(doc) <==>
            |blocks| == |specs| && forall i :: 0 <= i < |blocks| ==> BlockSpells(specs[i], blocks[i], doc[i])
  {
    assert |HeadingsOf(raws)| == |raws|;
    if |blocks| == |specs| {
      HeadingsOfBlocks(specs, raws, blocks);
      BodiesOfBlocks(specs, raws, blocks, doc);
      assert forall i :: 0 <= i < |blocks| ==> blocks[i] != [] by {
        forall i | 0 <= i < |blocks| ensures blocks[i] != [] { assert FieldFits(raws[i], blocks[i]); }
      }
    }
  }

  /** The schema policy accepts lines as a normal document exactly if they spell it. */
  lemma DocumentIsSpelled(specs: seq<Spec>, lines: seq<string>, doc: Document)
    ensures Validated(specs, RawFields(lines)) == Some(doc) <==> NormalDocument(specs, doc) && LinesSpell(specs, lines, doc)
  {
    if Validated(specs, RawFields(lines)) == Some(doc) {
      ValidatedIsNormal(specs, RawFields(lines));
    }
    if NormalDocument(specs, doc) {
      var before, blocks := GroupingExists(Opens, lines);
      BlocksValidate(specs, lines, before, blocks, doc);
      if LinesSpell(specs, lines, doc) {
        var b, bs :| Grouped(Opens, lines, b, bs) && |bs| == |specs| == |doc|
          && forall i :: 0 <= i < |bs| ==> BlockSpells(specs[i], bs[i], doc[i]);
        BlocksValidate(specs, lines, b, bs, doc);
      }
    }
  }

  // ---------------------------------------------------------------- opening and header

  /** The lines passed over, the first paragraph, and what follows it. */
  ghost predicate Opening(lines: seq<string>, passed: seq<string>, paragraph: seq<string>, rest: seq<string>) {
    && lines == passed + paragraph + rest
    && (forall i :: 0 <= i < |passed| ==> Skipped(passed[i]))
    && (forall i :: 0 <= i < |paragraph| ==> !Skipped(paragraph[i]))
    && (rest == [] || (paragraph != [] && Skipped(rest[0])))
  }

  /** The first paragraph has the words of the opening. */
  ghost predicate OpeningSpelled(lines: seq<string>, opening: string) {
    exists passed, paragraph, rest :: Opening(lines, passed, paragraph, rest) && Fields(opening) == Words(paragraph)
  }

  lemma {:induction false} ParagraphWords(paragraph: seq<string>, rest: seq<string>)
    requires (forall i :: 0 <= i < |paragraph| ==> !Skipped(paragraph[i])) && (rest == [] || Skipped(rest[0]))
    ensures Words(Paragraph(paragraph + rest)) == Words(paragraph)
  {
    if paragraph == [] {
      assert paragraph + rest == rest;
    } else {
      var line, more := paragraph[0], paragraph[1..];
      assert (paragraph + rest)[1..] == more + rest;
      ParagraphWords(more, rest);
      FieldsOfTrim(line);
      assert ([Trim(line)] + Paragraph(more + rest))[1..] == Paragraph(more + rest);
    }
  }

  lemma {:induction false} PassedOver(passed: seq<string>, lines: seq<string>)
    requires forall i :: 0 <= i < |passed| ==> Skipped(passed[i])
    ensures FromFirstDescriptive(passed + lines) == FromFirstDescriptive(lines)
  {
    if passed == [] {
      assert passed + lines == lines;
    } else {
      assert (passed + lines)[1..] == passed[1..] + lines;
      PassedOver(passed[1..], lines);
    }
  }

  lemma {:induction false} LeadingLines(skip: bool, lines: seq<string>) returns (n: nat)
    ensures n <= |lines| && (n < |lines| ==> Skipped(lines[n]) != skip)
    ensures forall i :: 0 <= i < n ==> Skipped(lines[i]) == skip
  {
    if lines == [] || Skipped(lines[0]) != skip {
      n := 0;
    } else {
      var m := LeadingLines(skip, lines[1..]);
      n := m + 1;
      assert forall i :: 0 < i < n ==> lines[i] == lines[1..][i - 1];
    }
  }

  lemma SentenceWords(passed: seq<string>, paragraph: seq<string>, rest: seq<string>)
    requires Opening(passed + paragraph + rest, passed, paragraph, rest)
    ensures Normal(OpeningSentence(passed + paragraph + rest))
    ensures Fields(OpeningSentence(passed + paragraph + rest)) == Words(paragraph)
  {
    assert passed + paragraph + rest == passed + (paragraph + rest);
    PassedOver(passed, paragraph + rest);
    assert paragraph != [] ==> (paragraph + rest)[0] == paragraph[0];
    ParagraphWords(paragraph, rest);
    var p := Paragraph(paragraph + rest);
    WordsOfJoin(p);
    CollapseIsNormal(Join(p));
    FieldsAreWords(Join(p));
    FieldsOfJoin(Fields(Join(p)));
  }

  lemma OpeningExists(lines: seq<string>) returns (passed: seq<string>, paragraph: seq<string>, rest: seq<string>)
    ensures Opening(lines, passed, paragraph, rest)
  {
    var n := LeadingLines(true, lines);
    var after := lines[n..];
    var m := LeadingLines(false, after);
    passed, paragraph, rest := lines[..n], after[..m], after[m..];
    assert m < |after| ==> rest[0] == after[m];
    assert n < |lines| ==> after[0] == lines[n];
  }

  /** The opening is the normal text with the words of the first paragraph. */
  lemma OpeningIsSpelled(lines: seq<string>, opening: string)
    ensures OpeningSentence(lines) == opening <==> Normal(opening) && OpeningSpelled(lines, opening)
  {
    var passed, paragraph, rest := OpeningExists(lines);
    SentenceWords(passed, paragraph, rest);
    if OpeningSpelled(lines, opening) && Normal(opening) {
      var x, y, z :| Opening(lines, x, y, z) && Fields(opening) == Words(y);
      SentenceWords(x, y, z);
      SameWordsSameText(OpeningSentence(lines), opening);
    }
  }

  /** The first line that is a header or looks like one is a header of the supported version. */
  ghost predicate HeaderAt(lines: seq<string>, index: nat) {
    && index < |lines| && HeaderVersion(Trim(lines[index])) == Some(SCHEMA_VERSION)
    && forall j :: 0 <= j < index ==> !Decisive(lines[j])
  }

  /** The first line that decides, if it is supported. */
  function FirstDecisive(decides: string -> bool, supported: string -> bool, lines: seq<string>, from: nat): Option<nat>
    decreases |lines| - from
  {
    if from >= |lines| then None
    else if decides(lines[from]) then (if supported(lines[from]) then Some(from) else None)
    else FirstDecisive(decides, supported, lines, from + 1)
  }

  predicate SupportedHeader(raw: string) {
    HeaderVersion(Trim(raw)) == Some(SCHEMA_VERSION)
  }

  lemma {:induction false} HeaderIsDecisiveLine(lines: seq<string>, from: nat)
    requires from <= |lines|
    ensures HeaderFrom(lines, from) == FirstDecisive(Decisive, SupportedHeader, lines, from)
    decreases |lines| - from
  {
    if from < |lines| { HeaderIsDecisiveLine(lines, from + 1); }
  }

  lemma {:induction false} FirstDecisiveIff(decides: string -> bool, supported: string -> bool, lines: seq<string>, from: nat, index: nat)
    requires from <= |lines| && forall l :: supported(l) ==> decides(l)
    ensures FirstDecisive(decides, supported, lines, from) == Some(index) <==>
            from <= index < |lines| && supported(lines[index]) && forall j :: from <= j < index ==> !decides(lines[j])
    decreases |lines| - from
  {
    if from < |lines| && !decides(lines[from]) { FirstDecisiveIff(decides, supported, lines, from + 1, index); }
  }

  lemma HeaderIsAt(lines: seq<string>, index: nat)
    ensures HeaderFrom(lines, 0) == Some(index) <==> HeaderAt(lines, index)
  {
    HeaderIsDecisiveLine(lines, 0);
    FirstDecisiveIff(Decisive, SupportedHeader, lines, 0, index);
  }

  // ---------------------------------------------------------------- the whole comment

  /** The lines after the header spell the document. */
  ghost predicate SpelledAt(specs: seq<Spec>, lines: seq<string>, index: nat, doc: Document) {
    HeaderAt(lines, index) && LinesSpell(specs, lines[index + 1..], doc)
  }

  /** The comment says this, in lines and words. */
  ghost predicate CommentSpells(specs: seq<Spec>, lines: seq<string>, a: Admitted) {
    && a.version == SCHEMA_VERSION && a.opening != "" && Normal(a.opening) && OpeningSpelled(lines, a.opening)
    && NormalDocument(specs, a.doc)
    && exists index: nat :: SpelledAt(specs, lines, index, a.doc)
  }

  lemma DocumentAt(specs: seq<Spec>, lines: seq<string>, index: nat)
    requires HeaderAt(lines, index)
    ensures DocumentOf(specs, lines) == Validated(specs, RawFields(lines[index + 1..]))
  {
    HeaderIsAt(lines, index);
  }

  lemma HeaderFound(specs: seq<Spec>, lines: seq<string>) returns (index: nat)
    requires DocumentOf(specs, lines).Some?
    ensures HeaderAt(lines, index)
  {
    index := HeaderFrom(lines, 0).value;
    HeaderIsAt(lines, index);
  }

  lemma DocumentSpelledAt(specs: seq<Spec>, lines: seq<string>, index: nat, doc: Document)
    requires HeaderAt(lines, index)
    ensures DocumentOf(specs, lines) == Some(doc) <==> NormalDocument(specs, doc) && SpelledAt(specs, lines, index, doc)
  {
    DocumentAt(specs, lines, index);
    DocumentIsSpelled(specs, lines[index + 1..], doc);
  }

  lemma DocumentAfterHeader(specs: seq<Spec>, lines: seq<string>, doc: Document)
    ensures DocumentOf(specs, lines) == Some(doc) <==>
            NormalDocument(specs, doc) && exists index: nat :: SpelledAt(specs, lines, index, doc)
  {
    if DocumentOf(specs, lines) == Some(doc) {
      var index := HeaderFound(specs, lines);
      DocumentSpelledAt(specs, lines, index, doc);
    } else if index: nat :| SpelledAt(specs, lines, index, doc) {
      DocumentSpelledAt(specs, lines, index, doc);
    }
  }

  /** A comment is admitted with a document exactly if it fits the bound and spells that document. */
  lemma CommentIsSpelled(specs: seq<Spec>, group: seq<string>, a: Admitted)
    ensures Admit(specs, group) == Some(a) <==>
            ByteLength(RawText(group)) <= MAXIMUM_SOURCE_COMMENT_BYTES && CommentSpells(specs, GroupLines(group), a)
  {
    OpeningIsSpelled(GroupLines(group), a.opening);
    DocumentAfterHeader(specs, GroupLines(group), a.doc);
  }
}
