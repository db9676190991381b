/**
 The parser of an atom's documentation comment: the opening sentence, the schema header, the
 fields with their body lines, and the schema policy over them.
 */
module DocParser {
  import opened Common
  import opened Text
  import opened DocSchema

  const DIRECTIVE := "codeflux:atom"
  const EXCEPTION_PREFIX := "codeflux:atom-name-exception "
  const HEADER_PHRASE := "Codeflux atom documentation"
  const HEADER_START := "Codeflux atom documentation (schema v"
  const HEADER_END := "):"
  const SCHEMA_VERSION: nat := 1
  const MAXIMUM_SOURCE_COMMENT_BYTES := 65536

  // ---------------------------------------------------------------- comment lines

  function TrimPrefix(s: string, prefix: string): string {
    if HasPrefix(s, prefix) then s[|prefix|..] else s
  }

  predicate HasSuffix(s: string, suffix: string) {
    |suffix| <= |s| && s[|s| - |suffix|..] == suffix
  }

  function TrimSuffix(s: string, suffix: string): string {
    if HasSuffix(s, suffix) then s[..|s| - |suffix|] else s
  }

  function StarlessLines(lines: seq<string>): seq<string> {
    seq(|lines|, i requires 0 <= i < |lines| => TrimPrefix(Trim(lines[i]), "*"))
  }

  /** The lines of one comment without its markers. */
  function LinesOfComment(text: string): seq<string> {
    if HasPrefix(text, "//") then [text[2..]]
    else if HasPrefix(text, "/*") then StarlessLines(Lines(TrimSuffix(text[2..], "*/")))
    else []
  }

  /** The line is what the comment line holds between its white space, without one leading star. */
  predicate Unstarred(raw: string, line: string) {
    Trim(raw) == "*" + line || (Trim(raw) == line && !HasPrefix(line, "*"))
  }

  /** A line comment is one line, a block comment its lines without stars, and nothing else is a comment. */
  lemma CommentsReadAs(text: string)
    ensures LinesOfComment("//" + text) == [text]
    ensures var lines, inner := LinesOfComment("/*" + text + "*/"), Lines(text);
            |lines| == |inner| && forall i :: 0 <= i < |lines| ==> Unstarred(inner[i], lines[i])
    ensures !HasPrefix(text, "//") && !HasPrefix(text, "/*") ==> LinesOfComment(text) == []
  {
    assert ("//" + text)[2..] == text;
    var block := "/*" + text + "*/";
    assert block[0] == '/' && block[1] == '*' && block[2..] == text + "*/";
    assert TrimSuffix(text + "*/", "*/") == text by {
      assert (text + "*/")[|text + "*/"| - 2..] == "*/" && (text + "*/")[..|text + "*/"| - 2] == text;
    }
    assert LinesOfComment(block) == StarlessLines(Lines(text));
  }

  function GroupLines(group: seq<string>): seq<string> {
    if group == [] then [] else GroupLines(group[..|group| - 1]) + LinesOfComment(group[|group| - 1])
  }

  method BlockCommentLines(parts: seq<string>) returns (lines: seq<string>)
    ensures lines == StarlessLines(parts)
  {
    lines := [];
    for j := 0 to |parts|
      invariant lines == StarlessLines(parts)[..j]
    {
      lines := lines + [TrimPrefix(Trim(parts[j]), "*")];
    }
  }

  method CommentGroupLines(group: seq<string>) returns (lines: seq<string>)
    ensures lines == GroupLines(group)
  {
    lines := [];
    for i := 0 to |group|
      invariant lines == GroupLines(group[..i])
    {
      assert group[..i + 1][..i] == group[..i];
      var text := group[i];
      var more: seq<string> := [];
      if HasPrefix(text, "//") {
        more := [text[2..]];
      } else if HasPrefix(text, "/*") {
        more := BlockCommentLines(Lines(TrimSuffix(text[2..], "*/")));
      }
      assert more == LinesOfComment(text);
      lines := lines + more;
    }
    assert group[..|group|] == group;
  }

  /** The comments of a group with a newline between each two. */
  function RawText(group: seq<string>): string {
    if group == [] then [] else if |group| == 1 then group[0] else group[0] + "\n" + RawText(group[1..])
  }

  // ---------------------------------------------------------------- the opening sentence

  /** A line that is no part of the opening paragraph. */
  predicate Skipped(raw: string) {
    var line := Trim(raw);
    line == "" || line == DIRECTIVE || HasPrefix(line, EXCEPTION_PREFIX)
  }

  function FromFirstDescriptive(lines: seq<string>): seq<string> {
    if lines == [] || !Skipped(lines[0]) then lines else FromFirstDescriptive(lines[1..])
  }

  /** The trimmed lines up to the first skipped one. */
  function Paragraph(lines: seq<string>): seq<string> {
    if lines == [] || Skipped(lines[0]) then [] else [Trim(lines[0])] + Paragraph(lines[1..])
  }

  function OpeningSentence(lines: seq<string>): string {
    Collapse(Join(Paragraph(FromFirstDescriptive(lines))))
  }

  method FirstDescriptiveLine(lines: seq<string>) returns (opening: string)
    ensures opening == OpeningSentence(lines)
  {
    var start := 0;
    assert lines[0..] == lines;
    while start < |lines| && Skipped(lines[start])
      invariant 0 <= start <= |lines|
      invariant FromFirstDescriptive(lines) == FromFirstDescriptive(lines[start..])
    {
      assert lines[start..][1..] == lines[start + 1..];
      start := start + 1;
    }
    var parts: seq<string> := [];
    var i := start;
    while i < |lines| && !Skipped(lines[i])
      invariant start <= i <= |lines|
      invariant parts + Paragraph(lines[i..]) == Paragraph(lines[start..])
    {
      assert lines[i..][1..] == lines[i + 1..];
      assert parts + ([Trim(lines[i])] + Paragraph(lines[i + 1..])) == parts + [Trim(lines[i])] + Paragraph(lines[i + 1..]);
      parts := parts + [Trim(lines[i])];
      i := i + 1;
    }
    assert parts + [] == parts;
    opening := Collapse(Join(parts));
  }

  // ---------------------------------------------------------------- the schema header

  predicate AllDigits(s: string) {
    s != [] && forall i :: 0 <= i < |s| ==> '0' <= s[i] <= '9'
  }

  function Decimal(s: string): nat
    requires forall i :: 0 <= i < |s| ==> '0' <= s[i] <= '9'
  {
    if s == [] then 0 else Decimal(s[..|s| - 1]) * 10 + (s[|s| - 1] as int - '0' as int)
  }

  /** The version a well-formed header line names. */
  function HeaderVersion(line: string): Option<nat> {
    if HasPrefix(line, HEADER_START) && HasSuffix(line, HEADER_END) && |HEADER_START| + |HEADER_END| <= |line| then
      var digits := line[|HEADER_START|..|line| - |HEADER_END|];
      if AllDigits(digits) then Some(Decimal(digits)) else None
    else None
  }

  /** A header line is the start, digits and the end, and names the number the digits spell. */
  lemma HeaderVersionIff(line: string, n: nat)
    ensures HeaderVersion(line) == Some(n) <==>
            exists digits :: AllDigits(digits) && line == HEADER_START + digits + HEADER_END && Decimal(digits) == n
  {
    if HeaderVersion(line) == Some(n) {
      var digits := line[|HEADER_START|..|line| - |HEADER_END|];
      assert line == HEADER_START + digits + HEADER_END;
    }
    if digits :| AllDigits(digits) && line == HEADER_START + digits + HEADER_END && Decimal(digits) == n {
      assert line[|HEADER_START|..|line| - |HEADER_END|] == digits;
      assert line[|line| - |HEADER_END|..] == HEADER_END;
    }
  }

  /** A line that decides the search for the header: it is one, or it looks like one. */
  predicate Decisive(raw: string) {
    HeaderVersion(Trim(raw)).Some? || ContainsFrom(Trim(raw), HEADER_PHRASE)
  }

  /** The index of the header; absent when the first decisive line is not a supported header. */
  function HeaderFrom(lines: seq<string>, index: nat): Option<nat>
    requires index <= |lines|
    decreases |lines| - index
  {
    if index == |lines| then None
    else if Decisive(lines[index]) then
      if HeaderVersion(Trim(lines[index])) == Some(SCHEMA_VERSION) then Some(index) else None
    else HeaderFrom(lines, index + 1)
  }

  lemma EmptyIsNotDecisive(raw: string)
    requires Trim(raw) == ""
    ensures !Decisive(raw)
  {}

  method LocateSchemaHeader(lines: seq<string>) returns (header: Option<nat>)
    ensures header == HeaderFrom(lines, 0)
    ensures header.Some? ==> header.value < |lines|
  {
    for index := 0 to |lines|
      invariant HeaderFrom(lines, 0) == HeaderFrom(lines, index)
    {
      var line := Trim(lines[index]);
      if line == "" {
        EmptyIsNotDecisive(lines[index]);
        continue;
      }
      var version := HeaderVersion(line);
      if version.Some? {
        if version.value != SCHEMA_VERSION {
          return None;
        }
        return Some(index);
      }
      if ContainsFrom(line, HEADER_PHRASE) {
        return None;
      }
    }
    return None;
  }

  // ---------------------------------------------------------------- raw fields

  datatype RawField = RawField(heading: string, body: seq<string>)

  const FIELD_HEADER_INDENT := "   "

  /** Indented by exactly the header depth, with header-shaped content. */
  predicate IsFieldHeaderLine(raw: string, line: string) {
    && HasPrefix(raw, FIELD_HEADER_INDENT)
    && |raw| > 3 && raw[3] != ' ' && raw[3] != '\t'
    && HeaderShape(line)
  }

  predicate Ignored(line: string) {
    line == "" || HasPrefix(line, EXCEPTION_PREFIX)
  }

  function AddBodyLine(fields: seq<RawField>, line: string): seq<RawField>
    requires fields != []
  {
    var n := |fields| - 1;
    fields[..n] + [RawField(fields[n].heading, fields[n].body + [line])]
  }

  function FieldStep(fields: seq<RawField>, raw: string): seq<RawField> {
    var line := Trim(raw);
    if Ignored(line) then fields
    else if IsFieldHeaderLine(raw, line) then fields + [RawField(TrimSuffix(line, ":"), [])]
    else if fields == [] then fields
    else AddBodyLine(fields, line)
  }

  function RawFields(lines: seq<string>): seq<RawField> {
    Fold(FieldStep, [], lines)
  }

  method ParseRawFields(lines: seq<string>) returns (fields: seq<RawField>)
    ensures fields == RawFields(lines)
  {
    fields := [];
    var current := -1;
    for i := 0 to |lines|
      invariant fields == RawFields(lines[..i])
      invariant current == |fields| - 1
    {
      FoldNext(FieldStep, [], lines, i);
      var line := Trim(lines[i]);
      if Ignored(line) {
        continue;
      }
      if IsFieldHeaderLine(lines[i], line) {
        fields := fields + [RawField(TrimSuffix(line, ":"), [])];
        current := |fields| - 1;
        continue;
      }
      if current < 0 {
        continue;
      }
      fields := fields[..current] + [RawField(fields[current].heading, fields[current].body + [line])];
    }
    assert lines[..|lines|] == lines;
  }

  // ---------------------------------------------------------------- field bodies

  function ItemStep(items: seq<string>, raw: string): seq<string> {
    var line := Trim(raw);
    if line == "" then items
    else if HasPrefix(line, "-") then items + [Trim(line[1..])]
    else if items == [] then items
    else items[..|items| - 1] + [Collapse(items[|items| - 1] + " " + line)]
  }

  function ItemLines(lines: seq<string>): seq<string> {
    Fold(ItemStep, [], lines)
  }

  function CollapseAll(items: seq<string>): (r: seq<string>)
    ensures |r| == |items|
  {
    seq(|items|, i requires 0 <= i < |items| => Collapse(items[i]))
  }

  method SplitListItems(lines: seq<string>) returns (items: seq<string>)
    ensures items == CollapseAll(ItemLines(lines))
  {
    items := [];
    for i := 0 to |lines|
      invariant items == ItemLines(lines[..i])
    {
      FoldNext(ItemStep, [], lines, i);
      var line := Trim(lines[i]);
      if line == "" {
        continue;
      }
      if HasPrefix(line, "-") {
        items := items + [Trim(line[1..])];
        continue;
      }
      if |items| == 0 {
        continue;
      }
      items := items[..|items| - 1] + [Collapse(items[|items| - 1] + " " + line)];
    }
    assert lines[..|lines|] == lines;
    ghost var before := items;
    for index := 0 to |items|
      invariant |items| == |before|
      invariant forall k :: 0 <= k < |items| ==> items[k] == if k < index then Collapse(before[k]) else before[k]
    {
      items := items[index := Collapse(items[index])];
    }
    assert items == CollapseAll(before);
  }

  function NormalizedField(kind: Kind, body: seq<string>): Field {
    var full := Collapse(Join(body));
    if full == "" then EMPTY_FIELD
    else if HasPrefix(full, NONE_PREFIX) then EMPTY_FIELD.(none := true, reason := Trim(full[|NONE_PREFIX|..]))
    else if kind == Items then EMPTY_FIELD.(items := CollapseAll(ItemLines(body)))
    else EMPTY_FIELD.(text := full)
  }

  method NormalizeField(kind: Kind, body: seq<string>) returns (f: Field)
    ensures f == NormalizedField(kind, body)
  {
    var full := Collapse(Join(body));
    if full == "" {
      return EMPTY_FIELD;
    }
    if HasPrefix(full, NONE_PREFIX) {
      return Field(true, Trim(full[|NONE_PREFIX|..]), "", []);
    }
    if kind == Items {
      var items := SplitListItems(body);
      return Field(false, "", "", items);
    }
    return Field(false, "", full, []);
  }

  /** Whatever the body, an accepted field is in normal form. */
  lemma AcceptedFieldIsNormal(kind: Kind, body: seq<string>)
    requires ValidContent(kind, NormalizedField(kind, body))
    ensures NormalForm(kind, NormalizedField(kind, body))
  {
    var full, f := Collapse(Join(body)), NormalizedField(kind, body);
    CollapseIsNormal(Join(body));
    if f.none {
      var rest := full[|NONE_PREFIX|..];
      assert full == NONE_PREFIX + rest;
      NormalSuffix(NONE_PREFIX, rest);
    } else if kind == Items {
      forall i | 0 <= i < |f.items| ensures Normal(f.items[i]) {
        CollapseIsNormal(ItemLines(body)[i]);
      }
    }
  }
}
