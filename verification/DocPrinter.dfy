/** The printer that renders a document as a Go doc comment, one line per body or list item. */
module DocPrinter {
  import opened Common
  import opened Text
  import opened DocSchema
  import opened DocParser

  /** The opening names the declaration and holds the end of a sentence. */
  predicate ValidOpening(identifier: string, opening: string) {
    && identifier != ""
    && HasPrefix(opening, identifier + " ")
    && exists i :: |identifier| + 1 <= i < |opening| && SentenceEnd(opening[i])
  }

  predicate SentenceEnd(c: char) {
    c == '.' || c == '!' || c == '?'
  }

  function Dashed(items: seq<string>): (r: seq<string>)
    ensures |r| == |items|
  {
    seq(|items|, i requires 0 <= i < |items| => "- " + items[i])
  }

  /** What the printer writes under a heading. */
  function BodyTexts(kind: Kind, f: Field): seq<string> {
    if f.none then ["None: " + f.reason] else if kind == Items then Dashed(f.items) else [f.text]
  }

  const HEADING_INDENT := "   "
  const BODY_INDENT := "     "

  function Indented(pad: string, texts: seq<string>): (r: seq<string>)
    ensures |r| == |texts|
  {
    seq(|texts|, i requires 0 <= i < |texts| => pad + texts[i])
  }

  function FieldLines(spec: Spec, f: Field): seq<string> {
    [HEADING_INDENT + (spec.heading + ":")] + Indented(BODY_INDENT, BodyTexts(spec.kind, f))
  }

  function DocLines(specs: seq<Spec>, doc: Document): seq<string>
    requires |specs| == |doc|
  {
    if doc == [] then []
    else DocLines(specs[..|doc| - 1], doc[..|doc| - 1]) + FieldLines(specs[|doc| - 1], doc[|doc| - 1])
  }

  function HeaderLine(): string {
    HEADER_START + "1" + HEADER_END
  }

  /** The lines of the comment without their slashes. */
  function CommentLines(opening: string, specs: seq<Spec>, doc: Document): seq<string>
    requires |specs| == |doc|
  {
    [" " + opening, "", DIRECTIVE, " " + HeaderLine()] + DocLines(specs, doc)
  }

  function Slashed(lines: seq<string>): (r: seq<string>)
    ensures |r| == |lines|
  {
    Indented("//", lines)
  }

  predicate Printable(identifier: string, opening: string, version: nat, doc: Document) {
    && ValidOpening(identifier, opening) && version == SCHEMA_VERSION
    && forall i :: 0 <= i < |doc| ==> !IsEmpty(doc[i])
  }

  function Rendered(lines: seq<string>): string {
    Unlines(Slashed(lines))
  }

  function Printed(opening: string, specs: seq<Spec>, doc: Document): string
    requires |specs| == |doc|
  {
    Rendered(CommentLines(opening, specs, doc))
  }

  lemma UnlinesSnoc(lines: seq<string>, l: string)
    ensures Unlines(lines + [l]) == Unlines(lines) + (l + "\n")
  {
    TerminateAppend('\n', lines, [l]);
    assert [l][1..] == [];
    assert Terminate('\n', [l]) == l + "\n" + [];
  }

  lemma SlashedAppend(a: seq<string>, b: seq<string>)
    ensures Slashed(a + b) == Slashed(a) + Slashed(b)
  {}

  /** Each further line adds its slashes, itself and a newline. */
  ghost predicate Renders(render: seq<string> -> string) {
    render([]) == "" && forall ls, l :: render(ls + [l]) == render(ls) + ("//" + l + "\n")
  }

  lemma RenderedRenders()
    ensures Renders(Rendered)
  {
    forall ls: seq<string>, l ensures Rendered(ls + [l]) == Rendered(ls) + ("//" + l + "\n") {
      SlashedAppend(ls, [l]);
      UnlinesSnoc(Slashed(ls), "//" + l);
      assert Slashed([l]) == ["//" + l];
    }
  }

  method WriteLine(ghost render: seq<string> -> string, written: string, ghost lines: seq<string>, line: string)
    returns (out: string)
    requires Renders(render) && written == render(lines)
    ensures out == render(lines + [line])
  {
    out := written + ("//" + line + "\n");
  }

  /** Writes the lines of one field after what is already written. */
  method WriteField(ghost render: seq<string> -> string, written: string, ghost lines: seq<string>, spec: Spec, f: Field)
    returns (out: string)
    requires Renders(render) && written == render(lines)
    ensures out == render(lines + FieldLines(spec, f))
  {
    out := WriteLine(render, written, lines, HEADING_INDENT + (spec.heading + ":"));
    ghost var head := lines + [HEADING_INDENT + (spec.heading + ":")];
    ghost var body := Indented(BODY_INDENT, BodyTexts(spec.kind, f));
    if f.none {
      out := WriteLine(render, out, head, BODY_INDENT + ("None: " + f.reason));
      assert body == [BODY_INDENT + ("None: " + f.reason)];
    } else if spec.kind == Items {
      assert head + body[..0] == head;
      for i := 0 to |f.items|
        invariant out == render(head + body[..i])
      {
        out := WriteLine(render, out, head + body[..i], BODY_INDENT + ("- " + f.items[i]));
        assert head + body[..i] + [body[i]] == head + body[..i + 1];
      }
      assert body[..|f.items|] == body;
    } else {
      out := WriteLine(render, out, head, BODY_INDENT + f.text);
      assert body == [BODY_INDENT + f.text];
    }
    assert head + body == lines + FieldLines(spec, f);
  }

  lemma DocLinesStep(head: seq<string>, specs: seq<Spec>, doc: Document, i: nat)
    requires |specs| == |doc| && i < |doc|
    ensures head + DocLines(specs[..i], doc[..i]) + FieldLines(specs[i], doc[i])
            == head + DocLines(specs[..i + 1], doc[..i + 1])
  {
    assert specs[..i + 1][..i] == specs[..i] && doc[..i + 1][..i] == doc[..i];
  }

  /** Writes the fields in schema order, or stops at the first empty one. */
  method WriteFields(ghost render: seq<string> -> string, written: string, ghost head: seq<string>, specs: seq<Spec>,
                     doc: Document)
    returns (r: Option<string>)
    requires Renders(render) && |specs| == |doc| && written == render(head)
    ensures r.Some? <==> forall i :: 0 <= i < |doc| ==> !IsEmpty(doc[i])
    ensures r.Some? ==> r.value == render(head + DocLines(specs, doc))
  {
    var out := written;
    assert head + DocLines(specs[..0], doc[..0]) == head;
    for i := 0 to |specs|
      invariant out == render(head + DocLines(specs[..i], doc[..i]))
      invariant forall k :: 0 <= k < i ==> !IsEmpty(doc[k])
    {
      if IsEmpty(doc[i]) {
        return None;
      }
      out := WriteField(render, out, head + DocLines(specs[..i], doc[..i]), specs[i], doc[i]);
      DocLinesStep(head, specs, doc, i);
    }
    assert specs[..|specs|] == specs && doc[..|specs|] == doc;
    return Some(out);
  }

  method WriteHead(ghost render: seq<string> -> string, a: string, b: string, c: string, d: string) returns (out: string)
    requires Renders(render)
    ensures out == render([a, b, c, d])
  {
    out := WriteLine(render, "", [], a);
    assert [] + [a] == [a];
    out := WriteLine(render, out, [a], b);
    assert [a] + [b] == [a, b];
    out := WriteLine(render, out, [a, b], c);
    assert [a, b] + [c] == [a, b, c];
    out := WriteLine(render, out, [a, b, c], d);
    assert [a, b, c] + [d] == [a, b, c, d];
  }

  method GenerateComment(identifier: string, opening: string, version: nat, specs: seq<Spec>, doc: Document)
    returns (r: Option<string>)
    requires |specs| == |doc|
    ensures r == if Printable(identifier, opening, version, doc) then Some(Printed(opening, specs, doc)) else None
  {
    if !ValidOpening(identifier, opening) || version != SCHEMA_VERSION {
      return None;
    }
    RenderedRenders();
    var out := WriteHead(Rendered, " " + opening, "", DIRECTIVE, " " + HeaderLine());
    r := WriteFields(Rendered, out, [" " + opening, "", DIRECTIVE, " " + HeaderLine()], specs, doc);
  }
}
