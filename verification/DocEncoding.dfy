/**
 The canonical byte string a documentation revision is identified by. Nothing in it is
 escaped: it can be read back only because accepted content holds no separator.
 */
module DocEncoding {
  import opened Text
  import opened DocSchema
  import opened DocParser

  const GROUP: char := '\U{1d}'
  const ITEM: char := '\U{1e}'
  const UNIT: char := '\U{1f}'

  // ---------------------------------------------------------------- writing

  function Digits(n: nat): string {
    (if n < 10 then [] else Digits(n / 10)) + [('0' as int + n % 10) as char]
  }

  /** The items with a separator between each two. */
  function JoinItems(items: seq<string>): string {
    if items == [] then [] else if |items| == 1 then items[0] else items[0] + [ITEM] + JoinItems(items[1..])
  }

  function Body(kind: Kind, f: Field): string {
    if f.none then "None" + [UNIT] + f.reason else if kind == Items then JoinItems(f.items) else f.text
  }

  function Block(spec: Spec, f: Field): string {
    spec.heading + [UNIT] + Body(spec.kind, f)
  }

  function Blocks(specs: seq<Spec>, doc: Document): (r: seq<string>)
    requires |specs| == |doc|
    ensures |r| == |doc|
  {
    seq(|doc|, i requires 0 <= i < |doc| => Block(specs[i], doc[i]))
  }

  function Preamble(version: nat): string {
    "codeflux-atomdoc-normalized-input-v1" + [UNIT] + "schema" + [UNIT] + Digits(version)
  }

  function Canonical(version: nat, specs: seq<Spec>, doc: Document): string
    requires |specs| == |doc|
  {
    Terminate(GROUP, [Preamble(version)] + Blocks(specs, doc))
  }

  lemma {:induction false} JoinItemsSnoc(items: seq<string>, item: string)
    requires items != []
    ensures JoinItems(items + [item]) == JoinItems(items) + [ITEM] + item
  {
    if |items| == 1 {
      assert (items + [item])[1..] == [item];
    } else {
      JoinItemsSnoc(items[1..], item);
      assert (items + [item])[1..] == items[1..] + [item];
    }
  }

  /** Writes a separator before every item but the first. */
  method WriteItems(items: seq<string>) returns (out: string)
    ensures out == JoinItems(items)
  {
    out := [];
    for index := 0 to |items|
      invariant out == JoinItems(items[..index])
    {
      assert items[..index + 1] == items[..index] + [items[index]];
      if index > 0 {
        JoinItemsSnoc(items[..index], items[index]);
        out := out + [ITEM];
      }
      out := out + items[index];
    }
    assert items[..|items|] == items;
  }

  method CanonicalizeDocument(version: nat, specs: seq<Spec>, doc: Document) returns (out: string)
    requires |specs| == |doc|
    ensures out == Canonical(version, specs, doc)
  {
    ghost var pieces := [Preamble(version)] + Blocks(specs, doc);
    out := Preamble(version) + [GROUP];
    TerminateNext(GROUP, pieces, 0);
    for i := 0 to |specs|
      invariant out == Terminate(GROUP, pieces[..i + 1])
    {
      var body := doc[i].text;
      if doc[i].none {
        body := "None" + [UNIT] + doc[i].reason;
      } else if specs[i].kind == Items {
        body := WriteItems(doc[i].items);
      }
      out := out + (specs[i].heading + [UNIT] + body + [GROUP]);
      TerminateNext(GROUP, pieces, i + 1);
    }
    assert pieces[..|specs| + 1] == pieces;
  }

  lemma TerminateNext(c: char, pieces: seq<string>, i: nat)
    requires i < |pieces|
    ensures Terminate(c, pieces[..i + 1]) == Terminate(c, pieces[..i]) + (pieces[i] + [c])
  {
    assert pieces[..i + 1] == pieces[..i] + [pieces[i]];
    TerminateAppend(c, pieces[..i], [pieces[i]]);
    assert Terminate(c, [pieces[i]][1..]) == [];
  }

  // ---------------------------------------------------------------- reading back

  /** What a field says: the parts its shape makes meaningful. */
  datatype Meaning = Absent(reason: string) | Listed(items: seq<string>) | Told(text: string)

  function MeaningOf(kind: Kind, f: Field): Meaning {
    if f.none then Absent(f.reason) else if kind == Items then Listed(f.items) else Told(f.text)
  }

  predicate Plain(s: string) {
    GROUP !in s && ITEM !in s && UNIT !in s
  }

  lemma ControlFreeIsPlain(s: string)
    requires ControlFree(s)
    ensures Plain(s)
  {
    forall c | c == GROUP || c == ITEM || c == UNIT ensures c !in s {
      assert Disallowed(c);
    }
  }

  lemma {:induction false} JoinedChars(items: seq<string>, c: char)
    requires c != ITEM && forall i :: 0 <= i < |items| ==> c !in items[i]
    ensures c !in JoinItems(items)
  {
    if |items| > 1 { JoinedChars(items[1..], c); }
  }

  lemma {:induction false} JoinedIsTerminated(items: seq<string>)
    requires items != []
    ensures JoinItems(items) + [ITEM] == Terminate(ITEM, items)
  {
    if |items| == 1 {
      assert Terminate(ITEM, items[1..]) == [];
    } else {
      JoinedIsTerminated(items[1..]);
      assert items[0] + [ITEM] + JoinItems(items[1..]) + [ITEM] == items[0] + [ITEM] + (JoinItems(items[1..]) + [ITEM]);
    }
  }

  predicate PlainContent(kind: Kind, f: Field) {
    if f.none then Plain(f.reason)
    else if kind == Items then f.items != [] && forall i :: 0 <= i < |f.items| ==> Plain(f.items[i])
    else Plain(f.text)
  }

  lemma ValidIsPlain(kind: Kind, f: Field)
    requires ValidContent(kind, f)
    ensures PlainContent(kind, f)
  {
    if f.none {
      ControlFreeIsPlain(f.reason);
    } else if kind == Items {
      forall i | 0 <= i < |f.items| ensures Plain(f.items[i]) {
        assert ValidItem(f.items[i]);
        ControlFreeIsPlain(f.items[i]);
      }
    } else {
      ControlFreeIsPlain(f.text);
    }
  }

  /** Only an explained absence writes a unit separator, and no body writes a group separator. */
  lemma BodySeparators(kind: Kind, f: Field)
    requires PlainContent(kind, f)
    ensures GROUP !in Body(kind, f) && (UNIT in Body(kind, f) <==> f.none)
  {
    if f.none {
      assert Body(kind, f)[4] == UNIT;
      assert Plain("None");
    } else if kind == Items {
      JoinedChars(f.items, GROUP);
      JoinedChars(f.items, UNIT);
    }
  }

  lemma ItemsAreRecoverable(a: seq<string>, b: seq<string>)
    requires a != [] && b != [] && JoinItems(a) == JoinItems(b)
    requires (forall i :: 0 <= i < |a| ==> Plain(a[i])) && (forall i :: 0 <= i < |b| ==> Plain(b[i]))
    ensures a == b
  {
    JoinedIsTerminated(a);
    JoinedIsTerminated(b);
    TerminateInjective(ITEM, a, b);
  }

  /** One body tells what its field says. */
  lemma BodyIsRecoverable(kind: Kind, f: Field, g: Field)
    requires PlainContent(kind, f) && PlainContent(kind, g) && Body(kind, f) == Body(kind, g)
    ensures MeaningOf(kind, f) == MeaningOf(kind, g)
  {
    BodySeparators(kind, f);
    BodySeparators(kind, g);
    if f.none {
      assert Body(kind, f)[5..] == f.reason && Body(kind, g)[5..] == g.reason;
    } else if kind == Items {
      ItemsAreRecoverable(f.items, g.items);
    }
  }

  lemma BlockIsRecoverable(spec: Spec, f: Field, g: Field)
    requires PlainContent(spec.kind, f) && PlainContent(spec.kind, g) && Block(spec, f) == Block(spec, g)
    ensures MeaningOf(spec.kind, f) == MeaningOf(spec.kind, g)
  {
    var n := |spec.heading| + 1;
    assert Block(spec, f)[n..] == Body(spec.kind, f) && Block(spec, g)[n..] == Body(spec.kind, g);
    BodyIsRecoverable(spec.kind, f, g);
  }

  lemma DigitAppended(s: string, d: nat)
    requires d < 10 && forall i :: 0 <= i < |s| ==> '0' <= s[i] <= '9'
    ensures var t := s + [('0' as int + d) as char]; AllDigits(t) && Decimal(t) == Decimal(s) * 10 + d
  {
    var t := s + [('0' as int + d) as char];
    assert t[..|t| - 1] == s;
  }

  lemma {:induction false} DigitsAreDigits(n: nat)
    ensures AllDigits(Digits(n)) && Decimal(Digits(n)) == n
  {
    if n < 10 {
      DigitAppended([], n);
    } else {
      DigitsAreDigits(n / 10);
      DigitAppended(Digits(n / 10), n % 10);
    }
  }

  lemma PreambleHasNoGroup(version: nat)
    ensures GROUP !in Preamble(version)
  {
    DigitsAreDigits(version);
    assert GROUP !in "codeflux-atomdoc-normalized-input-v1" && GROUP !in "schema";
    assert GROUP !in Digits(version);
  }

  lemma PreambleIsInjective(v: nat, w: nat)
    requires Preamble(v) == Preamble(w)
    ensures v == w
  {
    DigitsAreDigits(v);
    DigitsAreDigits(w);
    var n := |"codeflux-atomdoc-normalized-input-v1" + [UNIT] + "schema" + [UNIT]|;
    assert Preamble(v)[n..] == Digits(v) && Preamble(w)[n..] == Digits(w);
  }

  ghost predicate PlainHeadings(specs: seq<Spec>) {
    forall i :: 0 <= i < |specs| ==> GROUP !in specs[i].heading
  }

  predicate ValidDocument(specs: seq<Spec>, doc: Document) {
    |doc| == |specs| && forall i :: 0 <= i < |doc| ==> ValidContent(specs[i].kind, doc[i])
  }

  lemma PiecesHaveNoGroup(version: nat, specs: seq<Spec>, doc: Document)
    requires PlainHeadings(specs) && ValidDocument(specs, doc)
    ensures var pieces := [Preamble(version)] + Blocks(specs, doc); forall i :: 0 <= i < |pieces| ==> GROUP !in pieces[i]
  {
    PreambleHasNoGroup(version);
    forall i | 0 <= i < |doc| ensures GROUP !in Block(specs[i], doc[i]) {
      ValidIsPlain(specs[i].kind, doc[i]);
      BodySeparators(specs[i].kind, doc[i]);
    }
  }

  /**
   Two documents that pass field validation have the same canonical string only if they say the
   same thing under every heading and carry the same version.
   */
  lemma CanonicalIsInjective(v: nat, w: nat, specs: seq<Spec>, a: Document, b: Document)
    requires PlainHeadings(specs) && ValidDocument(specs, a) && ValidDocument(specs, b)
    requires Canonical(v, specs, a) == Canonical(w, specs, b)
    ensures v == w
    ensures forall i :: 0 <= i < |specs| ==> MeaningOf(specs[i].kind, a[i]) == MeaningOf(specs[i].kind, b[i])
  {
    var p, q := [Preamble(v)] + Blocks(specs, a), [Preamble(w)] + Blocks(specs, b);
    PiecesHaveNoGroup(v, specs, a);
    PiecesHaveNoGroup(w, specs, b);
    TerminateInjective(GROUP, p, q);
    assert p[0] == q[0];
    PreambleIsInjective(v, w);
    forall i | 0 <= i < |specs| ensures MeaningOf(specs[i].kind, a[i]) == MeaningOf(specs[i].kind, b[i]) {
      assert p[i + 1] == q[i + 1];
      ValidIsPlain(specs[i].kind, a[i]);
      ValidIsPlain(specs[i].kind, b[i]);
      BlockIsRecoverable(specs[i], a[i], b[i]);
    }
  }

  lemma NormalFormIsItsMeaning(kind: Kind, f: Field, g: Field)
    requires NormalForm(kind, f) && NormalForm(kind, g) && MeaningOf(kind, f) == MeaningOf(kind, g)
    ensures f == g
  {}

  /** On documents in normal form the canonical string determines the document itself. */
  lemma CanonicalDeterminesDocument(v: nat, w: nat, specs: seq<Spec>, a: Document, b: Document)
    requires PlainHeadings(specs) && NormalDocument(specs, a) && NormalDocument(specs, b)
    ensures Canonical(v, specs, a) == Canonical(w, specs, b) <==> v == w && a == b
  {
    if Canonical(v, specs, a) == Canonical(w, specs, b) {
      CanonicalIsInjective(v, w, specs, a, b);
      forall i | 0 <= i < |specs| ensures a[i] == b[i] { NormalFormIsItsMeaning(specs[i].kind, a[i], b[i]); }
    }
  }

  lemma JoinedTwice(x: string, y: string)
    ensures JoinItems([x + [ITEM] + y]) == JoinItems([x, y])
  {
    assert [x, y][1..] == [y];
  }

  lemma SameBlocks(v: nat, spec: Spec, f: Field, g: Field)
    requires Block(spec, f) == Block(spec, g)
    ensures Canonical(v, [spec], [f]) == Canonical(v, [spec], [g])
  {
    assert Blocks([spec], [f]) == [Block(spec, f)] == Blocks([spec], [g]);
  }

  /** The control-byte rejection is needed: a separator inside an item imitates an item boundary. */
  lemma SeparatorInItemCollides(v: nat, heading: string, x: string, y: string)
    ensures var spec := Spec(heading, Items);
            var one := EMPTY_FIELD.(items := [x + [ITEM] + y]);
            var two := EMPTY_FIELD.(items := [x, y]);
            Canonical(v, [spec], [one]) == Canonical(v, [spec], [two]) && one != two && !ValidItem(x + [ITEM] + y)
  {
    var one, two := EMPTY_FIELD.(items := [x + [ITEM] + y]), EMPTY_FIELD.(items := [x, y]);
    JoinedTwice(x, y);
    SameBlocks(v, Spec(heading, Items), one, two);
    assert (x + [ITEM] + y)[|x|] == ITEM && Disallowed(ITEM);
    assert |one.items| != |two.items|;
  }
}
