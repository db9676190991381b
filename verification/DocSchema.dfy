/**
 The atom-documentation schema: its fields and their kinds, what makes a field acceptable,
 and the normal form every accepted field has.
 */
module DocSchema {
  import opened Common
  import opened Text

  datatype Kind = Prose | Items

  datatype Spec = Spec(heading: string, kind: Kind)

  /** An explained absence, prose or a list; which of the last two is the schema's choice. */
  datatype Field = Field(none: bool, reason: string, text: string, items: seq<string>)

  const EMPTY_FIELD := Field(false, "", "", [])

  /** One field per entry of the schema, in its order. */
  type Document = seq<Field>

  const MAXIMUM_FIELD_TEXT_BYTES := 8192
  const MAXIMUM_LIST_ITEMS := 128
  const MAXIMUM_LIST_ITEM_BYTES := 2048

  predicate IsEmpty(f: Field) {
    !f.none && f.text == "" && f.items == []
  }

  // ---------------------------------------------------------------- content policy

  predicate Letter(c: char) {
    'a' <= c <= 'z' || 'A' <= c <= 'Z'
  }

  predicate WordChar(c: char) {
    Letter(c) || '0' <= c <= '9' || c == '_' || c == '-'
  }

  /** How many words a text holds; a word starts with a letter and runs as far as it can. */
  function WordCount(s: string, inWord: bool): nat {
    if s == [] then 0
    else if inWord && WordChar(s[0]) then WordCount(s[1..], true)
    else if Letter(s[0]) then 1 + WordCount(s[1..], true)
    else WordCount(s[1..], false)
  }

  predicate Substantive(s: string, words: nat) {
    WordCount(s, false) >= words
  }

  /** Neither tab nor newline, and below the space or the delete character. */
  predicate Disallowed(c: char) {
    c != '\t' && c != '\n' && (c as int < 0x20 || c as int == 0x7F)
  }

  predicate ControlFree(s: string) {
    forall i :: 0 <= i < |s| ==> !Disallowed(s[i])
  }

  method FirstDisallowedControl(s: string) returns (r: Option<char>)
    ensures r.None? <==> ControlFree(s)
    ensures r.Some? ==> exists i :: 0 <= i < |s| && r.value == s[i] && Disallowed(s[i]) && ControlFree(s[..i])
  {
    for i := 0 to |s|
      invariant ControlFree(s[..i])
    {
      if Disallowed(s[i]) {
        return Some(s[i]);
      }
      assert s[..i + 1] == s[..i] + [s[i]];
    }
    assert s[..|s|] == s;
    return None;
  }

  predicate ValidItem(item: string) {
    && Trim(item) != "" && ControlFree(item)
    && ByteLength(item) <= MAXIMUM_LIST_ITEM_BYTES && Substantive(item, 3)
  }

  /** The content policy of one field. */
  predicate ValidContent(kind: Kind, f: Field) {
    if f.none then ControlFree(f.reason) && Substantive(f.reason, 2)
    else if kind == Items then
      0 < |f.items| <= MAXIMUM_LIST_ITEMS && forall i :: 0 <= i < |f.items| ==> ValidItem(f.items[i])
    else
      && Trim(f.text) != "" && ControlFree(f.text)
      && ByteLength(f.text) <= MAXIMUM_FIELD_TEXT_BYTES && Substantive(f.text, 3)
  }

  method ValidateFieldContent(kind: Kind, f: Field) returns (ok: bool)
    ensures ok <==> ValidContent(kind, f)
  {
    if f.none {
      var bad := FirstDisallowedControl(f.reason);
      return bad.None? && Substantive(f.reason, 2);
    }
    if kind == Prose {
      var bad := FirstDisallowedControl(f.text);
      return Trim(f.text) != "" && bad.None? && ByteLength(f.text) <= MAXIMUM_FIELD_TEXT_BYTES && Substantive(f.text, 3);
    }
    if |f.items| == 0 || |f.items| > MAXIMUM_LIST_ITEMS {
      return false;
    }
    for i := 0 to |f.items|
      invariant forall k :: 0 <= k < i ==> ValidItem(f.items[k])
    {
      var item := f.items[i];
      if Trim(item) == "" {
        return false;
      }
      var bad := FirstDisallowedControl(item);
      if bad.Some? || ByteLength(item) > MAXIMUM_LIST_ITEM_BYTES || !Substantive(item, 3) {
        return false;
      }
    }
    return true;
  }

  // ---------------------------------------------------------------- normal form

  const NONE_PREFIX := "None:"

  /** The shape every parsed and accepted field has. */
  predicate NormalForm(kind: Kind, f: Field) {
    && ValidContent(kind, f)
    && if f.none then Normal(f.reason) && f.text == "" && f.items == []
       else if kind == Items then
         f.reason == "" && f.text == "" && forall i :: 0 <= i < |f.items| ==> Normal(f.items[i])
       else f.reason == "" && f.items == [] && Normal(f.text) && !HasPrefix(f.text, NONE_PREFIX)
  }

  predicate NormalDocument(specs: seq<Spec>, doc: Document) {
    |doc| == |specs| && forall i :: 0 <= i < |doc| ==> NormalForm(specs[i].kind, doc[i])
  }

  // ---------------------------------------------------------------- headings

  predicate Letters(s: string) {
    s != [] && forall i :: 0 <= i < |s| ==> Letter(s[i])
  }

  /** One to five words of letters with single spaces between them, then a colon. */
  predicate HeaderShape(line: string) {
    && line != [] && line[|line| - 1] == ':'
    && var heading := line[..|line| - 1];
       Normal(heading) && 1 <= |Fields(heading)| <= 5 && forall i :: 0 <= i < |Fields(heading)| ==> Letters(Fields(heading)[i])
  }

  function Headings(specs: seq<Spec>): (r: seq<string>)
    ensures |r| == |specs|
  {
    seq(|specs|, i requires 0 <= i < |specs| => specs[i].heading)
  }

  /** Headings a comment can carry: header-shaped and told apart. */
  ghost predicate GoodSchema(specs: seq<Spec>) {
    && (forall i :: 0 <= i < |specs| ==> HeaderShape(specs[i].heading + ":"))
    && Distinct(Headings(specs))
  }
}
