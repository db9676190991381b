/**
 What the naming lane contributes to an atom's embedding input: the composer that drops
 duplicate aliases, and the triggers that compare two contributions.
 */
module Embedding {
  import opened Common
  import opened Text
  import opened Identifier
  import opened Naming

  datatype Role = NameRole | PhraseRole | AliasRole

  datatype Segment = Segment(role: Role, text: string, lowWeight: bool)

  /** The fields of a naming revision the composer reads. */
  datatype Record = Record(atom: string, name: string, phrase: string, valid: bool)

  datatype NameInput = NameInput(segments: seq<Segment>, excluded: nat)

  // ---------------------------------------------------------------- composing

  predicate Eligible(record: Record, alias: Alias) {
    alias.atom == record.atom && alias.Active()
  }

  /** The alias at `i` says something neither the phrase nor an earlier eligible alias says. */
  predicate Included(record: Record, aliases: seq<Alias>, i: nat)
    requires i < |aliases|
  {
    && Eligible(record, aliases[i])
    && aliases[i].normalized != record.phrase
    && forall j :: 0 <= j < i && Eligible(record, aliases[j]) ==> aliases[j].normalized != aliases[i].normalized
  }

  function Survivors(record: Record, aliases: seq<Alias>): seq<Alias> {
    if aliases == [] then []
    else
      var n := |aliases| - 1;
      Survivors(record, aliases[..n]) + if Included(record, aliases, n) then [aliases[n]] else []
  }

  function OwnCount(record: Record, aliases: seq<Alias>): nat {
    if aliases == [] then 0
    else OwnCount(record, aliases[..|aliases| - 1]) + if aliases[|aliases| - 1].atom == record.atom then 1 else 0
  }

  function AliasSegments(aliases: seq<Alias>): (r: seq<Segment>)
    ensures |r| == |aliases|
  {
    seq(|aliases|, i requires 0 <= i < |aliases| => Segment(AliasRole, aliases[i].text, true))
  }

  lemma {:induction false} SurvivorsAreOwn(record: Record, aliases: seq<Alias>)
    ensures |Survivors(record, aliases)| <= OwnCount(record, aliases)
  {
    if aliases != [] { SurvivorsAreOwn(record, aliases[..|aliases| - 1]); }
  }

  function Composed(record: Record, aliases: seq<Alias>): NameInput {
    SurvivorsAreOwn(record, aliases);
    NameInput(
      [Segment(NameRole, record.name, false), Segment(PhraseRole, record.phrase, false)]
      + AliasSegments(Survivors(record, aliases)),
      OwnCount(record, aliases) - |Survivors(record, aliases)|)
  }

  /** Name and phrase lead, with full weight; every alias is discovery only, with low weight. */
  lemma SegmentRoles(record: Record, aliases: seq<Alias>, i: nat)
    requires i < |Composed(record, aliases).segments|
    ensures var s := Composed(record, aliases).segments[i];
            && (s.role == NameRole <==> i == 0) && (s.role == PhraseRole <==> i == 1)
            && (s.lowWeight <==> s.role == AliasRole)
            && (i >= 2 ==> i - 2 < |Survivors(record, aliases)| && s.text == Survivors(record, aliases)[i - 2].text)
  {
    var tail := AliasSegments(Survivors(record, aliases));
    if i >= 2 { assert Composed(record, aliases).segments[i] == tail[i - 2]; }
  }

  ghost predicate Said(record: Record, aliases: seq<Alias>, s: string) {
    s == record.phrase || exists j :: 0 <= j < |aliases| && Eligible(record, aliases[j]) && aliases[j].normalized == s
  }

  ghost predicate SeenIs(seen: set<string>, record: Record, aliases: seq<Alias>) {
    forall s :: s in seen <==> Said(record, aliases, s)
  }

  lemma SaidSnoc(record: Record, aliases: seq<Alias>, x: Alias, s: string)
    ensures Said(record, aliases + [x], s) <==> Said(record, aliases, s) || (Eligible(record, x) && x.normalized == s)
  {
    var all := aliases + [x];
    assert all[|aliases|] == x;
    forall j | 0 <= j < |aliases| ensures all[j] == aliases[j] {}
    if j :| 0 <= j < |aliases| && Eligible(record, aliases[j]) && aliases[j].normalized == s {
      assert all[j] == aliases[j];
    }
  }

  lemma SeenSkips(seen: set<string>, record: Record, aliases: seq<Alias>, x: Alias)
    requires SeenIs(seen, record, aliases) && (Eligible(record, x) ==> x.normalized in seen)
    ensures SeenIs(seen, record, aliases + [x])
  {
    forall s ensures s in seen <==> Said(record, aliases + [x], s) { SaidSnoc(record, aliases, x, s); }
  }

  lemma SeenGrows(seen: set<string>, record: Record, aliases: seq<Alias>, x: Alias)
    requires SeenIs(seen, record, aliases) && Eligible(record, x)
    ensures SeenIs(seen + {x.normalized}, record, aliases + [x])
  {
    forall s ensures s in seen + {x.normalized} <==> Said(record, aliases + [x], s) { SaidSnoc(record, aliases, x, s); }
  }

  lemma IncludedIffNotSaid(record: Record, aliases: seq<Alias>, x: Alias)
    ensures Included(record, aliases + [x], |aliases|) <==> Eligible(record, x) && !Said(record, aliases, x.normalized)
  {
    var all := aliases + [x];
    assert all[|aliases|] == x;
    forall j | 0 <= j < |aliases| ensures all[j] == aliases[j] {}
  }

  lemma SurvivorsSnoc(record: Record, aliases: seq<Alias>, x: Alias)
    ensures Survivors(record, aliases + [x])
            == Survivors(record, aliases) + if Included(record, aliases + [x], |aliases|) then [x] else []
    ensures OwnCount(record, aliases + [x]) == OwnCount(record, aliases) + if x.atom == record.atom then 1 else 0
  {
    assert (aliases + [x])[..|aliases|] == aliases;
  }

  /** One pass over the aliases with the set of normalized texts seen so far. */
  method ComposeNameEmbeddingInput(record: Record, aliases: seq<Alias>) returns (r: Option<NameInput>)
    ensures r == if record.valid && record.name != "" && record.phrase != "" then Some(Composed(record, aliases)) else None
  {
    if !record.valid || record.name == "" || record.phrase == "" {
      return None;
    }
    var segments := [Segment(NameRole, record.name, false), Segment(PhraseRole, record.phrase, false)];
    ghost var head := segments;
    var seen := {record.phrase};
    var excluded := 0;
    for i := 0 to |aliases|
      invariant SeenIs(seen, record, aliases[..i])
      invariant segments == head + AliasSegments(Survivors(record, aliases[..i]))
      invariant excluded + |Survivors(record, aliases[..i])| == OwnCount(record, aliases[..i])
    {
      var alias := aliases[i];
      assert aliases[..i + 1] == aliases[..i] + [alias];
      IncludedIffNotSaid(record, aliases[..i], alias);
      SurvivorsSnoc(record, aliases[..i], alias);
      if alias.atom != record.atom {
        SeenSkips(seen, record, aliases[..i], alias);
      } else if !alias.Active() || alias.normalized in seen {
        SeenSkips(seen, record, aliases[..i], alias);
        excluded := excluded + 1;
      } else {
        SeenGrows(seen, record, aliases[..i], alias);
        seen := seen + {alias.normalized};
        segments := segments + [Segment(AliasRole, alias.text, true)];
      }
    }
    assert aliases[..|aliases|] == aliases;
    return Some(NameInput(segments, excluded));
  }

  // ---------------------------------------------------------------- duplicates

  /** An alias that is not eligible, or only repeats the phrase. */
  predicate Inert(record: Record, x: Alias) {
    !Eligible(record, x) || x.normalized == record.phrase
  }

  /** An inert alias changes no other alias's fate. */
  lemma {:induction false} InertAliasIsDropped(record: Record, a: seq<Alias>, x: Alias, b: seq<Alias>)
    requires Inert(record, x)
    ensures Survivors(record, a + [x] + b) == Survivors(record, a + b)
    ensures OwnCount(record, a + [x] + b) == OwnCount(record, a + b) + if x.atom == record.atom then 1 else 0
    decreases |b|
  {
    if b == [] {
      assert a + [x] + b == a + [x] && a + b == a;
      SurvivorsSnoc(record, a, x);
      assert (a + [x])[|a|] == x;
    } else {
      var front, y := b[..|b| - 1], b[|b| - 1];
      assert a + [x] + b == (a + [x] + front) + [y] && a + b == (a + front) + [y];
      InertAliasIsDropped(record, a, x, front);
      SurvivorsSnoc(record, a + [x] + front, y);
      SurvivorsSnoc(record, a + front, y);
      InsertedInertAlias(record, a, x, front, y);
    }
  }

  lemma InsertedInertAlias(record: Record, a: seq<Alias>, x: Alias, b: seq<Alias>, y: Alias)
    requires Inert(record, x)
    ensures Included(record, a + [x] + b + [y], |a + [x] + b|) <==> Included(record, a + b + [y], |a + b|)
  {
    var long, short := a + [x] + b + [y], a + b + [y];
    assert long[|a + [x] + b|] == y && short[|a + b|] == y && long[|a|] == x;
    forall j | 0 <= j < |a| ensures long[j] == short[j] {}
    forall j | 0 <= j < |b| ensures long[|a| + 1 + j] == b[j] && short[|a| + j] == b[j] {}
    if Included(record, long, |a + [x] + b|) {
      forall j | 0 <= j < |a + b| && Eligible(record, short[j]) ensures short[j].normalized != y.normalized {
        assert long[if j < |a| then j else j + 1] == short[j];
      }
    }
    if Included(record, short, |a + b|) {
      forall j | 0 <= j < |a + [x] + b| && Eligible(record, long[j]) ensures long[j].normalized != y.normalized {
        if j != |a| { assert short[if j < |a| then j else j - 1] == long[j]; }
      }
    }
  }

  /**
   The alias a formatting-only rename leaves behind never reaches the renamed atom's embedding
   input, wherever it stands among the other aliases: the segments are those without it and it
   is counted as excluded.
   */
  lemma FormattingAliasIsExcluded(v: Vocabulary, p: Proposal, reviewer: string, version: Version, at: Option<int>,
                                  record: Record, a: seq<Alias>, b: seq<Alias>)
    requires GoodVocabulary(v) && CanonicalName(p.oldName) && CanonicalName(p.newName)
    requires version.atom != ""
    requires AuthorizeRename(v, p, reviewer, version, version, at).Accepted?
    requires ClassifyRename(v, p) == Accepted(FormattingOnly)
    requires record.atom == version.atom && record.name == p.newName && record.phrase == Phrase(v, p.newName)
    ensures var alias := AuthorizeRename(v, p, reviewer, version, version, at).value.alias;
            && alias.Some? && alias.value.text == p.oldName && alias.value.Active()
            && Composed(record, a + [alias.value] + b)
               == Composed(record, a + b).(excluded := Composed(record, a + b).excluded + 1)
  {
    RenameAuthorizedIff(v, p, reviewer, version, version, at);
    SamePhraseIffSameWords(v, p.oldName, p.newName);
    var alias := AuthorizeRename(v, p, reviewer, version, version, at).value.alias;
    InertAliasIsDropped(record, a, alias.value, b);
  }

  /**
   An invalidated alias keeps its lineage but never reaches the embedding input again, wherever
   it stands among the others, and cannot be invalidated a second time.
   */
  lemma InvalidatedAliasIsExcluded(record: Record, a: seq<Alias>, alias: Alias, b: seq<Alias>, reason: string, at: int)
    requires Invalidate(alias, reason, at).Accepted?
    ensures var closed := Invalidate(alias, reason, at).value;
            && closed.(activeUntil := None, reason := alias.reason) == alias
            && closed.activeUntil == Some(at) && alias.activeFrom <= at && closed.reason == Trim(reason) != ""
            && Survivors(record, a + [closed] + b) == Survivors(record, a + b)
            && Composed(record, a + [closed] + b).segments == Composed(record, a + b).segments
            && Composed(record, a + [closed] + b).excluded
               == Composed(record, a + b).excluded + (if alias.atom == record.atom then 1 else 0)
            && forall again, later :: Invalidate(closed, again, later).Rejected?
  {
    var closed := Invalidate(alias, reason, at).value;
    InvalidationIsFinal(alias, reason, at);
    InertAliasIsDropped(record, a, closed, b);
  }

  ghost predicate Fresh(record: Record, aliases: seq<Alias>, kept: seq<Alias>) {
    && (forall i :: 0 <= i < |kept| ==> kept[i] in aliases && Eligible(record, kept[i]) && kept[i].normalized != record.phrase)
    && (forall i, j :: 0 <= i < j < |kept| ==> kept[i].normalized != kept[j].normalized)
  }

  /** Survivors are eligible aliases that never repeat each other or the phrase. */
  lemma {:induction false} SurvivorsAreFresh(record: Record, aliases: seq<Alias>)
    ensures Fresh(record, aliases, Survivors(record, aliases))
  {
    if aliases != [] {
      var n := |aliases| - 1;
      var front, x := aliases[..n], aliases[n];
      var before := Survivors(record, front);
      SurvivorsAreFresh(record, front);
      assert aliases == front + [x];
      forall i | 0 <= i < |before| ensures before[i] in aliases { assert before[i] in front; }
      if Included(record, aliases, n) {
        forall i | 0 <= i < |before| ensures before[i].normalized != x.normalized {
          var j :| 0 <= j < n && aliases[j] == before[i];
        }
      }
    }
  }

  /** Taken in order, an alias survives exactly if it is eligible and nothing before it says the same. */
  lemma SurvivorsInOrder(record: Record, aliases: seq<Alias>, x: Alias)
    ensures Survivors(record, []) == []
    ensures Survivors(record, aliases + [x]) ==
            if Eligible(record, x) && !Said(record, aliases, x.normalized) then Survivors(record, aliases) + [x]
            else Survivors(record, aliases)
  {
    SurvivorsSnoc(record, aliases, x);
    IncludedIffNotSaid(record, aliases, x);
    assert Survivors(record, aliases) + [] == Survivors(record, aliases);
  }

  /** Every eligible alias is said: by the phrase or by a survivor. */
  lemma {:induction false} EligibleAliasesAreSaid(record: Record, aliases: seq<Alias>, s: string)
    ensures Said(record, aliases, s) <==> Said(record, Survivors(record, aliases), s)
  {
    if aliases != [] {
      var n := |aliases| - 1;
      var front, x := aliases[..n], aliases[n];
      assert aliases == front + [x];
      EligibleAliasesAreSaid(record, front, s);
      EligibleAliasesAreSaid(record, front, x.normalized);
      SaidSnoc(record, front, x, s);
      SaidSnoc(record, Survivors(record, front), x, s);
      IncludedIffNotSaid(record, front, x);
      SurvivorsSnoc(record, front, x);
      assert Survivors(record, front) + [] == Survivors(record, front);
    }
  }

  // ---------------------------------------------------------------- invalidation triggers

  datatype Trigger = CanonicalContentChanged | ActiveAliasSetChanged

  const UNIT_SEPARATOR: string := "\U{1f}"

  function CanonicalPart(s: Segment): string {
    if s.role == AliasRole then [] else s.text + UNIT_SEPARATOR
  }

  function AliasPart(s: Segment): seq<string> {
    if s.role == AliasRole then [s.text] else []
  }

  /** Name and phrase texts, each closed by a unit separator. */
  function CanonicalText(segments: seq<Segment>): string {
    FlatMap(CanonicalPart, segments)
  }

  function AliasTexts(segments: seq<Segment>): seq<string> {
    FlatMap(AliasPart, segments)
  }

  method SplitSegmentsByRole(segments: seq<Segment>) returns (canonical: string, aliasTexts: seq<string>)
    ensures canonical == CanonicalText(segments) && aliasTexts == AliasTexts(segments)
  {
    canonical, aliasTexts := [], [];
    for i := 0 to |segments|
      invariant canonical == CanonicalText(segments[..i]) && aliasTexts == AliasTexts(segments[..i])
    {
      FlatMapNext(CanonicalPart, segments, i);
      FlatMapNext(AliasPart, segments, i);
      if segments[i].role == AliasRole {
        aliasTexts := aliasTexts + [segments[i].text];
      } else {
        canonical := canonical + (segments[i].text + UNIT_SEPARATOR);
      }
    }
    assert segments[..|segments|] == segments;
  }

  function Triggers(before: NameInput, after: NameInput): seq<Trigger> {
    (if CanonicalText(before.segments) != CanonicalText(after.segments) then [CanonicalContentChanged] else [])
    + (if AliasTexts(before.segments) != AliasTexts(after.segments) then [ActiveAliasSetChanged] else [])
  }

  method DetermineEmbeddingInvalidationTriggers(before: NameInput, after: NameInput) returns (triggers: seq<Trigger>)
    ensures triggers == Triggers(before, after)
  {
    triggers := [];
    var beforeCanonical, beforeAliases := SplitSegmentsByRole(before.segments);
    var afterCanonical, afterAliases := SplitSegmentsByRole(after.segments);
    if beforeCanonical != afterCanonical {
      triggers := triggers + [CanonicalContentChanged];
    }
    if beforeAliases != afterAliases {
      triggers := triggers + [ActiveAliasSetChanged];
    }
  }

  predicate NoSeparator(s: string) {
    UNIT_SEPARATOR[0] !in s
  }

  lemma SeparatedPrefix(a: string, b: string, x: string, y: string)
    requires NoSeparator(a) && NoSeparator(b)
    requires a + (UNIT_SEPARATOR + x) == b + (UNIT_SEPARATOR + y)
    ensures a == b && x == y
  {
    UpToStops(UNIT_SEPARATOR[0], a, UNIT_SEPARATOR + x);
    UpToStops(UNIT_SEPARATOR[0], b, UNIT_SEPARATOR + y);
    assert x == (a + (UNIT_SEPARATOR + x))[|a| + 1..];
    assert y == (b + (UNIT_SEPARATOR + y))[|b| + 1..];
  }

  function Texts(aliases: seq<Alias>): (r: seq<string>)
    ensures |r| == |aliases| && forall i :: 0 <= i < |r| ==> r[i] == aliases[i].text
  {
    seq(|aliases|, i requires 0 <= i < |aliases| => aliases[i].text)
  }

  lemma TextsOfAliases(aliases: seq<Alias>)
    ensures CanonicalText(AliasSegments(aliases)) == [] && AliasTexts(AliasSegments(aliases)) == Texts(aliases)
  {
    FlatMapNone(CanonicalPart, AliasSegments(aliases));
    FlatMapSingles(AliasPart, AliasSegments(aliases), Texts(aliases));
  }

  lemma TextsOfHead(name: string, phrase: string)
    ensures var head := [Segment(NameRole, name, false), Segment(PhraseRole, phrase, false)];
            && CanonicalText(head) == name + (UNIT_SEPARATOR + (phrase + UNIT_SEPARATOR))
            && AliasTexts(head) == []
  {
    var a, b := Segment(NameRole, name, false), Segment(PhraseRole, phrase, false);
    assert [a, b] == [a] + [b];
    FlatMapAppend(CanonicalPart, [a], [b]);
    FlatMapOne(CanonicalPart, a);
    FlatMapOne(CanonicalPart, b);
    FlatMapNone(AliasPart, [a, b]);
  }

  lemma ComposedTexts(record: Record, aliases: seq<Alias>)
    ensures CanonicalText(Composed(record, aliases).segments)
            == record.name + (UNIT_SEPARATOR + (record.phrase + UNIT_SEPARATOR))
    ensures AliasTexts(Composed(record, aliases).segments) == Texts(Survivors(record, aliases))
  {
    var head := [Segment(NameRole, record.name, false), Segment(PhraseRole, record.phrase, false)];
    var tail := AliasSegments(Survivors(record, aliases));
    TextsOfHead(record.name, record.phrase);
    TextsOfAliases(Survivors(record, aliases));
    FlatMapAppend(CanonicalPart, head, tail);
    FlatMapAppend(AliasPart, head, tail);
  }

  lemma SurvivorTextsDetermineSegments(a: seq<Alias>, b: seq<Alias>)
    requires Texts(a) == Texts(b)
    ensures AliasSegments(a) == AliasSegments(b)
  {
    assert |a| == |Texts(b)|;
    forall i | 0 <= i < |a| ensures a[i].text == b[i].text { assert Texts(a)[i] == Texts(b)[i]; }
  }

  /** Each trigger fires exactly for its own kind of change: of name or phrase, or of the aliases that are included. */
  lemma TriggersSayWhatChanged(r: Record, a: seq<Alias>, s: Record, b: seq<Alias>)
    requires NoSeparator(r.name) && NoSeparator(r.phrase) && NoSeparator(s.name) && NoSeparator(s.phrase)
    ensures var fired := Triggers(Composed(r, a), Composed(s, b));
            && (CanonicalContentChanged in fired <==> r.name != s.name || r.phrase != s.phrase)
            && (ActiveAliasSetChanged in fired <==> Texts(Survivors(r, a)) != Texts(Survivors(s, b)))
            && |fired| <= 2 && (|fired| == 2 ==> fired == [CanonicalContentChanged, ActiveAliasSetChanged])
  {
    ComposedTexts(r, a);
    ComposedTexts(s, b);
    if CanonicalText(Composed(r, a).segments) == CanonicalText(Composed(s, b).segments) {
      SeparatedPrefix(r.name, s.name, r.phrase + UNIT_SEPARATOR, s.phrase + UNIT_SEPARATOR);
      assert UNIT_SEPARATOR + [] == UNIT_SEPARATOR;
      SeparatedPrefix(r.phrase, s.phrase, [], []);
    }
  }

  /** No trigger fires between two composed contributions exactly when their segments are the same. */
  lemma NoTriggerIffSameSegments(r: Record, a: seq<Alias>, s: Record, b: seq<Alias>)
    requires NoSeparator(r.name) && NoSeparator(r.phrase) && NoSeparator(s.name) && NoSeparator(s.phrase)
    ensures Triggers(Composed(r, a), Composed(s, b)) == [] <==> Composed(r, a).segments == Composed(s, b).segments
  {
    TriggersSayWhatChanged(r, a, s, b);
    var fired := Triggers(Composed(r, a), Composed(s, b));
    if fired == [] {
      assert CanonicalContentChanged !in fired && ActiveAliasSetChanged !in fired;
      SurvivorTextsDetermineSegments(Survivors(r, a), Survivors(s, b));
    }
  }

  lemma {:induction false} SqueezeKeeps(s: string, c: char)
    requires c in s && !IsSpace(c)
    ensures c in Squeeze(s)
  {
    if s[0] != c { SqueezeKeeps(s[1..], c); }
  }

  /** Records built from a canonical name meet the condition of `NoTriggerIffSameSegments`. */
  lemma DerivedTextsHaveNoSeparator(v: Vocabulary, name: string)
    requires GoodVocabulary(v) && CanonicalName(name)
    ensures NoSeparator(name) && NoSeparator(Phrase(v, name))
  {
    PhraseSpellsLoweredName(v, name);
    var c := UNIT_SEPARATOR[0];
    forall i | 0 <= i < |name| ensures ToLower(name)[i] != c && name[i] != c { assert IdentifierChar(name[i]); }
    if c in Phrase(v, name) {
      SqueezeKeeps(Phrase(v, name), c);
    }
  }

  /** Without that condition two different contributions can look alike. */
  lemma SeparatorsCanBeForged()
    ensures var r := Record("a", "x" + UNIT_SEPARATOR + "y", "z", true);
            var s := Record("a", "x", "y" + UNIT_SEPARATOR + "z", true);
            Triggers(Composed(r, []), Composed(s, [])) == [] && Composed(r, []).segments != Composed(s, []).segments
  {
    var r := Record("a", "x" + UNIT_SEPARATOR + "y", "z", true);
    var s := Record("a", "x", "y" + UNIT_SEPARATOR + "z", true);
    ComposedTexts(r, []);
    ComposedTexts(s, []);
    assert Composed(r, []).segments[0].text != Composed(s, []).segments[0].text by { assert |r.name| != |s.name|; }
  }
}
