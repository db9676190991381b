/**
 Names derived from a canonical identifier: the display name, the normalized phrase and the
 normalized alias, and the renames that keep or break an atom's identity.
 */
module Naming {
  import opened Common
  import opened Text
  import opened Identifier

  // ---------------------------------------------------------------- names

  predicate IdentifierChar(c: char) {
    'a' <= c <= 'z' || 'A' <= c <= 'Z' || '0' <= c <= '9' || c == '_'
  }

  const MAXIMUM_CANONICAL_NAME_BYTES := 256

  /** An exported Go identifier in ASCII within its byte bound. */
  predicate CanonicalName(s: string) {
    && 0 < |s| <= MAXIMUM_CANONICAL_NAME_BYTES
    && 'A' <= s[0] <= 'Z'
    && forall i :: 0 <= i < |s| ==> IdentifierChar(s[i])
  }

  function LowerAll(ws: seq<string>): (r: seq<string>)
    ensures |r| == |ws|
  {
    seq(|ws|, i requires 0 <= i < |ws| => ToLower(ws[i]))
  }

  function DisplayName(v: Vocabulary, name: string): string {
    Join(Split(v, name))
  }

  function Phrase(v: Vocabulary, name: string): string {
    Join(LowerAll(Split(v, name)))
  }

  /** Lowercases the words in place of themselves, then joins them. */
  method DeriveNormalizedPhrase(v: Vocabulary, bound: nat, name: string) returns (phrase: string)
    requires forall t :: t in v ==> |t| <= bound
    ensures phrase == Phrase(v, name)
  {
    var words := SplitIdentifierWords(v, bound, name);
    var lowered: seq<string> := [];
    for index := 0 to |words|
      invariant lowered == LowerAll(words)[..index]
    {
      lowered := lowered + [ToLower(words[index])];
    }
    assert LowerAll(words)[..|words|] == LowerAll(words);
    phrase := Join(lowered);
  }

  // ---------------------------------------------------------------- words without spaces

  lemma {:induction false} ConcatNoSpace(ws: seq<string>, k: nat)
    requires NoSpace(Concat(ws)) && k < |ws|
    ensures NoSpace(ws[k])
  {
    var rest := Concat(ws[1..]);
    forall i | 0 <= i < |rest| ensures !IsSpace(rest[i]) {
      assert rest[i] == Concat(ws)[|ws[0]| + i];
    }
    forall i | 0 <= i < |ws[0]| ensures !IsSpace(ws[0][i]) {
      assert ws[0][i] == Concat(ws)[i];
    }
    if k > 0 { ConcatNoSpace(ws[1..], k - 1); }
  }

  lemma SplitGivesWords(v: Vocabulary, name: string)
    requires GoodVocabulary(v) && NoSpace(name)
    ensures AreWords(Split(v, name))
  {
    var ws := Split(v, name);
    SplitSpells(v, name);
    SplitShapes(v, name);
    forall i | 0 <= i < |ws| ensures IsWord(ws[i]) {
      assert Shaped(ws[i]);
      ConcatNoSpace(ws, i);
    }
  }

  lemma LoweredAreWords(ws: seq<string>)
    requires AreWords(ws)
    ensures AreWords(LowerAll(ws))
  {
    forall i | 0 <= i < |ws| ensures IsWord(LowerAll(ws)[i]) {
      assert IsWord(ws[i]);
    }
  }

  /** The text without its spaces. */
  function Squeeze(s: string): string {
    if s == [] then [] else (if IsSpace(s[0]) then [] else [s[0]]) + Squeeze(s[1..])
  }

  lemma {:induction false} SqueezeOfWord(w: string)
    requires NoSpace(w)
    ensures Squeeze(w) == w
  {
    if w != [] { SqueezeOfWord(w[1..]); }
  }

  lemma {:induction false} SqueezeAfterWord(w: string, rest: string)
    requires NoSpace(w)
    ensures Squeeze(w + rest) == w + Squeeze(rest)
  {
    if w == [] {
      assert w + rest == rest;
    } else {
      assert (w + rest)[1..] == w[1..] + rest;
      SqueezeAfterWord(w[1..], rest);
    }
  }

  lemma {:induction false} SqueezeOfJoin(ws: seq<string>)
    requires AreWords(ws)
    ensures Squeeze(Join(ws)) == Concat(ws)
  {
    if |ws| == 1 {
      assert IsWord(ws[0]);
      SqueezeOfWord(ws[0]);
      assert Concat(ws[1..]) == [];
    } else if |ws| > 1 {
      assert IsWord(ws[0]);
      var rest := " " + Join(ws[1..]);
      assert Join(ws) == ws[0] + rest;
      SqueezeAfterWord(ws[0], rest);
      assert rest[1..] == Join(ws[1..]);
      SqueezeOfJoin(ws[1..]);
    }
  }

  /** The display name is the words of the name with single spaces between them; without the spaces it is the name. */
  lemma DisplayNameSpellsName(v: Vocabulary, name: string)
    requires GoodVocabulary(v) && NoSpace(name)
    ensures Squeeze(DisplayName(v, name)) == name
    ensures Tidy(DisplayName(v, name)) && Fields(DisplayName(v, name)) == Split(v, name)
  {
    SplitGivesWords(v, name);
    JoinIsTidy(Split(v, name));
    FieldsOfJoin(Split(v, name));
    SqueezeOfJoin(Split(v, name));
    SplitSpells(v, name);
  }

  /** Different canonical names never share a display name. */
  lemma DisplayNamesAreDistinct(v: Vocabulary, a: string, b: string)
    requires GoodVocabulary(v) && NoSpace(a) && NoSpace(b)
    ensures DisplayName(v, a) == DisplayName(v, b) <==> a == b
  {
    DisplayNameSpellsName(v, a);
    DisplayNameSpellsName(v, b);
  }

  lemma {:induction false} ConcatOfLowered(ws: seq<string>)
    ensures Concat(LowerAll(ws)) == ToLower(Concat(ws))
  {
    if ws != [] {
      ConcatOfLowered(ws[1..]);
      assert LowerAll(ws)[1..] == LowerAll(ws[1..]);
    }
  }

  /** The phrase is the lowercased words with single spaces between them; without the spaces it is the lowercased name. */
  lemma PhraseSpellsLoweredName(v: Vocabulary, name: string)
    requires GoodVocabulary(v) && NoSpace(name)
    ensures Squeeze(Phrase(v, name)) == ToLower(name)
    ensures Tidy(Phrase(v, name)) && |Fields(Phrase(v, name))| == |Split(v, name)|
    ensures forall i :: 0 <= i < |Split(v, name)| ==> Fields(Phrase(v, name))[i] == ToLower(Split(v, name)[i])
  {
    var ws := Split(v, name);
    SplitGivesWords(v, name);
    LoweredAreWords(ws);
    JoinIsTidy(LowerAll(ws));
    FieldsOfJoin(LowerAll(ws));
    SqueezeOfJoin(LowerAll(ws));
    ConcatOfLowered(ws);
    SplitSpells(v, name);
  }

  /** Two names share a phrase exactly when they split into the same words, ignoring case. */
  lemma SamePhraseIffSameWords(v: Vocabulary, a: string, b: string)
    requires GoodVocabulary(v) && NoSpace(a) && NoSpace(b)
    ensures Phrase(v, a) == Phrase(v, b) <==> LowerAll(Split(v, a)) == LowerAll(Split(v, b))
  {
    SplitGivesWords(v, a);
    SplitGivesWords(v, b);
    LoweredAreWords(Split(v, a));
    LoweredAreWords(Split(v, b));
    if Phrase(v, a) == Phrase(v, b) {
      JoinInjective(LowerAll(Split(v, a)), LowerAll(Split(v, b)));
    }
  }

  // ---------------------------------------------------------------- aliases

  /** Every field split into words, in order. */
  function AliasWords(v: Vocabulary, fields: seq<string>): seq<string> {
    if fields == [] then [] else AliasWords(v, fields[..|fields| - 1]) + Split(v, fields[|fields| - 1])
  }

  function NormalizedAlias(v: Vocabulary, raw: string): string {
    Join(LowerAll(AliasWords(v, Fields(raw))))
  }

  lemma LowerAllAppend(a: seq<string>, b: seq<string>)
    ensures LowerAll(a + b) == LowerAll(a) + LowerAll(b)
  {}

  lemma AliasWordsStep(v: Vocabulary, fields: seq<string>, i: nat)
    requires i < |fields|
    ensures LowerAll(AliasWords(v, fields[..i + 1]))
            == LowerAll(AliasWords(v, fields[..i])) + LowerAll(Split(v, fields[i]))
  {
    assert fields[..i + 1][..i] == fields[..i];
    LowerAllAppend(AliasWords(v, fields[..i]), Split(v, fields[i]));
  }

  /** Appends the words of one field, lowercased. */
  method AppendLowered(words: seq<string>, parts: seq<string>) returns (all: seq<string>)
    ensures all == words + LowerAll(parts)
  {
    all := words;
    for j := 0 to |parts|
      invariant all == words + LowerAll(parts)[..j]
    {
      all := all + [ToLower(parts[j])];
    }
    assert LowerAll(parts)[..|parts|] == LowerAll(parts);
  }

  method NormalizeAliasText(v: Vocabulary, bound: nat, raw: string) returns (r: string)
    requires forall t :: t in v ==> |t| <= bound
    ensures r == NormalizedAlias(v, raw)
  {
    var fields := Fields(raw);
    var words: seq<string> := [];
    for i := 0 to |fields|
      invariant words == LowerAll(AliasWords(v, fields[..i]))
    {
      var parts := SplitIdentifierWords(v, bound, fields[i]);
      words := AppendLowered(words, parts);
      AliasWordsStep(v, fields, i);
    }
    assert fields[..|fields|] == fields;
    r := Join(words);
  }

  /** On an identifier, alias normalization is the phrase. */
  lemma AliasAgreesWithPhrase(v: Vocabulary, name: string)
    requires NoSpace(name)
    ensures NormalizedAlias(v, name) == Phrase(v, name)
  {
    if name == [] {
      assert Fields(name) == [];
      assert Runs(name) == [];
    } else {
      FieldsOfJoin([name]);
      assert [name][..0] == [];
      assert AliasWords(v, [name]) == Split(v, name);
    }
  }

  lemma LoweredClass(c: char)
    ensures ClassOf(c) == Digit <==> ClassOf(LowerChar(c)) == Digit
    ensures ClassOf(c) != Digit ==> ClassOf(LowerChar(c)) == Lower
  {}

  lemma {:induction false} LoweredCore(w: string)
    ensures Core(ToLower(w)) == ToLower(Core(w))
  {
    if w != [] {
      LoweredClass(w[0]);
      assert ToLower(w)[1..] == ToLower(w[1..]);
      LoweredCore(w[1..]);
    }
  }

  lemma LoweredHalves(w: string)
    requires Shaped(w)
    ensures var n := |Core(w)|; n <= |w| && AllOf(ToLower(w)[..n], Lower) && AllOf(ToLower(w)[n..], Digit)
  {
    var l, n := ToLower(w), |Core(w)|;
    forall i | 0 <= i < n ensures ClassOf(l[i]) == Lower {
      assert Core(w)[i] == w[i];
      LoweredClass(w[i]);
    }
    forall i | n <= i < |w| ensures ClassOf(l[i]) == Digit {
      assert w[n..][i - n] == w[i];
      LoweredClass(w[i]);
    }
  }

  lemma SplitOneRun(v: Vocabulary, s: string, run: Run)
    requires Runs(s) == [run] && run.text == s && s != [] && run.class_ != Upper
    ensures Split(v, s) == [s]
  {
    RunsNonEmpty(s);
    assert StepWords(v, Runs(s), 0, []) == [s];
    assert SplitFrom(v, Runs(s), 1, [s]) == [s];
  }

  lemma SplitLowerThenDigits(v: Vocabulary, a: string, b: string)
    requires a != [] && AllOf(a, Lower) && b != [] && AllOf(b, Digit)
    ensures Split(v, a + b) == [a + b]
  {
    RunsOfTwo(a, b, Lower, Digit);
    RunsNonEmpty(a + b);
    var runs := Runs(a + b);
    assert StepWords(v, runs, 0, []) == [a];
    assert StepWords(v, runs, 1, [a]) == [a + b];
    assert SplitFrom(v, runs, 2, [a + b]) == [a + b];
    assert SplitFrom(v, runs, 1, [a]) == [a + b];
  }

  /** A lowercased word is left whole by the splitter. */
  lemma LoweredWordIsWhole(v: Vocabulary, w: string)
    requires Shaped(w)
    ensures Split(v, ToLower(w)) == [ToLower(w)]
  {
    var l, n := ToLower(w), |Core(w)|;
    LoweredHalves(w);
    if n == 0 {
      assert l[0..] == l;
      RunsOfUniform(l, Digit);
      SplitOneRun(v, l, Run(Digit, l));
    } else if n == |w| {
      assert l[..n] == l;
      RunsOfUniform(l, Lower);
      SplitOneRun(v, l, Run(Lower, l));
    } else {
      SplitLowerThenDigits(v, l[..n], l[n..]);
      assert l[..n] + l[n..] == l;
    }
  }

  lemma {:induction false} AliasWordsAre(v: Vocabulary, fields: seq<string>)
    requires GoodVocabulary(v) && AreWords(fields)
    ensures AreWords(AliasWords(v, fields))
    ensures forall i :: 0 <= i < |AliasWords(v, fields)| ==> Shaped(AliasWords(v, fields)[i])
  {
    if fields != [] {
      var last := fields[|fields| - 1];
      AliasWordsAre(v, fields[..|fields| - 1]);
      assert IsWord(last);
      SplitGivesWords(v, last);
      SplitShapes(v, last);
    }
  }

  lemma {:induction false} LoweredWordsAreWhole(v: Vocabulary, ws: seq<string>)
    requires forall i :: 0 <= i < |ws| ==> Shaped(ws[i])
    ensures AliasWords(v, LowerAll(ws)) == LowerAll(ws)
  {
    if ws != [] {
      var front, last := ws[..|ws| - 1], ws[|ws| - 1];
      LoweredWordsAreWhole(v, front);
      LoweredWordIsWhole(v, last);
      assert LowerAll(ws)[..|ws| - 1] == LowerAll(front);
      assert LowerAll(ws) == LowerAll(front) + [ToLower(last)];
    }
  }

  lemma LowerAllTwice(ws: seq<string>)
    ensures LowerAll(LowerAll(ws)) == LowerAll(ws)
  {
    forall i | 0 <= i < |ws| ensures LowerAll(LowerAll(ws))[i] == LowerAll(ws)[i] {
      assert ToLower(ToLower(ws[i])) == ToLower(ws[i]);
    }
  }

  /** Normalizing a normalized alias changes nothing. */
  lemma AliasNormalizationIsIdempotent(v: Vocabulary, raw: string)
    requires GoodVocabulary(v)
    ensures NormalizedAlias(v, NormalizedAlias(v, raw)) == NormalizedAlias(v, raw)
  {
    var words := AliasWords(v, Fields(raw));
    FieldsAreWords(raw);
    AliasWordsAre(v, Fields(raw));
    LoweredAreWords(words);
    FieldsOfJoin(LowerAll(words));
    LoweredWordsAreWhole(v, words);
    LowerAllTwice(words);
  }

  function LoweredWords(v: Vocabulary): string -> seq<string> {
    (field: string) => LowerAll(Split(v, field))
  }

  lemma {:induction false} AliasWordsLowered(v: Vocabulary, fields: seq<string>)
    ensures LowerAll(AliasWords(v, fields)) == FlatMap(LoweredWords(v), fields)
  {
    if fields != [] {
      var front, last := fields[..|fields| - 1], fields[|fields| - 1];
      AliasWordsLowered(v, front);
      LowerAllAppend(AliasWords(v, front), Split(v, last));
      assert fields == front + [last];
      FlatMapAppend(LoweredWords(v), front, [last]);
      FlatMapOne(LoweredWords(v), last);
    }
  }

  /** A normalized alias is the lowercased words of each field of the text in turn, with single spaces between them. */
  lemma NormalizedAliasWords(v: Vocabulary, raw: string)
    requires GoodVocabulary(v)
    ensures Tidy(NormalizedAlias(v, raw)) && Fields(NormalizedAlias(v, raw)) == FlatMap(LoweredWords(v), Fields(raw))
  {
    var words := AliasWords(v, Fields(raw));
    FieldsAreWords(raw);
    AliasWordsAre(v, Fields(raw));
    LoweredAreWords(words);
    JoinIsTidy(LowerAll(words));
    FieldsOfJoin(LowerAll(words));
    AliasWordsLowered(v, Fields(raw));
  }

  // ---------------------------------------------------------------- alias records

  datatype Source = Rename | ReviewedManualEntry

  datatype Alias = Alias(
    atom: string, text: string, normalized: string, source: Source,
    activeFrom: int, activeUntil: Option<int>, reason: string)
  {
    predicate Active() { activeUntil.None? }
  }

  datatype Outcome<+T> = Accepted(value: T) | Rejected(why: Refusal)

  datatype Refusal = InvalidAlias | InvalidProposal | ReviewRequired | RequiresNewIdentity

  const MAXIMUM_ALIAS_TEXT_BYTES := 320

  /** `at` is absent when no timestamp was given. */
  function NewAlias(v: Vocabulary, atom: string, text: string, source: Source, at: Option<int>): Outcome<Alias> {
    var trimmed := Trim(text);
    if atom == "" || trimmed == "" || ByteLength(trimmed) > MAXIMUM_ALIAS_TEXT_BYTES || at.None? then
      Rejected(InvalidAlias)
    else
      Accepted(Alias(atom, trimmed, NormalizedAlias(v, trimmed), source, at.value, None, ""))
  }

  function AliasFromPriorName(v: Vocabulary, atom: string, prior: string, at: Option<int>): Outcome<Alias> {
    if prior == "" then Rejected(InvalidAlias) else NewAlias(v, atom, prior, Rename, at)
  }

  function Invalidate(alias: Alias, reason: string, at: int): Outcome<Alias> {
    var trimmed := Trim(reason);
    if trimmed == "" || !alias.Active() || at < alias.activeFrom then Rejected(InvalidAlias)
    else Accepted(alias.(activeUntil := Some(at), reason := trimmed))
  }

  lemma InvalidationIsFinal(alias: Alias, reason: string, at: int)
    requires Invalidate(alias, reason, at).Accepted?
    ensures var closed := Invalidate(alias, reason, at).value;
            && !closed.Active() && closed.(activeUntil := None, reason := alias.reason) == alias
            && alias.activeFrom <= at && closed.activeUntil == Some(at) && closed.reason == Trim(reason) != ""
  {
    assert alias.activeUntil == None;
  }

  // ---------------------------------------------------------------- renames

  datatype Classification = FormattingOnly | SemanticPreserving | SemanticBreaking

  datatype Proposal = Proposal(
    oldName: string, newName: string, oldContract: string, newContract: string, changeAsserted: bool)

  datatype Version = Version(atom: string, number: nat)
  {
    predicate IsZero() { number == 0 }
  }

  datatype Authorized = Authorized(
    classification: Classification, atom: string, version: Version, alias: Option<Alias>)

  /** Compares the two word lists one pair at a time, ignoring ASCII case. */
  method SameNormalizedWords(v: Vocabulary, bound: nat, a: string, b: string) returns (same: bool)
    requires GoodVocabulary(v) && (forall t :: t in v ==> |t| <= bound)
    requires NoSpace(a) && NoSpace(b)
    ensures same <==> Phrase(v, a) == Phrase(v, b)
  {
    SamePhraseIffSameWords(v, a, b);
    var wordsA := SplitIdentifierWords(v, bound, a);
    var wordsB := SplitIdentifierWords(v, bound, b);
    if |wordsA| != |wordsB| {
      return false;
    }
    for index := 0 to |wordsA|
      invariant forall k :: 0 <= k < index ==> LowerAll(wordsA)[k] == LowerAll(wordsB)[k]
    {
      if ToLower(wordsA[index]) != ToLower(wordsB[index]) {
        assert LowerAll(wordsA)[index] != LowerAll(wordsB)[index];
        return false;
      }
    }
    return true;
  }

  function ClassifyRename(v: Vocabulary, p: Proposal): Outcome<Classification> {
    if p.oldName == "" || p.newName == "" || p.oldName == p.newName || p.oldContract == "" || p.newContract == "" then
      Rejected(InvalidProposal)
    else if p.oldContract != p.newContract || p.changeAsserted then Accepted(SemanticBreaking)
    else if LowerAll(Split(v, p.oldName)) == LowerAll(Split(v, p.newName)) then Accepted(FormattingOnly)
    else Accepted(SemanticPreserving)
  }

  function AuthorizeRename(v: Vocabulary, p: Proposal, reviewer: string, before: Version, after: Version,
                           at: Option<int>): Outcome<Authorized>
  {
    match ClassifyRename(v, p)
    case Rejected(why) => Rejected(why)
    case Accepted(c) =>
      if before.IsZero() || after.IsZero() || at.None? then Rejected(InvalidProposal)
      else if c == SemanticPreserving && reviewer == "" then Rejected(ReviewRequired)
      else if c == SemanticBreaking then
        if after == before then Rejected(RequiresNewIdentity)
        else Accepted(Authorized(c, after.atom, after, None))
      else if after != before then Rejected(InvalidProposal)
      else match AliasFromPriorName(v, after.atom, p.oldName, at)
        case Rejected(why) => Rejected(why)
        case Accepted(alias) => Accepted(Authorized(c, after.atom, after, Some(alias)))
  }

  /** With the contract kept and no change asserted, formatting-only means equal phrases. */
  lemma FormattingOnlyIffSamePhrase(v: Vocabulary, p: Proposal)
    requires GoodVocabulary(v) && CanonicalName(p.oldName) && CanonicalName(p.newName)
    requires p.oldName != p.newName
    requires p.oldContract == p.newContract != "" && !p.changeAsserted
    ensures ClassifyRename(v, p) == Accepted(FormattingOnly) <==> Phrase(v, p.oldName) == Phrase(v, p.newName)
    ensures ClassifyRename(v, p) == Accepted(SemanticPreserving) <==> Phrase(v, p.oldName) != Phrase(v, p.newName)
  {
    SamePhraseIffSameWords(v, p.oldName, p.newName);
  }

  lemma {:induction false} AsciiByteLength(s: string)
    requires forall i :: 0 <= i < |s| ==> IdentifierChar(s[i])
    ensures ByteLength(s) == |s|
  {
    if s != [] { AsciiByteLength(s[1..]); }
  }

  /** The alias a prior canonical name becomes carries that name's phrase. */
  lemma PriorNameAlias(v: Vocabulary, atom: string, prior: string, at: Option<int>)
    requires CanonicalName(prior) && atom != "" && at.Some?
    ensures AliasFromPriorName(v, atom, prior, at)
            == Accepted(Alias(atom, prior, Phrase(v, prior), Rename, at.value, None, ""))
  {
    AsciiByteLength(prior);
    TrimOfTrimmed(prior);
    AliasAgreesWithPhrase(v, prior);
  }

  predicate KeepsContract(p: Proposal) {
    p.oldContract == p.newContract && !p.changeAsserted
  }

  lemma KeepingRename(v: Vocabulary, p: Proposal, reviewer: string, before: Version, after: Version, at: Option<int>)
    requires GoodVocabulary(v) && CanonicalName(p.oldName) && CanonicalName(p.newName)
    requires p.oldContract != "" && (after.number > 0 ==> after.atom != "") && KeepsContract(p)
    ensures var reworded := Phrase(v, p.oldName) != Phrase(v, p.newName);
            AuthorizeRename(v, p, reviewer, before, after, at).Accepted? <==>
            && p.oldName != p.newName && before == after && after.number > 0 && at.Some?
            && (reworded ==> reviewer != "")
    ensures var r := AuthorizeRename(v, p, reviewer, before, after, at);
            r.Accepted? ==>
            && r.value.atom == after.atom && r.value.version == after && at.Some?
            && r.value.classification == (if Phrase(v, p.oldName) == Phrase(v, p.newName) then FormattingOnly else SemanticPreserving)
            && r.value.alias == Some(Alias(after.atom, p.oldName, Phrase(v, p.oldName), Rename, at.value, None, ""))
  {
    SamePhraseIffSameWords(v, p.oldName, p.newName);
    if after.number > 0 && at.Some? { PriorNameAlias(v, after.atom, p.oldName, at); }
  }

  lemma BreakingRename(v: Vocabulary, p: Proposal, reviewer: string, before: Version, after: Version, at: Option<int>)
    requires CanonicalName(p.oldName) && CanonicalName(p.newName)
    requires p.oldContract != "" && p.newContract != "" && !KeepsContract(p)
    ensures AuthorizeRename(v, p, reviewer, before, after, at) ==
            if p.oldName == p.newName || before.number == 0 || after.number == 0 || at.None? then
              Rejected(InvalidProposal)
            else if before == after then Rejected(RequiresNewIdentity)
            else Accepted(Authorized(SemanticBreaking, after.atom, after, None))
  {}

  /**
   Which renames are authorized: those that keep both contract and version, reviewed when the
   words change, with the prior name kept as an alias; and those that move to another version
   because the contract changed or a change was asserted, with no alias.
   */
  lemma RenameAuthorizedIff(v: Vocabulary, p: Proposal, reviewer: string, before: Version, after: Version,
                            at: Option<int>)
    requires GoodVocabulary(v) && CanonicalName(p.oldName) && CanonicalName(p.newName)
    requires p.oldContract != "" && p.newContract != "" && (after.number > 0 ==> after.atom != "")
    ensures AuthorizeRename(v, p, reviewer, before, after, at).Accepted? <==>
            && p.oldName != p.newName && before.number > 0 && after.number > 0 && at.Some?
            && (KeepsContract(p) <==> before == after)
            && (KeepsContract(p) && Phrase(v, p.oldName) != Phrase(v, p.newName) ==> reviewer != "")
    ensures var r := AuthorizeRename(v, p, reviewer, before, after, at);
            r.Accepted? ==>
            && r.value.version == after && r.value.atom == after.atom && at.Some?
            && r.value.classification == (if !KeepsContract(p) then SemanticBreaking
                                          else if Phrase(v, p.oldName) == Phrase(v, p.newName) then FormattingOnly
                                          else SemanticPreserving)
            && r.value.alias == if KeepsContract(p)
               then Some(Alias(after.atom, p.oldName, Phrase(v, p.oldName), Rename, at.value, None, ""))
               else None
  {
    if KeepsContract(p) {
      KeepingRename(v, p, reviewer, before, after, at);
    } else {
      BreakingRename(v, p, reviewer, before, after, at);
    }
  }
}
