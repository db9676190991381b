/**
 Splitting a canonical identifier into words: maximal runs of one character class, with runs
 of capitals resolved by greedy longest match against a fixed vocabulary. Display names,
 normalized phrases and alias text all come from this one split.
 */
module Identifier {
  import opened Common

  // ---------------------------------------------------------------- characters and runs

  datatype CharClass = Upper | Lower | Digit

  function ClassOf(c: char): CharClass {
    if 'A' <= c <= 'Z' then Upper else if '0' <= c <= '9' then Digit else Lower
  }

  predicate AllOf(s: string, class_: CharClass) {
    forall i :: 0 <= i < |s| ==> ClassOf(s[i]) == class_
  }

  datatype Run = Run(class_: CharClass, text: string)

  predicate Uniform(run: Run) {
    run.text != [] && AllOf(run.text, run.class_)
  }

  predicate UniformRuns(runs: seq<Run>) {
    forall i :: 0 <= i < |runs| ==> Uniform(runs[i])
  }

  /** One more character: it lengthens the last run or opens a new one. */
  function Extend(runs: seq<Run>, c: char): seq<Run> {
    if runs != [] && runs[|runs| - 1].class_ == ClassOf(c)
    then runs[..|runs| - 1] + [Run(ClassOf(c), runs[|runs| - 1].text + [c])]
    else runs + [Run(ClassOf(c), [c])]
  }

  /** The maximal runs of one class, in order. */
  function Runs(raw: string): seq<Run> {
    Fold(Extend, [], raw)
  }

  function RunTexts(runs: seq<Run>): string {
    if runs == [] then [] else runs[0].text + RunTexts(runs[1..])
  }

  lemma {:induction false} RunTextsAppend(a: seq<Run>, b: seq<Run>)
    ensures RunTexts(a + b) == RunTexts(a) + RunTexts(b)
  {
    if a == [] {
      assert a + b == b;
    } else {
      assert (a + b)[1..] == a[1..] + b;
      RunTextsAppend(a[1..], b);
    }
  }

  /** No two neighbouring runs could be merged. */
  predicate Alternating(runs: seq<Run>) {
    forall i :: 0 < i < |runs| ==> runs[i - 1].class_ != runs[i].class_
  }

  lemma ExtendTexts(runs: seq<Run>, c: char)
    ensures RunTexts(Extend(runs, c)) == RunTexts(runs) + [c]
  {
    if runs != [] && runs[|runs| - 1].class_ == ClassOf(c) {
      var front, last := runs[..|runs| - 1], runs[|runs| - 1];
      assert runs == front + [last];
      RunTextsAppend(front, [last]);
      RunTextsAppend(front, [Run(ClassOf(c), last.text + [c])]);
    } else {
      RunTextsAppend(runs, [Run(ClassOf(c), [c])]);
    }
  }

  lemma ExtendUniform(runs: seq<Run>, c: char)
    requires UniformRuns(runs)
    ensures UniformRuns(Extend(runs, c))
  {
    var after := Extend(runs, c);
    forall i | 0 <= i < |after| ensures Uniform(after[i]) {
      if i < |after| - 1 {
        assert after[i] == runs[i];
      } else if |after| == |runs| {
        assert Uniform(runs[i]);
        assert after[i].text == runs[i].text + [c];
      }
    }
  }

  lemma ExtendAlternating(runs: seq<Run>, c: char)
    requires Alternating(runs)
    ensures Alternating(Extend(runs, c))
  {
    var after := Extend(runs, c);
    forall i | 0 <= i < |runs| ensures after[i].class_ == runs[i].class_ {}
  }

  lemma RunsSnoc(s: string, c: char)
    ensures Runs(s + [c]) == Extend(Runs(s), c)
  {
    FoldAppend(Extend, [], s, [c]);
    FoldOne(Extend, Runs(s), c);
  }

  /** The runs spell the identifier, each of one class, and they are maximal. */
  lemma {:induction false} RunsSpell(raw: string)
    ensures RunTexts(Runs(raw)) == raw
    ensures UniformRuns(Runs(raw)) && Alternating(Runs(raw))
  {
    if raw != [] {
      var front, c := raw[..|raw| - 1], raw[|raw| - 1];
      assert raw == front + [c];
      RunsSpell(front);
      RunsSnoc(front, c);
      ExtendTexts(Runs(front), c);
      ExtendUniform(Runs(front), c);
      ExtendAlternating(Runs(front), c);
    }
  }

  lemma {:induction false} RunsOfUniform(s: string, class_: CharClass)
    requires s != [] && AllOf(s, class_)
    ensures Runs(s) == [Run(class_, s)]
  {
    var front, c := s[..|s| - 1], s[|s| - 1];
    assert s == front + [c];
    RunsSnoc(front, c);
    if front != [] { RunsOfUniform(front, class_); }
  }

  lemma RunsStep(raw: string, i: nat)
    requires i < |raw|
    ensures Runs(raw[..i + 1]) == Extend(Runs(raw[..i]), raw[i])
  {
    FoldNext(Extend, [], raw, i);
  }

  lemma ExtendLast(runs: seq<Run>, class_: CharClass, text: string, c: char)
    ensures Extend(runs + [Run(class_, text)], c) ==
            if ClassOf(c) == class_ then runs + [Run(class_, text + [c])]
            else runs + [Run(class_, text)] + [Run(ClassOf(c), [c])]
  {
    assert (runs + [Run(class_, text)])[..|runs|] == runs;
  }

  lemma RunsTurn(a: string, c: char, ca: CharClass)
    requires a != [] && AllOf(a, ca) && ClassOf(c) != ca
    ensures Runs(a + [c]) == [Run(ca, a), Run(ClassOf(c), [c])]
  {
    RunsOfUniform(a, ca);
    RunsSnoc(a, c);
  }

  lemma RunsGrow(s: string, first: Run, class_: CharClass, text: string, c: char)
    requires Runs(s) == [first, Run(class_, text)] && ClassOf(c) == class_
    ensures Runs(s + [c]) == [first, Run(class_, text + [c])]
  {
    RunsSnoc(s, c);
    ExtendLast([first], class_, text, c);
    assert [first] + [Run(class_, text)] == [first, Run(class_, text)];
  }

  lemma {:induction false} RunsOfTwo(a: string, b: string, ca: CharClass, cb: CharClass)
    requires a != [] && b != [] && AllOf(a, ca) && AllOf(b, cb) && ca != cb
    ensures Runs(a + b) == [Run(ca, a), Run(cb, b)]
    decreases |b|
  {
    if |b| == 1 {
      assert b == [b[0]];
      RunsTurn(a, b[0], ca);
    } else {
      var front, c := b[..|b| - 1], b[|b| - 1];
      RunsOfTwo(a, front, ca, cb);
      RunsGrow(a + front, Run(ca, a), cb, front, c);
      assert b == front + [c];
      assert a + front + [c] == a + b;
    }
  }

  lemma NextRuns(raw: string, start: nat, i: nat, runs: seq<Run>, current: CharClass)
    requires start < i < |raw| && Runs(raw[..i]) == runs + [Run(current, raw[start..i])]
    ensures Runs(raw[..i + 1]) ==
            if ClassOf(raw[i]) == current then runs + [Run(current, raw[start..i + 1])]
            else runs + [Run(current, raw[start..i])] + [Run(ClassOf(raw[i]), raw[i..i + 1])]
  {
    RunsStep(raw, i);
    ExtendLast(runs, current, raw[start..i], raw[i]);
    assert raw[i..i + 1] == [raw[i]];
    assert raw[start..i + 1] == raw[start..i] + [raw[i]];
  }

  /** One pass that cuts a run wherever the class changes. */
  method GroupIdentifierRuns(raw: string) returns (runs: seq<Run>)
    ensures runs == Runs(raw)
  {
    if raw == [] {
      return [];
    }
    runs := [];
    var start, current := 0, ClassOf(raw[0]);
    RunsOfUniform(raw[..1], current);
    for i := 1 to |raw|
      invariant 0 <= start < i
      invariant Runs(raw[..i]) == runs + [Run(current, raw[start..i])]
    {
      NextRuns(raw, start, i, runs, current);
      var class_ := ClassOf(raw[i]);
      if class_ != current {
        runs := runs + [Run(current, raw[start..i])];
        start, current := i, class_;
      }
    }
    assert raw[..|raw|] == raw && raw[start..|raw|] == raw[start..];
    runs := runs + [Run(current, raw[start..])];
  }

  // ---------------------------------------------------------------- the vocabulary

  type Vocabulary = set<string>

  /** The longest prefix that holds no digit. */
  function Core(w: string): (p: string)
    ensures p <= w
    ensures forall i :: 0 <= i < |p| ==> ClassOf(p[i]) != Digit
    ensures |p| < |w| ==> ClassOf(w[|p|]) == Digit
  {
    if w == [] || ClassOf(w[0]) == Digit then [] else [w[0]] + Core(w[1..])
  }

  /** At least two capitals that are no token themselves. */
  predicate LooseCapitals(v: Vocabulary, s: string) {
    |s| >= 2 && AllOf(s, Upper) && s !in v
  }

  /** Tokens are at least two characters, all capitals or built on loose capitals. */
  ghost predicate GoodVocabulary(v: Vocabulary) {
    forall t :: t in v ==> |t| >= 2 && (AllOf(t, Upper) || LooseCapitals(v, Core(t)))
  }

  // ---------------------------------------------------------------- greedy matching

  /** `token` is the longest token that starts `text`; "" when there is none. */
  ghost predicate LongestMatch(v: Vocabulary, text: string, token: string) {
    && token <= text
    && (token != "" ==> token in v)
    && forall n :: |token| < n <= |text| ==> text[..n] !in v
  }

  function LongestFrom(v: Vocabulary, text: string, length: nat): (r: string)
    requires length <= |text|
  {
    if length < 2 then "" else if text[..length] in v then text[..length] else LongestFrom(v, text, length - 1)
  }

  function LongestAbbreviationPrefix(v: Vocabulary, text: string): string {
    LongestFrom(v, text, |text|)
  }

  lemma {:induction false} LongestFromMatches(v: Vocabulary, text: string, length: nat)
    requires GoodVocabulary(v) && length <= |text|
    ensures var r := LongestFrom(v, text, length);
            && |r| <= length && r == text[..|r|] && (r != "" ==> r in v)
            && forall n :: |r| < n <= length ==> text[..n] !in v
  {
    if length >= 2 && text[..length] !in v {
      LongestFromMatches(v, text, length - 1);
    }
  }

  lemma LongestPrefixMatches(v: Vocabulary, text: string)
    requires GoodVocabulary(v)
    ensures LongestMatch(v, text, LongestAbbreviationPrefix(v, text))
  {
    LongestFromMatches(v, text, |text|);
  }

  lemma {:induction false} LongestFromBounded(v: Vocabulary, text: string, bound: nat, length: nat)
    requires forall t :: t in v ==> |t| <= bound
    requires bound <= length <= |text|
    ensures LongestFrom(v, text, length) == LongestFrom(v, text, bound)
  {
    if bound < length && length >= 2 { LongestFromBounded(v, text, bound, length - 1); }
  }

  /** Probes from the longest length any token has downwards. */
  method FindLongestAbbreviationPrefix(v: Vocabulary, bound: nat, text: string) returns (r: string)
    requires forall t :: t in v ==> |t| <= bound
    ensures r == LongestAbbreviationPrefix(v, text)
  {
    var limit := |text|;
    if limit > bound {
      LongestFromBounded(v, text, bound, |text|);
      limit := bound;
    }
    var length := limit;
    while length >= 2
      invariant 0 <= length <= limit
      invariant LongestFrom(v, text, limit) == LongestFrom(v, text, length)
    {
      if text[..length] in v {
        return text[..length];
      }
      length := length - 1;
    }
    return "";
  }

  function Concat(words: seq<string>): string {
    if words == [] then [] else words[0] + Concat(words[1..])
  }

  lemma {:induction false} ConcatAppend(a: seq<string>, b: seq<string>)
    ensures Concat(a + b) == Concat(a) + Concat(b)
  {
    if a == [] {
      assert a + b == b;
    } else {
      assert (a + b)[1..] == a[1..] + b;
      ConcatAppend(a[1..], b);
    }
  }

  lemma ConcatCons(word: string, words: seq<string>)
    ensures Concat([word] + words) == word + Concat(words)
  {
    assert ([word] + words)[1..] == words;
  }

  /** The next token: the longest match, or one letter when there is none. */
  function NextToken(v: Vocabulary, text: string): (t: string)
    requires text != []
  {
    var token := LongestAbbreviationPrefix(v, text);
    if token != "" then token else text[..1]
  }

  lemma NextTokenFits(v: Vocabulary, text: string)
    requires text != []
    ensures NextToken(v, text) != [] && NextToken(v, text) <= text
  {
    LongestFromFits(v, text, |text|);
  }

  lemma {:induction false} LongestFromFits(v: Vocabulary, text: string, length: nat)
    requires length <= |text|
    ensures LongestFrom(v, text, length) <= text
  {
    if length >= 2 && text[..length] !in v { LongestFromFits(v, text, length - 1); }
  }

  function Decompose(v: Vocabulary, text: string): seq<string>
    decreases |text|
  {
    if text == [] then []
    else
      NextTokenFits(v, text);
      [NextToken(v, text)] + Decompose(v, text[|NextToken(v, text)|..])
  }

  /** Consumes the run from the left, one token at a time. */
  method DecomposeUpperRun(v: Vocabulary, bound: nat, text: string) returns (tokens: seq<string>)
    requires forall t :: t in v ==> |t| <= bound
    ensures tokens == Decompose(v, text)
  {
    tokens := [];
    var rest := text;
    while |rest| > 0
      invariant tokens + Decompose(v, rest) == Decompose(v, text)
    {
      var match_ := FindLongestAbbreviationPrefix(v, bound, rest);
      var token := if match_ != "" then match_ else rest[..1];
      NextTokenFits(v, rest);
      assert tokens + Decompose(v, rest) == tokens + [token] + Decompose(v, rest[|token|..]);
      tokens := tokens + [token];
      rest := rest[|token|..];
    }
    assert tokens + [] == tokens;
  }

  /** `t` is the greedy choice for the front of `text`. */
  ghost predicate GreedyToken(v: Vocabulary, text: string, t: string) {
    && t != [] && t <= text
    && (LongestMatch(v, text, t) || (|t| == 1 && LongestMatch(v, text, "")))
  }

  /** The tokens spell the text, each the greedy choice for what is left at its place. */
  ghost predicate GreedyTokens(v: Vocabulary, text: string, tokens: seq<string>)
    decreases |tokens|
  {
    if tokens == [] then text == []
    else GreedyToken(v, text, tokens[0]) && GreedyTokens(v, text[|tokens[0]|..], tokens[1..])
  }

  lemma NextTokenIsGreedy(v: Vocabulary, text: string)
    requires GoodVocabulary(v) && text != []
    ensures GreedyToken(v, text, NextToken(v, text))
  {
    NextTokenFits(v, text);
    LongestPrefixMatches(v, text);
  }

  lemma {:induction false} DecomposeIsGreedy(v: Vocabulary, text: string)
    requires GoodVocabulary(v)
    ensures GreedyTokens(v, text, Decompose(v, text))
    decreases |text|
  {
    if text != [] {
      var t := NextToken(v, text);
      NextTokenIsGreedy(v, text);
      DecomposeIsGreedy(v, text[|t|..]);
      assert Decompose(v, text)[1..] == Decompose(v, text[|t|..]);
    }
  }

  lemma {:induction false} DecomposeSpells(v: Vocabulary, text: string)
    ensures Concat(Decompose(v, text)) == text
    decreases |text|
  {
    if text != [] {
      var t := NextToken(v, text);
      NextTokenFits(v, text);
      DecomposeSpells(v, text[|t|..]);
      ConcatCons(t, Decompose(v, text[|t|..]));
    }
  }

  lemma GreedyTokenUnique(v: Vocabulary, text: string, a: string, b: string)
    requires GoodVocabulary(v) && GreedyToken(v, text, a) && GreedyToken(v, text, b)
    ensures a == b
  {
    assert a == text[..|a|] && b == text[..|b|];
  }

  /** No other tokenization is greedy. */
  lemma {:induction false} GreedyIsUnique(v: Vocabulary, text: string, a: seq<string>, b: seq<string>)
    requires GoodVocabulary(v) && GreedyTokens(v, text, a) && GreedyTokens(v, text, b)
    ensures a == b
    decreases |text|
  {
    if a != [] && b != [] {
      GreedyTokenUnique(v, text, a[0], b[0]);
      GreedyIsUnique(v, text[|a[0]|..], a[1..], b[1..]);
    }
  }

  // ---------------------------------------------------------------- the split

  /** A text glued to the last word. */
  function Glue(words: seq<string>, text: string): seq<string>
    requires words != []
  {
    words[..|words| - 1] + [words[|words| - 1] + text]
  }

  function LastWord(words: seq<string>): string
    requires words != []
  {
    words[|words| - 1]
  }

  /** The words two or more capitals and the lowercase run after them make. */
  function CapitalsThenLower(v: Vocabulary, text: string, lower: string): seq<string>
    requires |text| >= 2
  {
    var token := LongestAbbreviationPrefix(v, text);
    LongestFromFits(v, text, |text|);
    if token == "" then
      if |text| == 2 then [text + lower] else [text[..|text| - 1], text[|text| - 1..] + lower]
    else if |token| == |text| then
      if lower == "s" then [token + "s"] else [token, lower]
    else [token, text[|token|..] + lower]
  }

  predicate FollowedByLower(runs: seq<Run>, i: nat) {
    i + 1 < |runs| && runs[i + 1].class_ == Lower
  }

  /** How many runs the step at `i` consumes. */
  function Consumed(runs: seq<Run>, i: nat): (n: nat)
    requires i < |runs|
    ensures 1 <= n && i + n <= |runs|
  {
    if runs[i].class_ == Upper && FollowedByLower(runs, i) then 2 else 1
  }

  /** The words after the run at `i`, given those before it. */
  function StepWords(v: Vocabulary, runs: seq<Run>, i: nat, words: seq<string>): seq<string>
    requires i < |runs| && runs[i].text != []
  {
    var text := runs[i].text;
    match runs[i].class_
    case Digit => if words != [] then Glue(words, text) else [text]
    case Lower =>
      if text == "s" && words != [] && LastWord(words) in v then Glue(words, "s") else words + [text]
    case Upper =>
      if !FollowedByLower(runs, i) then words + (if |text| == 1 then [text] else Decompose(v, text))
      else if |text| == 1 then words + [text + runs[i + 1].text]
      else words + CapitalsThenLower(v, text, runs[i + 1].text)
  }

  predicate NonEmptyRuns(runs: seq<Run>) {
    forall i :: 0 <= i < |runs| ==> runs[i].text != []
  }

  lemma RunsNonEmpty(raw: string)
    ensures NonEmptyRuns(Runs(raw))
  {
    RunsSpell(raw);
    forall i | 0 <= i < |Runs(raw)| ensures Runs(raw)[i].text != [] { assert Uniform(Runs(raw)[i]); }
  }

  function SplitFrom(v: Vocabulary, runs: seq<Run>, i: nat, words: seq<string>): seq<string>
    requires i <= |runs| && NonEmptyRuns(runs)
    decreases |runs| - i
  {
    if i == |runs| then words
    else SplitFrom(v, runs, i + Consumed(runs, i), StepWords(v, runs, i, words))
  }

  function Split(v: Vocabulary, raw: string): seq<string> {
    RunsNonEmpty(raw);
    SplitFrom(v, Runs(raw), 0, [])
  }

  /** The words one step adds for capitals that a lowercase run follows. */
  method SplitCapitals(v: Vocabulary, bound: nat, text: string, lower: string) returns (words: seq<string>)
    requires |text| >= 2 && forall t :: t in v ==> |t| <= bound
    ensures words == CapitalsThenLower(v, text, lower)
  {
    var token := FindLongestAbbreviationPrefix(v, bound, text);
    LongestFromFits(v, text, |text|);
    if token == "" {
      if |text| == 2 {
        return [text + lower];
      }
      return [text[..|text| - 1], text[|text| - 1..] + lower];
    }
    if |token| == |text| {
      if lower == "s" {
        return [token + "s"];
      }
      return [token, lower];
    }
    return [token, text[|token|..] + lower];
  }

  /** Handles one run, or a run of capitals and the lowercase run after it. */
  method SplitStep(v: Vocabulary, bound: nat, runs: seq<Run>, i: nat, words: seq<string>) returns (next: seq<string>)
    requires i < |runs| && runs[i].text != [] && forall t :: t in v ==> |t| <= bound
    ensures next == StepWords(v, runs, i, words)
  {
    var text := runs[i].text;
    match runs[i].class_ {
      case Digit =>
        if words != [] {
          next := words[..|words| - 1] + [words[|words| - 1] + text];
        } else {
          next := [text];
        }
      case Lower =>
        if text == "s" && words != [] && words[|words| - 1] in v {
          next := words[..|words| - 1] + [words[|words| - 1] + "s"];
        } else {
          next := words + [text];
        }
      case Upper =>
        var more: seq<string>;
        if !FollowedByLower(runs, i) {
          if |text| == 1 {
            more := [text];
          } else {
            more := DecomposeUpperRun(v, bound, text);
          }
        } else if |text| == 1 {
          more := [text + runs[i + 1].text];
        } else {
          more := SplitCapitals(v, bound, text, runs[i + 1].text);
        }
        next := words + more;
    }
  }

  /** Walks the runs, growing the list of words. */
  method SplitIdentifierWords(v: Vocabulary, bound: nat, raw: string) returns (words: seq<string>)
    requires forall t :: t in v ==> |t| <= bound
    ensures words == Split(v, raw)
  {
    RunsNonEmpty(raw);
    var runs := GroupIdentifierRuns(raw);
    words := [];
    var i := 0;
    while i < |runs|
      invariant 0 <= i <= |runs|
      invariant SplitFrom(v, runs, i, words) == Split(v, raw)
    {
      words := SplitStep(v, bound, runs, i, words);
      i := i + Consumed(runs, i);
    }
  }

  // ---------------------------------------------------------------- where words end

  /** `s` is a whole run of its class after `a`. */
  predicate Block(a: string, s: string, class_: CharClass) {
    s != [] && AllOf(s, class_) && (a == [] || ClassOf(a[|a| - 1]) != class_)
  }

  /** The words of a run of capitals on its own: one letter, or its greedy tokens. */
  ghost predicate CapitalWords(v: Vocabulary, text: string, words: seq<string>) {
    if |text| == 1 then words == [text] else GreedyTokens(v, text, words)
  }

  /**
   The words of capitals and the lowercase run after them. One capital starts that word. Otherwise
   the longest token in front is a word of its own and what follows it starts the next, where a
   lone "s" only makes the token plural; without a token, two capitals stay with the run and of
   more the last one starts the next word.
   */
  ghost predicate MixedWords(v: Vocabulary, text: string, lower: string, words: seq<string>) {
    if |text| <= 1 then words == [text + lower]
    else
      exists t :: LongestMatch(v, text, t) &&
        if t == "" then
          if |text| == 2 then words == [text + lower]
          else words == [text[..|text| - 1], [text[|text| - 1]] + lower]
        else if t == text then words == if lower == "s" then [t + "s"] else [t, lower]
        else words == [t, text[|t|..] + lower]
  }

  /** Digits belong to the word before them. */
  ghost predicate DigitLaw(split: string -> seq<string>, a: string, d: string) {
    Block(a, d, Digit) ==>
      split(a + d) == if split(a) == [] then [d] else Glue(split(a), d)
  }

  /** A lowercase run that follows no capital is a word, or the plural of a token before it. */
  ghost predicate LowerLaw(v: Vocabulary, split: string -> seq<string>, a: string, l: string) {
    Block(a, l, Lower) && (a == [] || ClassOf(a[|a| - 1]) == Digit) ==>
      split(a + l) == if l == "s" && split(a) != [] && LastWord(split(a)) in v then Glue(split(a), l) else split(a) + [l]
  }

  ghost predicate UpperLaw(v: Vocabulary, split: string -> seq<string>, a: string, u: string) {
    Block(a, u, Upper) ==> exists words :: CapitalWords(v, u, words) && split(a + u) == split(a) + words
  }

  ghost predicate MixedLaw(v: Vocabulary, split: string -> seq<string>, a: string, u: string, l: string) {
    Block(a, u, Upper) && l != [] && AllOf(l, Lower) ==>
      exists words :: MixedWords(v, u, l, words) && split(a + u + l) == split(a) + words
  }

  /** Where the words of an identifier end, read from its last run backwards. */
  ghost predicate SplitLaws(v: Vocabulary, split: string -> seq<string>) {
    && split([]) == []
    && (forall a, d {:trigger Block(a, d, Digit)} :: DigitLaw(split, a, d))
    && (forall a, l {:trigger Block(a, l, Lower)} :: LowerLaw(v, split, a, l))
    && (forall a, u {:trigger Block(a, u, Upper)} :: UpperLaw(v, split, a, u))
    && (forall a, u, l {:trigger MixedLaw(v, split, a, u, l)} :: MixedLaw(v, split, a, u, l))
  }

  lemma LastRunClass(a: string)
    requires a != []
    ensures Runs(a) != [] && Runs(a)[|Runs(a)| - 1].class_ == ClassOf(a[|a| - 1])
  {
    var front, c := a[..|a| - 1], a[|a| - 1];
    assert a == front + [c];
    RunsSnoc(front, c);
  }

  lemma {:induction false} RunsOfBlock(a: string, s: string, class_: CharClass)
    requires Block(a, s, class_)
    ensures Runs(a + s) == Runs(a) + [Run(class_, s)]
    decreases |s|
  {
    var front, c := s[..|s| - 1], s[|s| - 1];
    assert a + s == (a + front) + [c] && s == front + [c];
    RunsSnoc(a + front, c);
    if front == [] {
      assert a + front == a;
      if a != [] { LastRunClass(a); }
    } else {
      RunsOfBlock(a, front, class_);
      ExtendLast(Runs(a), class_, front, c);
    }
  }

  lemma StepOfPrefix(v: Vocabulary, runs: seq<Run>, more: seq<Run>, i: nat, words: seq<string>)
    requires i < |runs| && NonEmptyRuns(runs + more)
    requires more != [] && more[0].class_ == Lower ==> runs[|runs| - 1].class_ != Upper
    ensures runs[i] == (runs + more)[i] && Consumed(runs + more, i) == Consumed(runs, i)
    ensures StepWords(v, runs + more, i, words) == StepWords(v, runs, i, words)
  {
    var all := runs + more;
    if i + 1 < |runs| {
      assert all[i + 1] == runs[i + 1];
    } else if more != [] {
      assert all[i + 1] == more[0];
    }
  }

  /** Runs that no lowercase run can still join are split on their own. */
  lemma {:induction false} SplitOfPrefix(v: Vocabulary, runs: seq<Run>, more: seq<Run>, i: nat, words: seq<string>)
    requires i <= |runs| && NonEmptyRuns(runs) && NonEmptyRuns(runs + more)
    requires runs != [] && more != [] && more[0].class_ == Lower ==> runs[|runs| - 1].class_ != Upper
    ensures SplitFrom(v, runs + more, i, words) == SplitFrom(v, runs + more, |runs|, SplitFrom(v, runs, i, words))
    decreases |runs| - i
  {
    if i < |runs| {
      StepOfPrefix(v, runs, more, i, words);
      SplitOfPrefix(v, runs, more, i + Consumed(runs, i), StepWords(v, runs, i, words));
    }
  }

  /** What one more run, or capitals with their lowercase run, add to the split of what precedes them. */
  lemma SplitGrows(v: Vocabulary, a: string, raw: string, more: seq<Run>)
    requires Runs(raw) == Runs(a) + more && more != []
    requires a != [] && more[0].class_ == Lower ==> ClassOf(a[|a| - 1]) != Upper
    requires |more| == 1 || (|more| == 2 && more[0].class_ == Upper && more[1].class_ == Lower)
    ensures more[0].text != [] && Split(v, raw) == StepWords(v, more, 0, Split(v, a))
  {
    var runs, all, n := Runs(a), Runs(raw), |Runs(a)|;
    RunsNonEmpty(a);
    RunsNonEmpty(raw);
    if a != [] { LastRunClass(a); }
    SplitOfPrefix(v, runs, more, 0, []);
    assert all[n] == more[0] && forall i :: 0 <= i < |more| ==> all[n + i] == more[i];
    assert Consumed(all, n) == |more|;
    assert StepWords(v, all, n, Split(v, a)) == StepWords(v, more, 0, Split(v, a));
  }

  lemma LongestMatchUnique(v: Vocabulary, text: string, t: string)
    requires GoodVocabulary(v) && LongestMatch(v, text, t)
    ensures t == LongestAbbreviationPrefix(v, text)
  {
    LongestPrefixMatches(v, text);
    var u := LongestAbbreviationPrefix(v, text);
    assert t == text[..|t|] && u == text[..|u|];
  }

  lemma MixedWordsAre(v: Vocabulary, text: string, lower: string, words: seq<string>)
    requires GoodVocabulary(v) && |text| >= 2
    ensures MixedWords(v, text, lower, words) <==> words == CapitalsThenLower(v, text, lower)
  {
    LongestPrefixMatches(v, text);
    var token := LongestAbbreviationPrefix(v, text);
    forall t | LongestMatch(v, text, t) ensures t == token { LongestMatchUnique(v, text, t); }
    assert text[|text| - 1..] == [text[|text| - 1]];
    assert |token| == |text| <==> token == text;
  }

  lemma SplitUpper(v: Vocabulary, a: string, u: string)
    requires GoodVocabulary(v)
    ensures UpperLaw(v, s => Split(v, s), a, u)
  {
    if Block(a, u, Upper) {
      RunsOfBlock(a, u, Upper);
      SplitGrows(v, a, a + u, [Run(Upper, u)]);
      DecomposeIsGreedy(v, u);
      var words := if |u| == 1 then [u] else Decompose(v, u);
      assert CapitalWords(v, u, words);
    }
  }

  lemma SplitMixed(v: Vocabulary, a: string, u: string, l: string)
    requires GoodVocabulary(v)
    ensures MixedLaw(v, s => Split(v, s), a, u, l)
  {
    if Block(a, u, Upper) && l != [] && AllOf(l, Lower) {
      RunsOfBlock(a, u, Upper);
      assert (a + u)[|a + u| - 1] == u[|u| - 1];
      RunsOfBlock(a + u, l, Lower);
      assert Runs(a) + [Run(Upper, u)] + [Run(Lower, l)] == Runs(a) + [Run(Upper, u), Run(Lower, l)];
      SplitGrows(v, a, a + u + l, [Run(Upper, u), Run(Lower, l)]);
      var words := if |u| == 1 then [u + l] else CapitalsThenLower(v, u, l);
      if |u| > 1 { MixedWordsAre(v, u, l, words); }
      assert MixedWords(v, u, l, words);
    }
  }

  lemma SplitDigits(v: Vocabulary, a: string, d: string)
    ensures DigitLaw(s => Split(v, s), a, d)
  {
    if Block(a, d, Digit) {
      RunsOfBlock(a, d, Digit);
      SplitGrows(v, a, a + d, [Run(Digit, d)]);
    }
  }

  lemma SplitLower(v: Vocabulary, a: string, l: string)
    ensures LowerLaw(v, s => Split(v, s), a, l)
  {
    if Block(a, l, Lower) && (a == [] || ClassOf(a[|a| - 1]) == Digit) {
      RunsOfBlock(a, l, Lower);
      SplitGrows(v, a, a + l, [Run(Lower, l)]);
    }
  }

  /** The split ends its words where the laws say. */
  lemma SplitObeysLaws(v: Vocabulary)
    requires GoodVocabulary(v)
    ensures SplitLaws(v, s => Split(v, s))
  {
    var split := s => Split(v, s);
    assert split([]) == [];
    forall a, d ensures DigitLaw(split, a, d) { SplitDigits(v, a, d); }
    forall a, l ensures LowerLaw(v, split, a, l) { SplitLower(v, a, l); }
    forall a, u ensures UpperLaw(v, split, a, u) { SplitUpper(v, a, u); }
    forall a, u, l ensures MixedLaw(v, split, a, u, l) { SplitMixed(v, a, u, l); }
  }

  /** Every identifier ends in a whole run. */
  lemma {:induction false} LastBlock(raw: string) returns (a: string, s: string, class_: CharClass)
    requires raw != []
    ensures raw == a + s && Block(a, s, class_)
  {
    var front, c := raw[..|raw| - 1], raw[|raw| - 1];
    if front == [] || ClassOf(front[|front| - 1]) != ClassOf(c) {
      a, s, class_ := front, [c], ClassOf(c);
    } else {
      a, s, class_ := LastBlock(front);
      assert s[|s| - 1] == front[|front| - 1];
      s := s + [c];
    }
    assert raw == front + [c];
  }

  lemma CapitalWordsUnique(v: Vocabulary, text: string, a: seq<string>, b: seq<string>)
    requires GoodVocabulary(v) && CapitalWords(v, text, a) && CapitalWords(v, text, b)
    ensures a == b
  {
    if |text| != 1 { GreedyIsUnique(v, text, a, b); }
  }

  lemma MixedWordsUnique(v: Vocabulary, text: string, lower: string, a: seq<string>, b: seq<string>)
    requires GoodVocabulary(v) && text != [] && MixedWords(v, text, lower, a) && MixedWords(v, text, lower, b)
    ensures a == b
  {
    if |text| != 1 {
      MixedWordsAre(v, text, lower, a);
      MixedWordsAre(v, text, lower, b);
    }
  }

  /** The laws leave no choice. */
  lemma {:induction false} SplitLawsDecide(v: Vocabulary, f: string -> seq<string>, g: string -> seq<string>, raw: string)
    requires GoodVocabulary(v) && SplitLaws(v, f) && SplitLaws(v, g)
    ensures f(raw) == g(raw)
    decreases |raw|
  {
    if raw != [] {
      var a, s, class_ := LastBlock(raw);
      match class_
      case Digit =>
        SplitLawsDecide(v, f, g, a);
        assert DigitLaw(f, a, s) && DigitLaw(g, a, s);
      case Upper =>
        SplitLawsDecide(v, f, g, a);
        assert UpperLaw(v, f, a, s) && UpperLaw(v, g, a, s);
        var x :| CapitalWords(v, s, x) && f(a + s) == f(a) + x;
        var y :| CapitalWords(v, s, y) && g(a + s) == g(a) + y;
        CapitalWordsUnique(v, s, x, y);
      case Lower =>
        if a != [] && ClassOf(a[|a| - 1]) == Upper {
          MixedDecide(v, f, g, a, s);
        } else {
          SplitLawsDecide(v, f, g, a);
          assert LowerLaw(v, f, a, s) && LowerLaw(v, g, a, s);
        }
    }
  }

  lemma {:induction false} MixedDecide(v: Vocabulary, f: string -> seq<string>, g: string -> seq<string>, front: string, l: string)
    requires GoodVocabulary(v) && SplitLaws(v, f) && SplitLaws(v, g)
    requires front != [] && ClassOf(front[|front| - 1]) == Upper && l != [] && AllOf(l, Lower)
    ensures f(front + l) == g(front + l)
    decreases |front|
  {
    var a, u, class_ := LastBlock(front);
    assert front[|front| - 1] == u[|u| - 1];
    SplitLawsDecide(v, f, g, a);
    assert MixedLaw(v, f, a, u, l) && MixedLaw(v, g, a, u, l);
    var x :| MixedWords(v, u, l, x) && f(a + u + l) == f(a) + x;
    var y :| MixedWords(v, u, l, y) && g(a + u + l) == g(a) + y;
    MixedWordsUnique(v, u, l, x, y);
  }

  /** So an answer is the split exactly if it comes from some splitting that obeys the laws. */
  lemma SplitIsTheOnlyOne(v: Vocabulary, raw: string, words: seq<string>)
    requires GoodVocabulary(v)
    ensures words == Split(v, raw) <==> exists f :: SplitLaws(v, f) && f(raw) == words
  {
    var split := s => Split(v, s);
    SplitObeysLaws(v);
    forall f | SplitLaws(v, f) ensures f(raw) == Split(v, raw) { SplitLawsDecide(v, f, split, raw); }
    assert split(raw) == Split(v, raw);
  }

  // ---------------------------------------------------------------- nothing lost, nothing invented

  lemma GlueConcat(words: seq<string>, text: string)
    requires words != []
    ensures Concat(Glue(words, text)) == Concat(words) + text
  {
    var front, last := words[..|words| - 1], LastWord(words);
    assert words == front + [last];
    ConcatAppend(front, [last]);
    ConcatAppend(front, [last + text]);
  }

  lemma CapitalsConcat(v: Vocabulary, text: string, lower: string)
    requires |text| >= 2
    ensures Concat(CapitalsThenLower(v, text, lower)) == text + lower
  {
    LongestFromFits(v, text, |text|);
    var words := CapitalsThenLower(v, text, lower);
    if |words| == 2 {
      ConcatCons(words[0], [words[1]]);
      assert words == [words[0]] + [words[1]];
    } else {
      assert words == [words[0]];
      ConcatCons(words[0], []);
      assert [words[0]] + [] == words;
    }
  }

  lemma TextsFrom(runs: seq<Run>, i: nat)
    requires i < |runs|
    ensures RunTexts(runs[i..]) == runs[i].text + RunTexts(runs[i + 1..])
  {
    assert runs[i..][1..] == runs[i + 1..];
  }

  /** The text of the runs one step consumes. */
  function StepText(runs: seq<Run>, i: nat): string
    requires i < |runs|
  {
    if Consumed(runs, i) == 2 then runs[i].text + runs[i + 1].text else runs[i].text
  }

  lemma StepAdds(v: Vocabulary, runs: seq<Run>, i: nat, words: seq<string>)
    requires i < |runs| && runs[i].text != []
    ensures Concat(StepWords(v, runs, i, words)) == Concat(words) + StepText(runs, i)
  {
    var text := runs[i].text;
    if runs[i].class_ != Upper {
      ConcatAppend(words, [text]);
      ConcatCons(text, []);
      if words != [] { GlueConcat(words, text); }
    } else if !FollowedByLower(runs, i) {
      DecomposeSpells(v, text);
      ConcatAppend(words, if |text| == 1 then [text] else Decompose(v, text));
    } else if |text| == 1 {
      ConcatAppend(words, [text + runs[i + 1].text]);
    } else {
      CapitalsConcat(v, text, runs[i + 1].text);
      ConcatAppend(words, CapitalsThenLower(v, text, runs[i + 1].text));
    }
  }

  lemma StepConsumes(runs: seq<Run>, i: nat)
    requires i < |runs|
    ensures RunTexts(runs[i..]) == StepText(runs, i) + RunTexts(runs[i + Consumed(runs, i)..])
  {
    TextsFrom(runs, i);
    if Consumed(runs, i) == 2 { TextsFrom(runs, i + 1); }
  }

  lemma Regroup(a: string, b: string, c: string)
    ensures a + b + c == a + (b + c)
  {}

  lemma {:induction false} SplitFromConcat(v: Vocabulary, runs: seq<Run>, i: nat, words: seq<string>)
    requires i <= |runs| && NonEmptyRuns(runs)
    ensures Concat(SplitFrom(v, runs, i, words)) == Concat(words) + RunTexts(runs[i..])
    decreases |runs| - i
  {
    if i < |runs| {
      var j := i + Consumed(runs, i);
      StepAdds(v, runs, i, words);
      StepConsumes(runs, i);
      SplitFromConcat(v, runs, j, StepWords(v, runs, i, words));
      Regroup(Concat(words), StepText(runs, i), RunTexts(runs[j..]));
    } else {
      assert runs[i..] == [];
    }
  }

  /** The words spell the identifier, whatever the vocabulary. */
  lemma SplitSpells(v: Vocabulary, raw: string)
    ensures Concat(Split(v, raw)) == raw
  {
    RunsSpell(raw);
    RunsNonEmpty(raw);
    SplitFromConcat(v, Runs(raw), 0, []);
    assert Runs(raw)[0..] == Runs(raw);
  }

  // ---------------------------------------------------------------- the shape of words

  predicate NoDigit(s: string) {
    forall i :: 0 <= i < |s| ==> ClassOf(s[i]) != Digit
  }

  /** Characters that are not digits, then digits. */
  predicate Shaped(w: string) {
    w != [] && AllOf(w[|Core(w)|..], Digit)
  }

  lemma {:induction false} CoreOfNoDigit(s: string)
    requires NoDigit(s)
    ensures Core(s) == s
  {}

  lemma CoreOfDigits(s: string)
    requires s != [] && AllOf(s, Digit)
    ensures Core(s) == [] && Shaped(s)
  {}

  lemma {:induction false} CoreBeforeDigits(a: string, d: string)
    requires NoDigit(a) && AllOf(d, Digit)
    ensures Core(a + d) == a
  {
    if a == [] {
      assert a + d == d;
    } else {
      assert (a + d)[1..] == a[1..] + d;
      CoreBeforeDigits(a[1..], d);
    }
  }

  lemma ShapedBy(a: string, d: string)
    requires NoDigit(a) && AllOf(d, Digit) && a + d != []
    ensures Core(a + d) == a && Shaped(a + d)
  {
    CoreBeforeDigits(a, d);
    assert (a + d)[|a|..] == d;
  }

  lemma MoreDigits(e: string, d: string)
    requires AllOf(e, Digit) && AllOf(d, Digit)
    ensures AllOf(e + d, Digit)
  {}

  lemma GluedDigits(w: string, d: string)
    requires Shaped(w) && AllOf(d, Digit)
    ensures Shaped(w + d) && Core(w + d) == Core(w)
  {
    var a, e := Core(w), w[|Core(w)|..];
    MoreDigits(e, d);
    ShapedBy(a, e + d);
    assert a + (e + d) == w + d;
  }

  /** Digits glued to such a word can never complete a token. */
  predicate LastSafe(v: Vocabulary, w: string) {
    !LooseCapitals(v, Core(w))
  }

  lemma SafeTokenIsCapitals(v: Vocabulary, w: string)
    requires GoodVocabulary(v) && w in v && LastSafe(v, w)
    ensures AllOf(w, Upper)
  {}

  /** New words a step appends: no digits, and the last of them safe. */
  predicate PlainWords(v: Vocabulary, more: seq<string>) {
    && more != []
    && (forall i :: 0 <= i < |more| ==> more[i] != [] && NoDigit(more[i]))
    && LastSafe(v, LastWord(more))
  }

  lemma NotCapitalsIsSafe(v: Vocabulary, w: string, i: nat)
    requires NoDigit(w) && i < |w| && ClassOf(w[i]) == Lower
    ensures LastSafe(v, w)
  {
    CoreOfNoDigit(w);
  }

  lemma {:induction false} DecomposeIsPlain(v: Vocabulary, text: string)
    requires GoodVocabulary(v) && text != [] && AllOf(text, Upper)
    ensures PlainWords(v, Decompose(v, text))
    decreases |text|
  {
    var t := NextToken(v, text);
    NextTokenIsGreedy(v, text);
    assert AllOf(t, Upper);
    var rest := text[|t|..];
    if rest == [] {
      assert Decompose(v, text) == [t];
      CoreOfNoDigit(t);
    } else {
      DecomposeIsPlain(v, rest);
      var more := Decompose(v, text);
      assert more == [t] + Decompose(v, rest);
      assert LastWord(more) == LastWord(Decompose(v, rest));
    }
  }

  lemma CapitalsArePlain(v: Vocabulary, text: string, lower: string)
    requires |text| >= 2 && AllOf(text, Upper) && lower != [] && AllOf(lower, Lower)
    ensures PlainWords(v, CapitalsThenLower(v, text, lower))
  {
    LongestFromFits(v, text, |text|);
    var more := CapitalsThenLower(v, text, lower);
    var last := LastWord(more);
    assert ClassOf(last[|last| - 1]) == Lower;
    assert NoDigit(last);
    NotCapitalsIsSafe(v, last, |last| - 1);
  }

  ghost predicate WordsShaped(v: Vocabulary, words: seq<string>) {
    && (forall i :: 0 <= i < |words| ==> Shaped(words[i]))
    && (words != [] ==> LastSafe(v, LastWord(words)))
  }

  lemma AppendPlain(v: Vocabulary, words: seq<string>, more: seq<string>)
    requires WordsShaped(v, words) && PlainWords(v, more)
    ensures WordsShaped(v, words + more)
  {
    forall i | 0 <= i < |more| ensures Shaped(more[i]) {
      CoreOfNoDigit(more[i]);
    }
  }

  lemma ReplaceLast(v: Vocabulary, words: seq<string>, last: string)
    requires words != [] && WordsShaped(v, words) && Shaped(last) && LastSafe(v, last)
    ensures WordsShaped(v, words[..|words| - 1] + [last])
  {}

  lemma PluralIsShaped(v: Vocabulary, w: string)
    requires GoodVocabulary(v) && w in v && LastSafe(v, w)
    ensures Shaped(w + "s") && LastSafe(v, w + "s")
  {
    SafeTokenIsCapitals(v, w);
    assert NoDigit(w + "s");
    CoreOfNoDigit(w + "s");
    NotCapitalsIsSafe(v, w + "s", |w|);
  }

  lemma StepShapes(v: Vocabulary, runs: seq<Run>, i: nat, words: seq<string>)
    requires GoodVocabulary(v) && i < |runs| && UniformRuns(runs) && WordsShaped(v, words)
    ensures WordsShaped(v, StepWords(v, runs, i, words))
  {
    assert Uniform(runs[i]);
    var text := runs[i].text;
    match runs[i].class_
    case Digit =>
      CoreOfDigits(text);
      if words != [] {
        GluedDigits(LastWord(words), text);
        ReplaceLast(v, words, LastWord(words) + text);
      }
    case Lower =>
      if text == "s" && words != [] && LastWord(words) in v {
        PluralIsShaped(v, LastWord(words));
        ReplaceLast(v, words, LastWord(words) + "s");
      } else {
        NotCapitalsIsSafe(v, text, 0);
        AppendPlain(v, words, [text]);
      }
    case Upper =>
      UpperShapes(v, runs, i, words);
  }

  lemma UpperShapes(v: Vocabulary, runs: seq<Run>, i: nat, words: seq<string>)
    requires GoodVocabulary(v) && i < |runs| && UniformRuns(runs) && WordsShaped(v, words) && runs[i].class_ == Upper
    ensures WordsShaped(v, StepWords(v, runs, i, words))
  {
    assert Uniform(runs[i]);
    var text := runs[i].text;
    if !FollowedByLower(runs, i) {
      if |text| == 1 {
        CoreOfNoDigit(text);
        AppendPlain(v, words, [text]);
      } else {
        DecomposeIsPlain(v, text);
        AppendPlain(v, words, Decompose(v, text));
      }
    } else {
      assert Uniform(runs[i + 1]);
      var lower := runs[i + 1].text;
      if |text| == 1 {
        NotCapitalsIsSafe(v, text + lower, 1);
        AppendPlain(v, words, [text + lower]);
      } else {
        CapitalsArePlain(v, text, lower);
        AppendPlain(v, words, CapitalsThenLower(v, text, lower));
      }
    }
  }

  /** What every step keeps, the split keeps. */
  lemma {:induction false} SplitFromKeeps(keeps: seq<string> -> bool, v: Vocabulary, runs: seq<Run>, i: nat, words: seq<string>)
    requires i <= |runs| && NonEmptyRuns(runs) && keeps(words)
    requires forall k: nat, ws :: k < |runs| && keeps(ws) ==> keeps(StepWords(v, runs, k, ws))
    ensures keeps(SplitFrom(v, runs, i, words))
    decreases |runs| - i
  {
    if i < |runs| {
      SplitFromKeeps(keeps, v, runs, i + Consumed(runs, i), StepWords(v, runs, i, words));
    }
  }

  /** Every word is characters that are not digits, then digits. */
  lemma SplitShapes(v: Vocabulary, raw: string)
    requires GoodVocabulary(v)
    ensures forall i :: 0 <= i < |Split(v, raw)| ==> Shaped(Split(v, raw)[i])
  {
    var runs, shaped := Runs(raw), ws => WordsShaped(v, ws);
    RunsSpell(raw);
    RunsNonEmpty(raw);
    forall k: nat, ws | k < |runs| && shaped(ws) ensures shaped(StepWords(v, runs, k, ws)) {
      StepShapes(v, runs, k, ws);
    }
    SplitFromKeeps(shaped, v, runs, 0, []);
  }
}
