/**
 The string operations of Go's standard library that the naming, documentation and planning
 code relies on, over sequences of Unicode scalar values, with the laws those callers need.
 */
module Text {

  /** White space as the Unicode White_Space property defines it. */
  predicate IsSpace(c: char) {
    var n := c as int;
    || 9 <= n <= 13 || n == 0x20 || n == 0x85 || n == 0xA0 || n == 0x1680
    || 0x2000 <= n <= 0x200A || n == 0x2028 || n == 0x2029 || n == 0x202F
    || n == 0x205F || n == 0x3000
  }

  predicate NoSpace(s: string) {
    forall i :: 0 <= i < |s| ==> !IsSpace(s[i])
  }

  /** A non-empty run of characters that are not white space. */
  predicate IsWord(s: string) {
    s != [] && NoSpace(s)
  }

  predicate AreWords(ws: seq<string>) {
    forall i :: 0 <= i < |ws| ==> IsWord(ws[i])
  }

  function TrimLeft(s: string): string {
    if s != [] && IsSpace(s[0]) then TrimLeft(s[1..]) else s
  }

  function TrimRight(s: string): string {
    if s != [] && IsSpace(s[|s| - 1]) then TrimRight(s[..|s| - 1]) else s
  }

  function Trim(s: string): string {
    TrimRight(TrimLeft(s))
  }

  /** Nothing to trim at either end. */
  predicate Trimmed(s: string) {
    s != [] ==> !IsSpace(s[0]) && !IsSpace(s[|s| - 1])
  }

  predicate HasPrefix(s: string, prefix: string) {
    prefix <= s
  }

  ghost predicate Contains(s: string, part: string) {
    exists i :: 0 <= i <= |s| && HasPrefix(s[i..], part)
  }

  predicate ContainsFrom(s: string, part: string) {
    HasPrefix(s, part) || (s != [] && ContainsFrom(s[1..], part))
  }

  lemma {:induction false} ContainsFromIff(s: string, part: string)
    ensures ContainsFrom(s, part) <==> Contains(s, part)
  {
    if HasPrefix(s, part) {
      assert s[0..] == s;
    } else if s == [] {
      forall i | 0 <= i <= |s| ensures !HasPrefix(s[i..], part) { assert s[i..] == s; }
    } else {
      ContainsFromIff(s[1..], part);
      assert s[0..] == s;
      forall i | 0 <= i < |s| ensures s[1..][i..] == s[i + 1..] {}
      forall i | 0 <= i <= |s| && HasPrefix(s[i..], part) ensures Contains(s[1..], part) {
        assert i != 0;
        assert s[1..][i - 1..] == s[i..];
      }
    }
  }

  /** The longest prefix holding no white space. */
  function TakeWord(s: string): (w: string)
    ensures w <= s && NoSpace(w)
    ensures s != [] && !IsSpace(s[0]) ==> w != []
    ensures |w| < |s| ==> IsSpace(s[|w|])
  {
    if s == [] || IsSpace(s[0]) then [] else [s[0]] + TakeWord(s[1..])
  }

  lemma {:induction false} TrimLeftShrinks(s: string)
    ensures |TrimLeft(s)| <= |s|
    ensures TrimLeft(s) != [] ==> !IsSpace(TrimLeft(s)[0])
  {
    if s != [] && IsSpace(s[0]) { TrimLeftShrinks(s[1..]); }
  }

  /** The words of `s`: maximal runs without white space. */
  function Fields(s: string): (ws: seq<string>)
    decreases |s|
  {
    TrimLeftShrinks(s);
    var t := TrimLeft(s);
    if t == [] then [] else [TakeWord(t)] + Fields(t[|TakeWord(t)|..])
  }

  function Join(ws: seq<string>): string {
    if ws == [] then [] else if |ws| == 1 then ws[0] else ws[0] + " " + Join(ws[1..])
  }

  /** Every run of white space becomes one space and the ends are trimmed. */
  function Collapse(s: string): string {
    Join(Fields(s))
  }

  /** Text that collapsing leaves alone. */
  predicate Normal(s: string) {
    Collapse(s) == s
  }

  lemma {:induction false} FieldsAreWords(s: string)
    ensures AreWords(Fields(s))
    decreases |s|
  {
    TrimLeftShrinks(s);
    var t := TrimLeft(s);
    if t != [] {
      FieldsAreWords(t[|TakeWord(t)|..]);
    }
  }

  lemma {:induction false} TakeWordStops(w: string, rest: string)
    requires NoSpace(w) && (rest == [] || IsSpace(rest[0]))
    ensures TakeWord(w + rest) == w
  {
    if w == [] {
      assert w + rest == rest;
    } else {
      assert (w + rest)[1..] == w[1..] + rest;
      TakeWordStops(w[1..], rest);
    }
  }

  /** Joining words with single spaces loses no boundary. */
  lemma {:induction false} FieldsOfJoin(ws: seq<string>)
    requires AreWords(ws)
    ensures Fields(Join(ws)) == ws
  {
    if |ws| == 1 {
      TakeWordStops(ws[0], []);
      assert ws[0] + [] == ws[0];
      assert ws[0][|ws[0]|..] == [];
      assert ws == [ws[0]];
    } else if |ws| > 1 {
      var rest := " " + Join(ws[1..]);
      var s := Join(ws);
      assert s == ws[0] + rest;
      TakeWordStops(ws[0], rest);
      assert s[|ws[0]|..] == rest;
      FieldsOfLeadingSpace(Join(ws[1..]));
      FieldsOfJoin(ws[1..]);
      assert ws == [ws[0]] + ws[1..];
    }
  }

  lemma FieldsOfLeadingSpace(s: string)
    ensures Fields(" " + s) == Fields(s)
  {
    assert (" " + s)[1..] == s;
    assert TrimLeft(" " + s) == TrimLeft(s);
  }

  lemma LeadingSpace(c: char, s: string)
    requires IsSpace(c)
    ensures Fields([c] + s) == Fields(s)
  {
    assert ([c] + s)[1..] == s;
    assert TrimLeft([c] + s) == TrimLeft(s);
  }

  /** The words on both sides of white space are the words; with words and the empty text this decides `Fields`. */
  lemma {:induction false} FieldsAtSpace(a: string, c: char, b: string)
    requires IsSpace(c)
    ensures Fields(a + [c] + b) == Fields(a) + Fields(b)
    decreases |a|
  {
    if a == [] {
      assert a + [c] + b == [c] + b;
      LeadingSpace(c, b);
    } else if IsSpace(a[0]) {
      var t := a[1..];
      assert a == [a[0]] + t && a + [c] + b == [a[0]] + (t + [c] + b);
      LeadingSpace(a[0], t);
      LeadingSpace(a[0], t + [c] + b);
      FieldsAtSpace(t, c, b);
    } else {
      var w := TakeWord(a);
      var rest := a[|w|..] + [c] + b;
      assert a + [c] + b == w + rest;
      TakeWordStops(w, rest);
      assert (a + [c] + b)[|w|..] == rest;
      FieldsAtSpace(a[|w|..], c, b);
    }
  }

  lemma FieldsOfWord(w: string)
    requires IsWord(w)
    ensures Fields(w) == [w]
  {
    FieldsOfJoin([w]);
  }

  lemma {:induction false} FieldsOfTrimRight(s: string)
    ensures Fields(TrimRight(s)) == Fields(s)
  {
    if s != [] && IsSpace(s[|s| - 1]) {
      var p, c := s[..|s| - 1], s[|s| - 1];
      FieldsOfTrimRight(p);
      FieldsAtSpace(p, c, []);
      assert s == p + [c] + [];
    }
  }

  lemma FieldsOfTrim(s: string)
    ensures Fields(Trim(s)) == Fields(s)
  {
    FieldsOfTrimRight(TrimLeft(s));
    FieldsOfTrimLeft(s);
  }

  lemma {:induction false} FieldsOfTrimLeft(s: string)
    ensures Fields(TrimLeft(s)) == Fields(s)
  {
    if s != [] && IsSpace(s[0]) {
      FieldsOfTrimLeft(s[1..]);
      LeadingSpace(s[0], s[1..]);
      assert s == [s[0]] + s[1..];
    }
  }

  lemma CollapseIsNormal(s: string)
    ensures Normal(Collapse(s))
  {
    FieldsAreWords(s);
    FieldsOfJoin(Fields(s));
  }

  /** Joining is injective on lists of words. */
  lemma JoinInjective(a: seq<string>, b: seq<string>)
    requires AreWords(a) && AreWords(b) && Join(a) == Join(b)
    ensures a == b
  {
    FieldsOfJoin(a);
    FieldsOfJoin(b);
  }

  /** A joined list of words starts with its first word and ends with its last. */
  lemma {:induction false} JoinEnds(ws: seq<string>)
    requires AreWords(ws) && ws != []
    ensures Join(ws) != [] && Join(ws)[0] == ws[0][0]
    ensures !IsSpace(Join(ws)[|Join(ws)| - 1])
  {
    if |ws| > 1 { JoinEnds(ws[1..]); }
  }

  lemma NormalIsTrimmed(s: string)
    requires Normal(s)
    ensures Trimmed(s)
    ensures s != [] <==> Fields(s) != []
  {
    FieldsAreWords(s);
    if Fields(s) != [] { JoinEnds(Fields(s)); }
  }

  lemma {:induction false} TrimLeftOfSpaces(pad: string, s: string)
    requires forall i :: 0 <= i < |pad| ==> IsSpace(pad[i])
    requires s == [] || !IsSpace(s[0])
    ensures TrimLeft(pad + s) == s
  {
    if pad == [] {
      assert pad + s == s;
    } else {
      assert (pad + s)[1..] == pad[1..] + s;
      TrimLeftOfSpaces(pad[1..], s);
    }
  }

  lemma TrimOfPadded(pad: string, s: string)
    requires forall i :: 0 <= i < |pad| ==> IsSpace(pad[i])
    requires Trimmed(s)
    ensures Trim(pad + s) == s
  {
    TrimLeftOfSpaces(pad, s);
  }

  lemma {:induction false} TrimRightOfSpaces(s: string, pad: string)
    requires (forall i :: 0 <= i < |pad| ==> IsSpace(pad[i])) && (s == [] || !IsSpace(s[|s| - 1]))
    ensures TrimRight(s + pad) == s
    decreases |pad|
  {
    if pad == [] {
      assert s + pad == s;
    } else {
      assert (s + pad)[..|s + pad| - 1] == s + pad[..|pad| - 1];
      TrimRightOfSpaces(s, pad[..|pad| - 1]);
    }
  }

  /** Trimming takes the white space from both ends and nothing else. */
  lemma TrimTakesBothEnds(before: string, s: string, after: string)
    requires (forall i :: 0 <= i < |before| ==> IsSpace(before[i])) && (forall i :: 0 <= i < |after| ==> IsSpace(after[i]))
    requires Trimmed(s)
    ensures Trim(before + s + after) == s
  {
    if s == [] {
      var all := before + after;
      assert before + s + after == all + [];
      TrimLeftOfSpaces(all, []);
    } else {
      assert before + s + after == before + (s + after);
      TrimLeftOfSpaces(before, s + after);
      TrimRightOfSpaces(s, after);
    }
  }

  lemma TrimOfTrimmed(s: string)
    requires Trimmed(s)
    ensures Trim(s) == s
  {}

  /** The characters of a joined list are those of its words, and single spaces. */
  lemma {:induction false} JoinChars(ws: seq<string>, i: nat)
    requires AreWords(ws) && i < |Join(ws)|
    ensures Join(ws)[i] == ' ' || !IsSpace(Join(ws)[i])
  {
    if |ws| > 1 {
      var n := |ws[0]|;
      if n < i {
        JoinChars(ws[1..], i - n - 1);
      }
    }
  }

  /** Normal text holds no white space but the space itself. */
  lemma NormalChars(s: string)
    requires Normal(s)
    ensures forall i :: 0 <= i < |s| ==> s[i] == ' ' || !IsSpace(s[i])
  {
    FieldsAreWords(s);
    forall i | 0 <= i < |s| ensures s[i] == ' ' || !IsSpace(s[i]) {
      JoinChars(Fields(s), i);
    }
  }

  /** White space only as single spaces with something on both sides. */
  predicate Tidy(s: string) {
    forall i :: 0 <= i < |s| && IsSpace(s[i]) ==> s[i] == ' ' && 0 < i < |s| - 1 && !IsSpace(s[i + 1])
  }

  lemma {:induction false} JoinIsTidy(ws: seq<string>)
    requires AreWords(ws)
    ensures Tidy(Join(ws))
  {
    if |ws| > 1 {
      var s, n, tail := Join(ws), |ws[0]|, Join(ws[1..]);
      JoinIsTidy(ws[1..]);
      JoinEnds(ws[1..]);
      assert IsWord(ws[0]);
      forall i | 0 <= i < n ensures !IsSpace(s[i]) { assert s[i] == ws[0][i]; }
      forall i | 0 <= i < |s| && IsSpace(s[i]) ensures s[i] == ' ' && 0 < i < |s| - 1 && !IsSpace(s[i + 1]) {
        if i == n {
          assert s[n + 1] == tail[0];
        } else if n < i {
          assert s[i] == tail[i - n - 1];
          assert s[i + 1] == tail[i - n];
        }
      }
    } else if |ws| == 1 {
      assert IsWord(ws[0]);
    }
  }

  lemma TakeWordOfTidy(s: string)
    requires Tidy(s) && s != []
    ensures var w := TakeWord(s);
            && IsWord(w) && w <= s
            && (|w| < |s| ==> s[|w|] == ' ' && |w| + 1 < |s| && !IsSpace(s[|w| + 1]) && Tidy(s[|w| + 1..]))
  {
    var w := TakeWord(s);
    assert !IsSpace(s[0]);
    if |w| < |s| {
      var t := s[|w| + 1..];
      forall i | 0 <= i < |t| && IsSpace(t[i]) ensures t[i] == ' ' && 0 < i < |t| - 1 && !IsSpace(t[i + 1]) {
        assert t[i] == s[|w| + 1 + i];
        assert IsSpace(s[|w| + 1 + i]);
        assert i < |t| - 1 ==> t[i + 1] == s[|w| + 2 + i];
      }
    }
  }

  lemma FieldsOfWordThenText(w: string, t: string)
    requires IsWord(w)
    ensures Fields(w + (" " + t)) == [w] + Fields(t)
  {
    var s := w + (" " + t);
    TakeWordStops(w, " " + t);
    assert s[0] == w[0] && TrimLeft(s) == s;
    assert s[|w|..] == " " + t;
    FieldsOfLeadingSpace(t);
  }

  lemma JoinCons(w: string, ws: seq<string>)
    requires ws != []
    ensures Join([w] + ws) == w + (" " + Join(ws))
  {
    assert ([w] + ws)[1..] == ws;
  }

  lemma {:induction false} TidyIsNormal(s: string)
    requires Tidy(s)
    ensures Normal(s)
    decreases |s|
  {
    if s != [] {
      TakeWordOfTidy(s);
      var w := TakeWord(s);
      if |w| == |s| {
        assert w == s;
        FieldsOfJoin([w]);
      } else {
        var t := s[|w| + 1..];
        assert s == w + (" " + t);
        TidyIsNormal(t);
        NormalIsTrimmed(t);
        FieldsOfWordThenText(w, t);
        JoinCons(w, Fields(t));
      }
    }
  }

  /** Normal text is exactly tidy text. */
  lemma NormalIffTidy(s: string)
    ensures Normal(s) <==> Tidy(s)
  {
    FieldsAreWords(s);
    JoinIsTidy(Fields(s));
    if Tidy(s) { TidyIsNormal(s); }
  }

  lemma TidyTail(s: string, k: nat)
    requires Tidy(s) && k < |s| && !IsSpace(s[k])
    ensures Tidy(s[k..]) && Trimmed(s[k..])
  {
    var t := s[k..];
    forall i | 0 <= i < |t| && IsSpace(t[i]) ensures t[i] == ' ' && 0 < i < |t| - 1 && !IsSpace(t[i + 1]) {
      assert t[i] == s[k + i];
      assert i < |t| - 1 ==> t[i + 1] == s[k + i + 1];
    }
  }

  lemma TidySuffix(s: string, n: nat)
    requires Tidy(s) && n <= |s|
    ensures Tidy(Trim(s[n..]))
  {
    var t := s[n..];
    if t != [] {
      if IsSpace(s[n]) {
        TidyTail(s, n + 1);
        assert s[n + 1..] == t[1..];
        TrimOfTrimmed(t[1..]);
        assert TrimLeft(t) == TrimLeft(t[1..]);
      } else {
        TidyTail(s, n);
        TrimOfTrimmed(t);
      }
    }
  }

  /** What follows a prefix of normal text is normal again once trimmed. */
  lemma NormalSuffix(prefix: string, s: string)
    requires Normal(prefix + s)
    ensures Normal(Trim(s))
  {
    NormalIffTidy(prefix + s);
    TidySuffix(prefix + s, |prefix|);
    assert (prefix + s)[|prefix|..] == s;
    NormalIffTidy(Trim(s));
  }

  // ---------------------------------------------------------------- letters

  /** The lowercase form of an ASCII capital; every other character stays. */
  function LowerChar(c: char): (r: char)
    ensures 'A' <= c <= 'Z' ==> 'a' <= r <= 'z' && r as int - 'a' as int == c as int - 'A' as int
    ensures !('A' <= c <= 'Z') ==> r == c
  {
    if 'A' <= c <= 'Z' then (c as int + 32) as char else c
  }

  function ToLower(s: string): (r: string)
    ensures |r| == |s|
  {
    seq(|s|, i requires 0 <= i < |s| => LowerChar(s[i]))
  }

  // ---------------------------------------------------------------- sizes

  /** How many bytes UTF-8 spends on one character (section 3 of RFC 3629). */
  function CharBytes(c: char): (n: nat)
    ensures 1 <= n <= 4
  {
    var n := c as int;
    if n < 0x80 then 1 else if n < 0x800 then 2 else if n < 0x1_0000 then 3 else 4
  }

  function ByteLength(s: string): (n: nat)
    ensures n >= |s|
  {
    if s == [] then 0 else CharBytes(s[0]) + ByteLength(s[1..])
  }

  // ---------------------------------------------------------------- lines and separators

  /** What precedes the first `c`. */
  function UpTo(c: char, s: string): (l: string)
    ensures l <= s && c !in l
    ensures |l| < |s| ==> s[|l|] == c
  {
    if s == [] || s[0] == c then [] else [s[0]] + UpTo(c, s[1..])
  }

  lemma {:induction false} UpToStops(c: char, l: string, rest: string)
    requires c !in l && (rest == [] || rest[0] == c)
    ensures UpTo(c, l + rest) == l
  {
    if l == [] {
      assert l + rest == rest;
    } else {
      assert (l + rest)[1..] == l[1..] + rest;
      UpToStops(c, l[1..], rest);
    }
  }

  /** Each piece followed by `c`. */
  function Terminate(c: char, xs: seq<string>): string {
    if xs == [] then [] else xs[0] + [c] + Terminate(c, xs[1..])
  }

  lemma {:induction false} TerminateAppend(c: char, a: seq<string>, b: seq<string>)
    ensures Terminate(c, a + b) == Terminate(c, a) + Terminate(c, b)
  {
    if a == [] {
      assert a + b == b;
    } else {
      assert (a + b)[1..] == a[1..] + b;
      TerminateAppend(c, a[1..], b);
    }
  }

  /** Pieces free of `c` can be told apart again. */
  lemma {:induction false} TerminateInjective(c: char, a: seq<string>, b: seq<string>)
    requires (forall i :: 0 <= i < |a| ==> c !in a[i]) && (forall i :: 0 <= i < |b| ==> c !in b[i])
    requires Terminate(c, a) == Terminate(c, b)
    ensures a == b
  {
    if a != [] && b != [] {
      var s, ra, rb := Terminate(c, a), [c] + Terminate(c, a[1..]), [c] + Terminate(c, b[1..]);
      assert s == a[0] + ra && s == b[0] + rb;
      UpToStops(c, a[0], ra);
      UpToStops(c, b[0], rb);
      assert s[|a[0]| + 1..] == Terminate(c, a[1..]) && s[|b[0]| + 1..] == Terminate(c, b[1..]);
      TerminateInjective(c, a[1..], b[1..]);
      assert a == [a[0]] + a[1..] && b == [b[0]] + b[1..];
    }
  }

  /** The pieces of `s` between newlines, as splitting on a newline gives them. */
  function Lines(s: string): (ls: seq<string>)
    ensures ls != []
    decreases |s|
  {
    var l := UpTo('\n', s);
    if |l| == |s| then [l] else [l] + Lines(s[|l| + 1..])
  }

  /** Each line followed by a newline. */
  function Unlines(ls: seq<string>): string {
    Terminate('\n', ls)
  }

  predicate OneLine(s: string) {
    '\n' !in s
  }

  /** Splitting undoes writing lines out; a final newline leaves one empty piece. */
  lemma {:induction false} LinesOfUnlines(ls: seq<string>)
    requires forall i :: 0 <= i < |ls| ==> OneLine(ls[i])
    ensures Lines(Unlines(ls)) == ls + [""]
  {
    if ls == [] {
      assert ls + [""] == [""];
    } else {
      var rest := "\n" + Unlines(ls[1..]);
      assert Unlines(ls) == ls[0] + rest;
      UpToStops('\n', ls[0], rest);
      assert Unlines(ls)[|ls[0]| + 1..] == Unlines(ls[1..]);
      LinesOfUnlines(ls[1..]);
      assert ls == [ls[0]] + ls[1..];
    }
  }

  /** Every segment between slashes is a real name: not empty, "." or "..". */
  predicate CleanSegments(path: string)
    decreases |path|
  {
    var s := UpTo('/', path);
    && s != "" && s != "." && s != ".."
    && (|s| < |path| ==> CleanSegments(path[|s| + 1..]))
  }
}
