/**
 UTF-8 well-formedness as section 4 of RFC 3629 defines it, and the three places that cut
 text to a byte budget without splitting a character.
 */
module Utf8 {
  import Text

  newtype byte = x: int | 0 <= x < 256

  type Bytes = seq<byte>

  /** The bytes of U+FFFD, the replacement character. */
  const REPLACEMENT: Bytes := [0xEF, 0xBF, 0xBD]

  /** The bytes of "[TRUNCATED]". */
  const TRUNCATION_MARK: Bytes :=
    [0x5B, 0x54, 0x52, 0x55, 0x4E, 0x43, 0x41, 0x54, 0x45, 0x44, 0x5D]

  predicate Continuation(b: byte) {
    0x80 <= b <= 0xBF
  }

  predicate RuneStart(b: byte) {
    !Continuation(b)
  }

  /** The second byte an encoded character may carry after the given lead byte. */
  predicate SecondByte(lead: byte, second: byte) {
    && Continuation(second)
    && (lead == 0xE0 ==> 0xA0 <= second)
    && (lead == 0xED ==> second <= 0x9F)
    && (lead == 0xF0 ==> 0x90 <= second)
    && (lead == 0xF4 ==> second <= 0x8F)
  }

  /** How many bytes a lead byte announces; 0 when no character starts with it. */
  function Announced(lead: byte): (n: nat)
    ensures n <= 4
  {
    if lead <= 0x7F then 1
    else if 0xC2 <= lead <= 0xDF then 2
    else if 0xE0 <= lead <= 0xEF then 3
    else if 0xF0 <= lead <= 0xF4 then 4
    else 0
  }

  /** The length of the well-formed character at the head of `s`, or 0 when there is none. */
  function HeadLength(s: Bytes): (n: nat)
    ensures n <= |s| && n <= 4
    ensures n > 0 ==> RuneStart(s[0])
    ensures forall k :: 0 < k < n ==> Continuation(s[k])
  {
    if s == [] then 0 else
    var n := Announced(s[0]);
    if |s| < n || (n >= 2 && !SecondByte(s[0], s[1]))
       || (n >= 3 && !Continuation(s[2])) || (n == 4 && !Continuation(s[3])) then 0
    else n
  }

  predicate Valid(s: Bytes) {
    s == [] || (HeadLength(s) > 0 && Valid(s[HeadLength(s)..]))
  }

  // ---------------------------------------------------------------- encoding

  /** The bytes of one character (section 3 of RFC 3629). */
  function EncodeChar(c: char): (b: Bytes)
    ensures |b| == Text.CharBytes(c)
  {
    var n := c as int;
    if n < 0x80 then [n as byte]
    else if n < 0x800 then [(0xC0 + n / 0x40) as byte, Trailing(n)]
    else if n < 0x1_0000 then [(0xE0 + n / 0x1000) as byte, Trailing(n / 0x40), Trailing(n)]
    else [(0xF0 + n / 0x4_0000) as byte, Trailing(n / 0x1000), Trailing(n / 0x40), Trailing(n)]
  }

  /** A continuation byte with the low six bits of `n`. */
  function Trailing(n: nat): (b: byte)
    ensures Continuation(b) && b as int == 0x80 + n % 0x40
  {
    (0x80 + n % 0x40) as byte
  }

  function EncodeText(s: string): (b: Bytes)
    ensures |b| == Text.ByteLength(s)
  {
    if s == [] then [] else EncodeChar(s[0]) + EncodeText(s[1..])
  }

  /** The character number that a well-formed head stands for. */
  function HeadScalar(b: Bytes): int
    requires HeadLength(b) > 0
  {
    match HeadLength(b)
    case 1 => b[0] as int
    case 2 => (b[0] as int - 0xC0) * 0x40 + (b[1] as int - 0x80)
    case 3 => (b[0] as int - 0xE0) * 0x1000 + (b[1] as int - 0x80) * 0x40 + (b[2] as int - 0x80)
    case _ => (b[0] as int - 0xF0) * 0x4_0000 + (b[1] as int - 0x80) * 0x1000
              + (b[2] as int - 0x80) * 0x40 + (b[3] as int - 0x80)
  }

  /** A character's bytes are a well-formed head that stands for it, whatever follows. */
  lemma HeadOfChar(c: char, rest: Bytes)
    ensures HeadLength(EncodeChar(c) + rest) == |EncodeChar(c)|
    ensures HeadScalar(EncodeChar(c) + rest) == c as int
  {
    var n := c as int;
    assert n / 0x1000 == n / 0x40 / 0x40 && n / 0x4_0000 == n / 0x1000 / 0x40;
    assert n == n / 0x40 * 0x40 + n % 0x40;
    assert n / 0x40 == n / 0x1000 * 0x40 + n / 0x40 % 0x40;
    assert n / 0x1000 == n / 0x4_0000 * 0x40 + n / 0x1000 % 0x40;
    var b := EncodeChar(c) + rest;
    assert forall i :: 0 <= i < |EncodeChar(c)| ==> b[i] == EncodeChar(c)[i];
  }

  /** Encoded text is well-formed. */
  lemma {:induction false} EncodeTextIsValid(s: string)
    ensures Valid(EncodeText(s))
  {
    if s != [] {
      HeadOfChar(s[0], EncodeText(s[1..]));
      assert EncodeText(s)[|EncodeChar(s[0])|..] == EncodeText(s[1..]);
      EncodeTextIsValid(s[1..]);
    }
  }

  /** No two texts have the same bytes. */
  lemma {:induction false} EncodeTextIsInjective(s: string, t: string)
    ensures EncodeText(s) == EncodeText(t) <==> s == t
  {
    if s != [] && t != [] && EncodeText(s) == EncodeText(t) {
      var b := EncodeText(s);
      HeadOfChar(s[0], EncodeText(s[1..]));
      HeadOfChar(t[0], EncodeText(t[1..]));
      assert s[0] == t[0];
      assert b[|EncodeChar(s[0])|..] == EncodeText(s[1..]) && b[|EncodeChar(t[0])|..] == EncodeText(t[1..]);
      EncodeTextIsInjective(s[1..], t[1..]);
      assert s == [s[0]] + s[1..] && t == [t[0]] + t[1..];
    }
  }

  // ---------------------------------------------------------------- cutting

  /** `k` is where a character begins in `s`, or its end. */
  predicate Boundary(s: Bytes, k: nat)
    requires k <= |s|
  {
    k == |s| || RuneStart(s[k])
  }

  /** `k` is the longest prefix length within `max` that is well-formed. */
  ghost predicate LongestCut(s: Bytes, max: int, k: nat) {
    && k <= |s| && k <= max
    && Valid(s[..k])
    && forall j :: k < j <= max && j <= |s| ==> !Valid(s[..j])
  }

  lemma HeadOfPrefix(s: Bytes, k: nat)
    requires k <= |s|
    ensures HeadLength(s) <= k ==> HeadLength(s[..k]) == HeadLength(s)
    ensures k < HeadLength(s) ==> HeadLength(s[..k]) == 0
  {}

  /** In well-formed text a prefix is well-formed exactly when it ends between characters. */
  lemma {:induction false} ValidPrefixIffBoundary(s: Bytes, k: nat)
    requires Valid(s) && k <= |s|
    ensures Valid(s[..k]) <==> Boundary(s, k)
    decreases |s|
  {
    var n := HeadLength(s);
    HeadOfPrefix(s, k);
    if k == 0 {
      assert s[..k] == [];
    } else if n <= k {
      ValidPrefixIffBoundary(s[n..], k - n);
      assert s[..k][n..] == s[n..][..k - n];
    }
  }

  /** A longest cut is unique, so two scans that both reach one agree. */
  lemma LongestCutUnique(s: Bytes, max: int, j: nat, k: nat)
    requires LongestCut(s, max, j) && LongestCut(s, max, k)
    ensures j == k
  {}

  /** Some position among the last four starts a character. */
  lemma {:induction false} BoundaryNearby(s: Bytes, max: nat) returns (k: nat)
    requires Valid(s) && max <= |s|
    ensures max - 3 <= k <= max && Boundary(s, k)
    decreases |s|
  {
    var n := HeadLength(s);
    if max == |s| || max == 0 {
      k := max;
    } else if max < n {
      k := 0;
    } else {
      var r := BoundaryNearby(s[n..], max - n);
      k := r + n;
    }
  }

  /** On well-formed text the longest cut gives up at most three bytes of the budget. */
  lemma LongestCutIsTight(s: Bytes, max: nat, k: nat)
    requires Valid(s) && max <= |s| && LongestCut(s, max, k)
    ensures max - 3 <= k
  {
    var b := BoundaryNearby(s, max);
    ValidPrefixIffBoundary(s, b);
  }

  /** Every run of ill-formed bytes becomes one replacement character. */
  function Sanitize(s: Bytes, inRun: bool := false): (r: Bytes)
    decreases |s|
  {
    if s == [] then []
    else
      var n := HeadLength(s);
      if n > 0 then s[..n] + Sanitize(s[n..], false)
      else (if inRun then [] else REPLACEMENT) + Sanitize(s[1..], true)
  }

  lemma ValidPrepend(head: Bytes, s: Bytes)
    requires Valid(s) && head != [] && HeadLength(head) == |head|
    ensures Valid(head + s)
  {
    assert (head + s)[|head|..] == s;
    assert (head + s)[..|head|] == head;
    HeadOfPrefix(head + s, |head|);
    assert HeadLength(head + s) == |head|;
  }

  lemma {:induction false} SanitizeIsValid(s: Bytes, inRun: bool)
    ensures Valid(Sanitize(s, inRun))
    decreases |s|
  {
    if s != [] {
      var n := HeadLength(s);
      if n > 0 {
        SanitizeIsValid(s[n..], false);
        HeadOfPrefix(s, n);
        ValidPrepend(s[..n], Sanitize(s[n..], false));
      } else {
        SanitizeIsValid(s[1..], true);
        if inRun {
          assert Sanitize(s, inRun) == Sanitize(s[1..], true);
        } else {
          ValidPrepend(REPLACEMENT, Sanitize(s[1..], true));
        }
      }
    }
  }

  lemma HeadOfAppend(s: Bytes, rest: Bytes)
    requires HeadLength(s) > 0
    ensures HeadLength(s + rest) == HeadLength(s)
  {
    HeadOfPrefix(s + rest, |s|);
    assert (s + rest)[..|s|] == s;
    assert (s + rest)[0] == s[0];
  }

  /** Well-formed text in front is kept as it is. */
  lemma {:induction false} SanitizeKeepsText(text: Bytes, rest: Bytes)
    requires Valid(text)
    ensures Sanitize(text + rest) == text + Sanitize(rest)
    decreases |text|
  {
    if text == [] {
      assert text + rest == rest;
    } else {
      var n := HeadLength(text);
      HeadOfAppend(text, rest);
      assert (text + rest)[..n] == text[..n] && (text + rest)[n..] == text[n..] + rest;
      SanitizeKeepsText(text[n..], rest);
      assert text == text[..n] + text[n..];
    }
  }

  /** A whole run of bytes where no character starts becomes one replacement; with the law above this decides everything. */
  lemma SanitizeReplacesRun(s: Bytes, k: nat)
    requires 0 < k <= |s| && (forall i :: 0 <= i < k ==> HeadLength(s[i..]) == 0) && (k == |s| || HeadLength(s[k..]) > 0)
    ensures Sanitize(s) == REPLACEMENT + Sanitize(s[k..])
  {
    assert s[0..] == s;
    SanitizeDropsRun(s, 1, k);
  }

  lemma {:induction false} SanitizeDropsRun(s: Bytes, j: nat, k: nat)
    requires j <= k <= |s| && (forall i :: j <= i < k ==> HeadLength(s[i..]) == 0) && (k == |s| || HeadLength(s[k..]) > 0)
    ensures Sanitize(s[j..], true) == Sanitize(s[k..])
    decreases k - j
  {
    if j < k {
      assert s[j..][1..] == s[j + 1..];
      SanitizeDropsRun(s, j + 1, k);
    }
  }

  /** Sanitizing changes nothing exactly when the text was already well-formed. */
  lemma {:induction false} SanitizeIdentity(s: Bytes)
    ensures Sanitize(s) == s <==> Valid(s)
    decreases |s|
  {
    SanitizeIsValid(s, false);
    if Valid(s) && s != [] {
      var n := HeadLength(s);
      SanitizeIdentity(s[n..]);
      assert s == s[..n] + s[n..];
    }
  }

  /** The rune-start scan: cuts sanitized text at a budget that later fields share. */
  method BoundText(value: Bytes, remaining: int, alreadyTruncated: bool)
    returns (text: Bytes, left: int, truncated: bool)
    ensures text <= Sanitize(value)
    ensures LongestCut(Sanitize(value), if remaining > 0 then remaining else 0, |text|)
    ensures truncated <==> alreadyTruncated || text != Sanitize(value)
    ensures left == if remaining <= 0 then remaining
                    else if text == Sanitize(value) then remaining - |text| else 0
  {
    var v := Sanitize(value);
    SanitizeIsValid(value, false);
    if remaining <= 0 {
      return [], remaining, alreadyTruncated || v != [];
    }
    if |v| <= remaining {
      assert v[..|v|] == v;
      return v, remaining - |v|, alreadyTruncated;
    }
    var end := LastRuneStart(v, remaining);
    return v[..end], 0, true;
  }

  /** Scans back from `max` to a byte that starts a character. */
  method LastRuneStart(v: Bytes, max: nat) returns (end: nat)
    requires Valid(v) && max < |v|
    ensures LongestCut(v, max, end)
  {
    end := max;
    while end > 0 && !RuneStart(v[end])
      invariant end <= max
      invariant forall j :: end < j <= max ==> !RuneStart(v[j])
    {
      end := end - 1;
    }
    assert Valid(v[..end]) by {
      if end > 0 { ValidPrefixIffBoundary(v, end); }
    }
    forall j | end < j <= max ensures !Valid(v[..j]) {
      ValidPrefixIffBoundary(v, j);
    }
  }

  datatype BoundedResult = BoundedResult(
    summary: Bytes, stdout: Bytes, stderr: Bytes,
    stdoutTruncated: bool, stderrTruncated: bool)

  /** The three texts are cut to one budget in turn: each to its longest cut in what the ones before left. */
  ghost predicate SharesBudget(raw: BoundedResult, maximumBytes: int, r: BoundedResult) {
    var a, b, c := Sanitize(raw.summary), Sanitize(raw.stdout), Sanitize(raw.stderr);
    var max := if maximumBytes > 0 then maximumBytes else 0;
    && r.summary <= a && r.stdout <= b && r.stderr <= c
    && LongestCut(a, max, |r.summary|)
    && LongestCut(b, if r.summary == a then max - |a| else 0, |r.stdout|)
    && LongestCut(c, if r.summary == a && r.stdout == b then max - |a| - |b| else 0, |r.stderr|)
  }

  /** Three fields share one budget: none may follow a field that lost text. */
  method BoundToolTexts(raw: BoundedResult, maximumBytes: int) returns (r: BoundedResult)
    ensures |r.summary| + |r.stdout| + |r.stderr| <= if maximumBytes > 0 then maximumBytes else 0
    ensures r.summary <= Sanitize(raw.summary)
    ensures r.stdout <= Sanitize(raw.stdout)
    ensures r.stderr <= Sanitize(raw.stderr)
    ensures Valid(r.summary) && Valid(r.stdout) && Valid(r.stderr)
    ensures r.stdout != [] || r.stderr != [] ==> r.summary == Sanitize(raw.summary)
    ensures r.stderr != [] ==> r.stdout == Sanitize(raw.stdout)
    ensures r.stdoutTruncated <==> raw.stdoutTruncated || r.summary != Sanitize(raw.summary)
                                   || r.stdout != Sanitize(raw.stdout)
    ensures r.stderrTruncated <==> raw.stderrTruncated || r.stderr != Sanitize(raw.stderr)
    ensures SharesBudget(raw, maximumBytes, r)
  {
    var summary, left1, t1 := BoundText(raw.summary, maximumBytes, raw.stdoutTruncated);
    var stdout, left2, t2 := BoundText(raw.stdout, left1, t1);
    var stderr, left3, t3 := BoundText(raw.stderr, left2, raw.stderrTruncated);
    assert Sanitize(raw.summary)[..|summary|] == summary;
    assert Sanitize(raw.stdout)[..|stdout|] == stdout;
    assert Sanitize(raw.stderr)[..|stderr|] == stderr;
    r := BoundedResult(summary, stdout, stderr, t2, t3);
  }

  /** The trim-until-valid scan of the documentation lane. */
  method TruncateRuneSafe(s: Bytes, maxBytes: nat) returns (r: Bytes)
    ensures |s| <= maxBytes ==> r == s
    ensures |s| > maxBytes ==> r <= s && LongestCut(s, maxBytes, |r|)
  {
    if |s| <= maxBytes {
      return s;
    }
    var truncated := s[..maxBytes];
    while |truncated| > 0 && !Valid(truncated)
      invariant |truncated| <= maxBytes && truncated == s[..|truncated|]
      invariant forall j :: |truncated| < j <= maxBytes ==> !Valid(s[..j])
    {
      truncated := truncated[..|truncated| - 1];
    }
    return truncated;
  }

  /** The trim-until-valid scan that leaves room for a truncation mark. */
  method BoundUtf8(value: Bytes, maximum: nat) returns (r: Bytes, truncated: bool)
    requires |value| <= maximum || |TRUNCATION_MARK| <= maximum
    ensures |r| <= maximum
    ensures truncated <==> |value| > maximum
    ensures !truncated ==> r == value
    ensures truncated ==> |r| >= |TRUNCATION_MARK|
    ensures truncated ==>
              var k: nat := |r| - |TRUNCATION_MARK|;
              LongestCut(value, maximum - |TRUNCATION_MARK|, k) && r == value[..k] + TRUNCATION_MARK
  {
    if |value| <= maximum {
      return value, false;
    }
    var end := maximum - |TRUNCATION_MARK|;
    while end > 0 && !Valid(value[..end])
      invariant 0 <= end <= maximum - |TRUNCATION_MARK|
      invariant forall j :: end < j <= maximum - |TRUNCATION_MARK| ==> !Valid(value[..j])
    {
      end := end - 1;
    }
    assert end == 0 ==> value[..end] == [];
    return value[..end] + TRUNCATION_MARK, true;
  }

  /**
   Both kinds of scan keep the same bytes of well-formed text, give up at most three bytes
   of the budget, and what they keep is whole characters.
   */
  method ScansAgree(s: Bytes, max: nat) returns (byRuneStart: Bytes, byTrimming: Bytes)
    requires Valid(s) && 0 < max < |s|
    ensures byRuneStart == byTrimming
    ensures max - 3 <= |byRuneStart| <= max && Valid(byRuneStart)
  {
    SanitizeIdentity(s);
    var left, truncated;
    byRuneStart, left, truncated := BoundText(s, max, false);
    byTrimming := TruncateRuneSafe(s, max);
    LongestCutUnique(s, max, |byRuneStart|, |byTrimming|);
    LongestCutIsTight(s, max, |byRuneStart|);
    assert s[..|byRuneStart|] == byRuneStart && s[..|byTrimming|] == byTrimming;
  }
}
