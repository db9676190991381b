/**
 The byte stream hashed to identify an embedding input: big-endian 32-bit counts and lengths,
 then the raw bytes they announce. A decoder shows the stream can be read back in one way.
 */
module EmbeddingStream {
  import opened Common
  import opened Utf8
  import opened Embedding
  import Naming
  import Text

  datatype Piece = Piece(role: Bytes, text: Bytes, flag: bool)

  datatype Input = Input(schemaVersion: nat, name: seq<Piece>, documentation: seq<Piece>)

  const WORD_LIMIT: nat := 0x1_0000_0000

  // ---------------------------------------------------------------- writing

  /** The low 32 bits of `n`, most significant byte first. */
  function Word(n: nat): (w: Bytes)
    ensures |w| == 4
  {
    [(n / 0x100_0000 % 256) as byte, (n / 0x1_0000 % 256) as byte, (n / 0x100 % 256) as byte, (n % 256) as byte]
  }

  function Prefixed(s: Bytes): Bytes {
    Word(|s|) + s
  }

  function Flag(b: bool): Bytes {
    if b then [1] else [0]
  }

  function EncodePiece(p: Piece): Bytes {
    Prefixed(p.role) + (Prefixed(p.text) + Flag(p.flag))
  }

  function EncodeMany<T>(encode: T -> Bytes, xs: seq<T>): Bytes {
    if xs == [] then [] else encode(xs[0]) + EncodeMany(encode, xs[1..])
  }

  function EncodeList(ps: seq<Piece>): Bytes {
    Word(|ps|) + EncodeMany(EncodePiece, ps)
  }

  function Encode(input: Input): Bytes {
    Word(input.schemaVersion) + (EncodeList(input.name) + EncodeList(input.documentation))
  }

  lemma Regroup(a: Bytes, b: Bytes, c: Bytes)
    ensures a + b + c == a + (b + c)
  {}

  lemma PieceBytes(p: Piece, rest: Bytes)
    ensures EncodePiece(p) + rest == Prefixed(p.role) + (Prefixed(p.text) + (Flag(p.flag) + rest))
  {
    Regroup(Prefixed(p.role), Prefixed(p.text) + Flag(p.flag), rest);
    Regroup(Prefixed(p.text), Flag(p.flag), rest);
  }

  lemma ManyBytes<T>(encode: T -> Bytes, x: T, xs: seq<T>, rest: Bytes)
    ensures EncodeMany(encode, [x] + xs) + rest == encode(x) + (EncodeMany(encode, xs) + rest)
  {
    assert ([x] + xs)[1..] == xs;
    Regroup(encode(x), EncodeMany(encode, xs), rest);
  }

  lemma {:induction false} EncodeManySnoc<T>(encode: T -> Bytes, xs: seq<T>, x: T)
    ensures EncodeMany(encode, xs + [x]) == EncodeMany(encode, xs) + encode(x)
  {
    if xs == [] {
      assert xs + [x] == [x] && [x][1..] == [];
      assert EncodeMany(encode, [x]) == encode(x) + [];
    } else {
      EncodeManySnoc(encode, xs[1..], x);
      assert (xs + [x])[1..] == xs[1..] + [x];
      Regroup(encode(xs[0]), EncodeMany(encode, xs[1..]), encode(x));
    }
  }

  lemma PieceWritten(written: Bytes, p: Piece)
    ensures written + Prefixed(p.role) + Prefixed(p.text) + Flag(p.flag) == written + EncodePiece(p)
  {
    Regroup(written + Prefixed(p.role), Prefixed(p.text), Flag(p.flag));
    Regroup(written, Prefixed(p.role), Prefixed(p.text) + Flag(p.flag));
  }

  /** Writes one list after what is already written. */
  method WriteList(written: Bytes, ps: seq<Piece>) returns (out: Bytes)
    ensures out == written + EncodeList(ps)
  {
    out := written + Word(|ps|);
    ghost var start := out;
    for i := 0 to |ps|
      invariant out == start + EncodeMany(EncodePiece, ps[..i])
    {
      ghost var before := out;
      out := out + Prefixed(ps[i].role);
      out := out + Prefixed(ps[i].text);
      out := out + Flag(ps[i].flag);
      PieceWritten(before, ps[i]);
      assert ps[..i + 1] == ps[..i] + [ps[i]];
      EncodeManySnoc(EncodePiece, ps[..i], ps[i]);
      Regroup(start, EncodeMany(EncodePiece, ps[..i]), EncodePiece(ps[i]));
    }
    assert ps[..|ps|] == ps;
    Regroup(written, Word(|ps|), EncodeMany(EncodePiece, ps));
  }

  method WriteInput(input: Input) returns (out: Bytes)
    ensures out == Encode(input)
  {
    out := WriteList(Word(input.schemaVersion), input.name);
    out := WriteList(out, input.documentation);
    assert out == Encode(input);
  }

  // ---------------------------------------------------------------- reading

  datatype Parsed<+T> = Malformed | Parsed(value: T, rest: Bytes)

  function ReadWord(b: Bytes): Parsed<nat> {
    if |b| < 4 then Malformed
    else Parsed(((b[0] as nat * 256 + b[1] as nat) * 256 + b[2] as nat) * 256 + b[3] as nat, b[4..])
  }

  function ReadPrefixed(b: Bytes): Parsed<Bytes> {
    match ReadWord(b)
    case Malformed => Malformed
    case Parsed(n, rest) => if |rest| < n then Malformed else Parsed(rest[..n], rest[n..])
  }

  function ReadFlag(b: Bytes): Parsed<bool> {
    if b == [] || b[0] > 1 then Malformed else Parsed(b[0] == 1, b[1..])
  }

  function ReadPiece(b: Bytes): Parsed<Piece> {
    match ReadPrefixed(b)
    case Malformed => Malformed
    case Parsed(role, b1) =>
      match ReadPrefixed(b1)
      case Malformed => Malformed
      case Parsed(text, b2) =>
        match ReadFlag(b2)
        case Malformed => Malformed
        case Parsed(flag, b3) => Parsed(Piece(role, text, flag), b3)
  }

  function ReadMany<T>(read: Bytes -> Parsed<T>, n: nat, b: Bytes): Parsed<seq<T>> {
    if n == 0 then Parsed([], b)
    else
      match read(b)
      case Malformed => Malformed
      case Parsed(x, b1) =>
        match ReadMany(read, n - 1, b1)
        case Malformed => Malformed
        case Parsed(xs, b2) => Parsed([x] + xs, b2)
  }

  function ReadList(b: Bytes): Parsed<seq<Piece>> {
    match ReadWord(b)
    case Malformed => Malformed
    case Parsed(n, rest) => ReadMany(ReadPiece, n, rest)
  }

  function Decode(b: Bytes): Option<Input> {
    match ReadWord(b)
    case Malformed => None
    case Parsed(version, b1) =>
      match ReadList(b1)
      case Malformed => None
      case Parsed(name, b2) =>
        match ReadList(b2)
        case Malformed => None
        case Parsed(documentation, b3) => if b3 == [] then Some(Input(version, name, documentation)) else None
  }

  // ---------------------------------------------------------------- reading what was written

  predicate PieceFits(p: Piece) {
    |p.role| < WORD_LIMIT && |p.text| < WORD_LIMIT
  }

  predicate PiecesFit(ps: seq<Piece>) {
    |ps| < WORD_LIMIT && forall i :: 0 <= i < |ps| ==> PieceFits(ps[i])
  }

  /** Every count and length survives the conversion to 32 bits. */
  predicate Fits(input: Input) {
    input.schemaVersion < WORD_LIMIT && PiecesFit(input.name) && PiecesFit(input.documentation)
  }

  lemma Digits(n: nat)
    requires n < WORD_LIMIT
    ensures (((n / 0x100_0000 % 256) * 256 + n / 0x1_0000 % 256) * 256 + n / 0x100 % 256) * 256 + n % 256 == n
  {
    var a, b, c := n / 0x100, n / 0x1_0000, n / 0x100_0000;
    assert b == a / 0x100 && c == b / 0x100;
    assert n == a * 256 + n % 256 && a == b * 256 + a % 256 && b == c * 256 + b % 256;
    assert c < 256;
  }

  lemma ReadWordOfWord(n: nat, rest: Bytes)
    requires n < WORD_LIMIT
    ensures ReadWord(Word(n) + rest) == Parsed(n, rest)
  {
    Digits(n);
    assert (Word(n) + rest)[4..] == rest;
  }

  lemma ReadPrefixedOfPrefixed(s: Bytes, rest: Bytes)
    requires |s| < WORD_LIMIT
    ensures ReadPrefixed(Prefixed(s) + rest) == Parsed(s, rest)
  {
    assert Prefixed(s) + rest == Word(|s|) + (s + rest);
    ReadWordOfWord(|s|, s + rest);
    assert (s + rest)[..|s|] == s && (s + rest)[|s|..] == rest;
  }

  lemma ReadFlagOfFlag(b: bool, rest: Bytes)
    ensures ReadFlag(Flag(b) + rest) == Parsed(b, rest)
  {
    assert (Flag(b) + rest)[1..] == rest;
  }

  lemma ReadPieceOfPiece(p: Piece, rest: Bytes)
    requires PieceFits(p)
    ensures ReadPiece(EncodePiece(p) + rest) == Parsed(p, rest)
  {
    var tail := Flag(p.flag) + rest;
    PieceBytes(p, rest);
    ReadPrefixedOfPrefixed(p.role, Prefixed(p.text) + tail);
    ReadPrefixedOfPrefixed(p.text, tail);
    ReadFlagOfFlag(p.flag, rest);
  }

  lemma {:induction false} ReadManyOfMany<T>(encode: T -> Bytes, read: Bytes -> Parsed<T>, xs: seq<T>, rest: Bytes)
    requires forall i, tail :: 0 <= i < |xs| ==> read(encode(xs[i]) + tail) == Parsed(xs[i], tail)
    ensures ReadMany(read, |xs|, EncodeMany(encode, xs) + rest) == Parsed(xs, rest)
  {
    if xs == [] {
      assert EncodeMany(encode, xs) + rest == rest;
    } else {
      var tail := EncodeMany(encode, xs[1..]) + rest;
      assert [xs[0]] + xs[1..] == xs;
      ManyBytes(encode, xs[0], xs[1..], rest);
      assert read(encode(xs[0]) + tail) == Parsed(xs[0], tail);
      ReadManyOfMany(encode, read, xs[1..], rest);
    }
  }

  lemma ReadListOfList(ps: seq<Piece>, rest: Bytes)
    requires PiecesFit(ps)
    ensures ReadList(EncodeList(ps) + rest) == Parsed(ps, rest)
  {
    var body := EncodeMany(EncodePiece, ps);
    Regroup(Word(|ps|), body, rest);
    ReadWordOfWord(|ps|, body + rest);
    forall i, tail | 0 <= i < |ps| ensures ReadPiece(EncodePiece(ps[i]) + tail) == Parsed(ps[i], tail) {
      ReadPieceOfPiece(ps[i], tail);
    }
    ReadManyOfMany(EncodePiece, ReadPiece, ps, rest);
  }

  /** The stream of any input can be read back, whatever bytes its texts hold. */
  lemma DecodeOfEncode(input: Input)
    requires Fits(input)
    ensures Decode(Encode(input)) == Some(input)
  {
    var tail := EncodeList(input.documentation);
    ReadWordOfWord(input.schemaVersion, EncodeList(input.name) + tail);
    ReadListOfList(input.name, tail);
    ReadListOfList(input.documentation, []);
    assert tail + [] == tail;
  }

  /** Two inputs feed the hash the same bytes only if they are the same input. */
  lemma EncodeIsInjective(x: Input, y: Input)
    requires Fits(x) && Fits(y)
    ensures Encode(x) == Encode(y) <==> x == y
  {
    DecodeOfEncode(x);
    DecodeOfEncode(y);
  }

  predicate Zeros(b: Bytes) {
    forall i :: 0 <= i < |b| ==> b[i] == 0
  }

  lemma ZerosAgree(a: Bytes, b: Bytes)
    requires Zeros(a) && Zeros(b) && |a| == |b|
    ensures a == b
  {}

  function Copies(n: nat): (ps: seq<Piece>)
    ensures |ps| == n && forall i :: 0 <= i < n ==> ps[i] == Piece([], [], false)
  {
    seq(n, i => Piece([], [], false))
  }

  lemma {:induction false} CopiesAreZeros(ps: seq<Piece>)
    requires forall i :: 0 <= i < |ps| ==> ps[i] == Piece([], [], false)
    ensures Zeros(EncodeMany(EncodePiece, ps))
  {
    if ps != [] {
      CopiesAreZeros(ps[1..]);
      assert Zeros(EncodePiece(ps[0]));
    }
  }

  /** The bound is needed: with 2^32 pieces, two different inputs are written as the same bytes. */
  lemma LengthsWrap(version: nat)
    ensures var x, y := Input(version, Copies(WORD_LIMIT), []), Input(version, [], Copies(WORD_LIMIT));
            x != y && Encode(x) == Encode(y)
  {
    var many := EncodeMany(EncodePiece, Copies(WORD_LIMIT));
    CopiesAreZeros(Copies(WORD_LIMIT));
    var left, right := EncodeList(Copies(WORD_LIMIT)) + EncodeList([]), EncodeList([]) + EncodeList(Copies(WORD_LIMIT));
    assert EncodeList(Copies(WORD_LIMIT)) == Word(WORD_LIMIT) + many && EncodeList([]) == Word(0) + [];
    assert Word(WORD_LIMIT) == Word(0) && Zeros(Word(0));
    ZerosAgree(left, right);
    assert |Copies(WORD_LIMIT)| == WORD_LIMIT;
  }

  // ---------------------------------------------------------------- writing what was read

  lemma WordOfReadWord(b: Bytes)
    requires |b| >= 4
    ensures ReadWord(b).Parsed? && ReadWord(b).value < WORD_LIMIT && Word(ReadWord(b).value) == b[..4]
  {
    var n := ReadWord(b).value;
    var c := (b[0] as nat * 256 + b[1] as nat) * 256 + b[2] as nat;
    assert n == c * 256 + b[3] as nat && n / 0x100 == c && n % 256 == b[3] as nat;
    assert c / 0x100 == b[0] as nat * 256 + b[1] as nat && c % 256 == b[2] as nat;
    assert n / 0x1_0000 == c / 0x100 && n / 0x100_0000 == b[0] as nat;
  }

  lemma ReadPrefixedIsPrefixed(b: Bytes)
    requires ReadPrefixed(b).Parsed?
    ensures var r := ReadPrefixed(b); Prefixed(r.value) + r.rest == b && |r.value| < WORD_LIMIT
  {
    WordOfReadWord(b);
    assert b == b[..4] + b[4..];
  }

  lemma ReadFlagIsFlag(b: Bytes)
    requires ReadFlag(b).Parsed?
    ensures Flag(ReadFlag(b).value) + ReadFlag(b).rest == b
  {
    assert b == [b[0]] + b[1..];
  }

  lemma ReadPieceIsPiece(b: Bytes)
    requires ReadPiece(b).Parsed?
    ensures var r := ReadPiece(b); EncodePiece(r.value) + r.rest == b && PieceFits(r.value)
  {
    ReadPrefixedIsPrefixed(b);
    var b1 := ReadPrefixed(b).rest;
    ReadPrefixedIsPrefixed(b1);
    ReadFlagIsFlag(ReadPrefixed(b1).rest);
    PieceBytes(ReadPiece(b).value, ReadPiece(b).rest);
  }

  lemma {:induction false} ReadManyIsMany<T>(encode: T -> Bytes, read: Bytes -> Parsed<T>, fits: T -> bool, n: nat,
                                             b: Bytes, xs: seq<T>, rest: Bytes)
    requires forall c :: read(c).Parsed? ==> encode(read(c).value) + read(c).rest == c && fits(read(c).value)
    requires ReadMany(read, n, b) == Parsed(xs, rest)
    ensures |xs| == n && EncodeMany(encode, xs) + rest == b
    ensures forall i :: 0 <= i < |xs| ==> fits(xs[i])
    decreases n
  {
    if n == 0 {
      assert [] + b == b;
    } else {
      var b1 := read(b).rest;
      var ys := ReadMany(read, n - 1, b1).value;
      ReadManyIsMany(encode, read, fits, n - 1, b1, ys, rest);
      ManyBytes(encode, read(b).value, ys, rest);
    }
  }

  lemma ReadListIsList(b: Bytes)
    requires ReadList(b).Parsed?
    ensures var r := ReadList(b); EncodeList(r.value) + r.rest == b && PiecesFit(r.value)
  {
    WordOfReadWord(b);
    forall c | ReadPiece(c).Parsed?
      ensures EncodePiece(ReadPiece(c).value) + ReadPiece(c).rest == c && PieceFits(ReadPiece(c).value)
    {
      ReadPieceIsPiece(c);
    }
    var ps, rest := ReadList(b).value, ReadList(b).rest;
    ReadManyIsMany(EncodePiece, ReadPiece, PieceFits, ReadWord(b).value, b[4..], ps, rest);
    Regroup(Word(|ps|), EncodeMany(EncodePiece, ps), rest);
    assert b == b[..4] + b[4..];
  }

  /** The decoder accepts exactly the streams some input writes. */
  lemma DecodesIffEncoded(b: Bytes)
    ensures Decode(b).Some? ==> Fits(Decode(b).value) && Encode(Decode(b).value) == b
    ensures Decode(b).Some? <==> exists x :: Fits(x) && Encode(x) == b
  {
    if Decode(b).Some? {
      WordOfReadWord(b);
      assert b == b[..4] + b[4..];
      ReadListIsList(b[4..]);
      ReadListIsList(ReadList(b[4..]).rest);
    }
    forall x | Fits(x) && Encode(x) == b ensures Decode(b).Some? { DecodeOfEncode(x); }
  }

  // ---------------------------------------------------------------- the naming lane's part

  function RoleText(role: Role): string {
    match role
    case NameRole => "canonical-name"
    case PhraseRole => "normalized-phrase"
    case AliasRole => "alias-discovery"
  }

  lemma RoleTextInjective(a: Role, b: Role)
    requires RoleText(a) == RoleText(b)
    ensures a == b
  {
    assert |RoleText(NameRole)| == 14 && |RoleText(PhraseRole)| == 17 && |RoleText(AliasRole)| == 15;
  }

  function ToPieces(segments: seq<Segment>): (ps: seq<Piece>)
    ensures |ps| == |segments|
  {
    seq(|segments|, i requires 0 <= i < |segments| =>
      Piece(EncodeText(RoleText(segments[i].role)), EncodeText(segments[i].text), segments[i].lowWeight))
  }

  lemma ToPiecesInjective(a: seq<Segment>, b: seq<Segment>)
    requires ToPieces(a) == ToPieces(b)
    ensures a == b
  {
    assert |a| == |ToPieces(b)|;
    forall i | 0 <= i < |a| ensures a[i] == b[i] {
      assert ToPieces(a)[i] == ToPieces(b)[i];
      EncodeTextIsInjective(RoleText(a[i].role), RoleText(b[i].role));
      RoleTextInjective(a[i].role, b[i].role);
      EncodeTextIsInjective(a[i].text, b[i].text);
    }
  }

  /** The number of segments and the bytes of each text can be counted in 32 bits. */
  predicate SegmentsFit(segments: seq<Segment>) {
    |segments| < WORD_LIMIT && forall i :: 0 <= i < |segments| ==> Text.ByteLength(segments[i].text) < WORD_LIMIT
  }

  lemma ToPiecesFit(segments: seq<Segment>)
    requires SegmentsFit(segments)
    ensures PiecesFit(ToPieces(segments))
  {
    forall i | 0 <= i < |segments| ensures PieceFits(ToPieces(segments)[i]) {
      RoleIsShort(segments[i].role);
    }
  }

  lemma RoleIsShort(role: Role)
    ensures |EncodeText(RoleText(role))| < WORD_LIMIT
  {
    BytesPerCharacter(RoleText(role));
  }

  lemma {:induction false} BytesPerCharacter(s: string)
    ensures |EncodeText(s)| <= 4 * |s|
  {
    if s != [] { BytesPerCharacter(s[1..]); }
  }

  /** No naming trigger fires exactly when the name part of the hashed stream is unchanged. */
  lemma NoTriggerIffSameStream(r: Record, a: seq<Naming.Alias>, s: Record, b: seq<Naming.Alias>)
    requires NoSeparator(r.name) && NoSeparator(r.phrase) && NoSeparator(s.name) && NoSeparator(s.phrase)
    requires SegmentsFit(Composed(r, a).segments) && SegmentsFit(Composed(s, b).segments)
    ensures Triggers(Composed(r, a), Composed(s, b)) == [] <==>
            EncodeList(ToPieces(Composed(r, a).segments)) == EncodeList(ToPieces(Composed(s, b).segments))
  {
    var before, after := Composed(r, a).segments, Composed(s, b).segments;
    NoTriggerIffSameSegments(r, a, s, b);
    if EncodeList(ToPieces(before)) == EncodeList(ToPieces(after)) {
      ToPiecesFit(before);
      ToPiecesFit(after);
      ReadListOfList(ToPieces(before), []);
      ReadListOfList(ToPieces(after), []);
      ToPiecesInjective(before, after);
    }
  }
}
