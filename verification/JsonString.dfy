/** JSON strings over UTF-16 code units: the grammar of section 7 of RFC 8259, the
    reader that JsonAudit implements, and their agreement. */
module JsonString {

  /** One Java char. */
  type CodeUnit = u: int | 0 <= u < 0x1_0000
  type Text = seq<CodeUnit>

  datatype Result<+T> = Ok(value: T) | Error(kind: ErrorKind)
  datatype ErrorKind =
    | Expected(c: CodeUnit) | IncompleteUnicode | InvalidUnicode | ControlCharacter
    | UnpairedHigh | UnpairedLow | IncompleteEscape | MissingLow | InvalidLow
    | InvalidEscape | Unterminated | TrailingData | NotAString | DuplicateKey

  const QUOTE: CodeUnit := 0x22
  const BACKSLASH: CodeUnit := 0x5C
  const LETTER_U: CodeUnit := 0x75

  predicate IsHigh(u: CodeUnit) { 0xD800 <= u < 0xDC00 }
  predicate IsLow(u: CodeUnit) { 0xDC00 <= u < 0xE000 }
  predicate IsSurrogate(u: CodeUnit) { IsHigh(u) || IsLow(u) }

  /** Every high surrogate is followed by a low one and every low one preceded. */
  predicate WellFormed(t: Text)
    decreases |t|
  {
    t == [] ||
    (if IsHigh(t[0]) then |t| > 1 && IsLow(t[1]) && WellFormed(t[2..])
     else !IsLow(t[0]) && WellFormed(t[1..]))
  }

  // ------------------------------------------------------------------
  // The grammar
  // ------------------------------------------------------------------

  /** Four hexadecimal digits. */
  datatype Quad = Quad(a: CodeUnit, b: CodeUnit, c: CodeUnit, d: CodeUnit)

  /** What may stand between the quotes. */
  datatype Piece =
    | Plain(c: CodeUnit)                       // unescaped, outside the surrogates
    | Pair(hi: CodeUnit, lo: CodeUnit)         // unescaped surrogate pair
    | Short(letter: CodeUnit)                  // \" \\ \/ \b \f \n \r \t
    | Hex(digits: Quad)                        // \uXXXX
    | HexPair(high: Quad, low: Quad)           // \uD8XX\uDCXX

  /** The value of a short escape. */
  function ShortValue(letter: CodeUnit): Text {
    if letter == QUOTE || letter == BACKSLASH || letter == 0x2F then [letter]
    else if letter == 0x62 then [8]
    else if letter == 0x66 then [12]
    else if letter == 0x6E then [10]
    else if letter == 0x72 then [13]
    else if letter == 0x74 then [9]
    else []
  }

  /** The value of an ASCII hexadecimal digit, or -1. */
  function Digit(u: CodeUnit): (d: int)
    ensures -1 <= d < 16
  {
    if 0x30 <= u <= 0x39 then u - 0x30
    else if 0x41 <= u <= 0x46 then u - 0x37
    else if 0x61 <= u <= 0x66 then u - 0x57
    else -1
  }

  predicate IsHex4(q: Quad) {
    Digit(q.a) >= 0 && Digit(q.b) >= 0 && Digit(q.c) >= 0 && Digit(q.d) >= 0
  }

  function Hex4Value(q: Quad): CodeUnit
    requires IsHex4(q)
  {
    0x1000 * Digit(q.a) + 0x100 * Digit(q.b) + 0x10 * Digit(q.c) + Digit(q.d)
  }

  function RenderQuad(q: Quad): Text { [q.a, q.b, q.c, q.d] }

  predicate ValidPiece(x: Piece) {
    match x
    case Plain(c) => c >= 0x20 && c != QUOTE && c != BACKSLASH && !IsSurrogate(c)
    case Pair(hi, lo) => IsHigh(hi) && IsLow(lo)
    case Short(letter) => ShortValue(letter) != []
    case Hex(d) => IsHex4(d) && !IsSurrogate(Hex4Value(d))
    case HexPair(h, l) => IsHex4(h) && IsHex4(l) && IsHigh(Hex4Value(h)) && IsLow(Hex4Value(l))
  }

  function RenderPiece(x: Piece): Text {
    match x
    case Plain(c) => [c]
    case Pair(hi, lo) => [hi, lo]
    case Short(letter) => [BACKSLASH, letter]
    case Hex(d) => [BACKSLASH, LETTER_U] + RenderQuad(d)
    case HexPair(h, l) => [BACKSLASH, LETTER_U] + RenderQuad(h) + [BACKSLASH, LETTER_U] + RenderQuad(l)
  }

  function PieceValue(x: Piece): Text
    requires ValidPiece(x)
  {
    match x
    case Plain(c) => [c]
    case Pair(hi, lo) => [hi, lo]
    case Short(letter) => ShortValue(letter)
    case Hex(d) => [Hex4Value(d)]
    case HexPair(h, l) => [Hex4Value(h), Hex4Value(l)]
  }

  predicate ValidPieces(xs: seq<Piece>) {
    forall i :: 0 <= i < |xs| ==> ValidPiece(xs[i])
  }

  function Render(xs: seq<Piece>): Text {
    if xs == [] then [] else RenderPiece(xs[0]) + Render(xs[1..])
  }

  function Value(xs: seq<Piece>): Text
    requires ValidPieces(xs)
  {
    if xs == [] then [] else PieceValue(xs[0]) + Value(xs[1..])
  }

  function Literal(xs: seq<Piece>): Text { [QUOTE] + Render(xs) + [QUOTE] }

  // ------------------------------------------------------------------
  // The reader
  // ------------------------------------------------------------------

  /** hex4 at position `p`. */
  function ReadHex4(t: Text, p: nat): (r: Result<Quad>)
    ensures r.Ok? ==> IsHex4(r.value) && p + 4 <= |t|
  {
    if p + 4 > |t| then Error(IncompleteUnicode)
    else
      var q := Quad(t[p], t[p + 1], t[p + 2], t[p + 3]);
      if IsHex4(q) then Ok(q) else Error(InvalidUnicode)
  }

  /** One turn of the loop in string(), after the closing quote has been excluded. */
  function ReadPiece(t: Text, p: nat): Result<Piece>
    requires p < |t|
  {
    var c := t[p];
    if c < 0x20 then Error(ControlCharacter)
    else if c != BACKSLASH then
      if IsHigh(c) then
        if p + 1 >= |t| || !IsLow(t[p + 1]) then Error(UnpairedHigh) else Ok(Pair(c, t[p + 1]))
      else if IsLow(c) then Error(UnpairedLow)
      else Ok(Plain(c))
    else if p + 1 >= |t| then Error(IncompleteEscape)
    else if t[p + 1] == LETTER_U then ReadUnicode(t, p + 2)
    else if ShortValue(t[p + 1]) != [] then Ok(Short(t[p + 1]))
    else Error(InvalidEscape)
  }

  function ReadUnicode(t: Text, p: nat): Result<Piece> {
    var first := ReadHex4(t, p);
    if first.Error? then Error(first.kind)
    else if IsHigh(Hex4Value(first.value)) then
      if p + 6 > |t| || t[p + 4] != BACKSLASH || t[p + 5] != LETTER_U then Error(MissingLow)
      else
        var second := ReadHex4(t, p + 6);
        if second.Error? then Error(second.kind)
        else if IsLow(Hex4Value(second.value)) then Ok(HexPair(first.value, second.value))
        else Error(InvalidLow)
    else if IsLow(Hex4Value(first.value)) then Error(UnpairedLow)
    else Ok(Hex(first.value))
  }

  lemma {:induction false} QuadIsThere(t: Text, p: nat)
    requires 2 <= p <= |t| && t[p - 2..p] == [BACKSLASH, LETTER_U] && ReadHex4(t, p).Ok?
    ensures p + 4 <= |t| && t[p - 2..p + 4] == [BACKSLASH, LETTER_U] + RenderQuad(ReadHex4(t, p).value)
  {
    assert t[p - 2..p + 4] == t[p - 2..p] + t[p..p + 4];
    assert t[p..p + 4] == RenderQuad(ReadHex4(t, p).value);
  }

  lemma {:induction false} Abut(t: Text, p: nat, q: nat, r: nat, a: Text, b: Text)
    requires p <= q <= r <= |t| && t[p..q] == a && t[q..r] == b
    ensures t[p..r] == a + b
  {
    assert t[p..r] == t[p..q] + t[q..r];
  }

  /** A hexadecimal escape that was read stands where it was read. */
  lemma {:induction false} ReadUnicodeIsThere(t: Text, p: nat)
    requires p + 2 <= |t| && t[p] == BACKSLASH && t[p + 1] == LETTER_U && ReadUnicode(t, p + 2).Ok?
    ensures var x := ReadUnicode(t, p + 2).value;
      ValidPiece(x) && p + |RenderPiece(x)| <= |t| && t[p..p + |RenderPiece(x)|] == RenderPiece(x)
  {
    assert t[p..p + 2] == [BACKSLASH, LETTER_U];
    QuadIsThere(t, p + 2);
    var x := ReadUnicode(t, p + 2).value;
    if x.HexPair? {
      assert t[p + 6..p + 8] == [BACKSLASH, LETTER_U];
      QuadIsThere(t, p + 8);
      Abut(t, p, p + 6, p + 12, [BACKSLASH, LETTER_U] + RenderQuad(x.high), [BACKSLASH, LETTER_U] + RenderQuad(x.low));
      assert RenderPiece(x) == ([BACKSLASH, LETTER_U] + RenderQuad(x.high)) + ([BACKSLASH, LETTER_U] + RenderQuad(x.low));
    }
  }

  /** A piece that was read stands where it was read. */
  lemma {:induction false} ReadPieceIsThere(t: Text, p: nat)
    requires p < |t| && t[p] != QUOTE && ReadPiece(t, p).Ok?
    ensures var x := ReadPiece(t, p).value;
      ValidPiece(x) && 0 < |RenderPiece(x)| && p + |RenderPiece(x)| <= |t|
      && t[p..p + |RenderPiece(x)|] == RenderPiece(x)
  {
    if t[p] == BACKSLASH && t[p + 1] == LETTER_U {
      ReadUnicodeIsThere(t, p);
    }
  }

  /** The text after an opening quote: its value and the position after the closing quote. */
  function ReadBody(t: Text, p: nat): (r: Result<(Text, nat)>)
    decreases |t| - p
    ensures r.Ok? ==> p < r.value.1 <= |t|
  {
    if p >= |t| then Error(Unterminated)
    else if t[p] == QUOTE then Ok(([], p + 1))
    else
      var x := ReadPiece(t, p);
      if x.Error? then Error(x.kind)
      else
        ReadPieceIsThere(t, p);
        var rest := ReadBody(t, p + |RenderPiece(x.value)|);
        if rest.Error? then Error(rest.kind)
        else Ok((PieceValue(x.value) + rest.value.0, rest.value.1))
  }

  // ------------------------------------------------------------------
  // Agreement
  // ------------------------------------------------------------------

  lemma {:induction false} Standing(t: Text, p: nat, r: Text, i: nat)
    requires p + |r| <= |t| && t[p..p + |r|] == r && i < |r|
    ensures t[p + i] == r[i]
  {
    assert t[p..p + |r|][i] == t[p + i];
  }

  /** An escape in hexadecimal standing in a text is the one the reader reads. */
  lemma {:induction false} ReadsUnicode(t: Text, p: nat, x: Piece)
    requires ValidPiece(x) && (x.Hex? || x.HexPair?)
    requires p + |RenderPiece(x)| <= |t| && t[p..p + |RenderPiece(x)|] == RenderPiece(x)
    ensures ReadUnicode(t, p + 2) == Ok(x)
  {
    var r := RenderPiece(x);
    forall i: nat | i < |r| ensures t[p + i] == r[i] {
      Standing(t, p, r, i);
    }
    if x.Hex? {
      assert t[p + 2] == r[2] && t[p + 3] == r[3] && t[p + 4] == r[4] && t[p + 5] == r[5];
    } else {
      assert t[p + 2] == r[2] && t[p + 3] == r[3] && t[p + 4] == r[4] && t[p + 5] == r[5];
      assert t[p + 6] == r[6] && t[p + 7] == r[7];
      assert t[p + 8] == r[8] && t[p + 9] == r[9] && t[p + 10] == r[10] && t[p + 11] == r[11];
    }
  }

  /** A piece standing in a text is the one the reader reads. */
  lemma {:induction false} ReadsPiece(t: Text, p: nat, x: Piece)
    requires ValidPiece(x) && p + |RenderPiece(x)| <= |t| && t[p..p + |RenderPiece(x)|] == RenderPiece(x)
    ensures p < |t| && t[p] != QUOTE && ReadPiece(t, p) == Ok(x)
  {
    var r := RenderPiece(x);
    Standing(t, p, r, 0);
    if |r| > 1 { Standing(t, p, r, 1); }
    if x.Hex? || x.HexPair? { ReadsUnicode(t, p, x); }
  }

  lemma {:induction false} Split(t: Text, p: nat, a: Text, b: Text)
    requires p + |a| + |b| <= |t| && t[p..p + |a| + |b|] == a + b
    ensures t[p..p + |a|] == a && t[p + |a|..p + |a| + |b|] == b
  {
    assert t[p..p + |a| + |b|][..|a|] == t[p..p + |a|];
    assert t[p..p + |a| + |b|][|a|..] == t[p + |a|..p + |a| + |b|];
  }

  lemma {:induction false} Join(t: Text, p: nat, n: nat, q: nat)
    requires p + n <= q <= |t|
    ensures t[p..q] == t[p..p + n] + t[p + n..q]
  {
  }

  /** One turn of the reader. */
  lemma {:induction false} ReadStep(t: Text, p: nat)
    requires p < |t| && t[p] != QUOTE
    ensures ReadPiece(t, p).Error? ==> ReadBody(t, p) == Error(ReadPiece(t, p).kind)
    ensures ReadPiece(t, p).Ok? ==>
      var x := ReadPiece(t, p).value; var q := p + |RenderPiece(x)|;
      && p < q <= |t| && t[p..q] == RenderPiece(x) && ValidPiece(x)
      && (ReadBody(t, q).Error? ==> ReadBody(t, p) == Error(ReadBody(t, q).kind))
      && (ReadBody(t, q).Ok? ==>
            ReadBody(t, p) == Ok((PieceValue(x) + ReadBody(t, q).value.0, ReadBody(t, q).value.1)))
  {
    if ReadPiece(t, p).Ok? { ReadPieceIsThere(t, p); }
  }

  /** The text of `xs` stands at position `p`, followed by a quote. */
  predicate StandsAt(t: Text, p: nat, xs: seq<Piece>) {
    p + |Render(xs)| < |t| && t[p..p + |Render(xs)|] == Render(xs) && t[p + |Render(xs)|] == QUOTE
  }

  lemma {:induction false} TailStands(t: Text, p: nat, xs: seq<Piece>)
    requires xs != [] && StandsAt(t, p, xs)
    ensures var x := RenderPiece(xs[0]);
      && p + |x| <= |t| && t[p..p + |x|] == x && StandsAt(t, p + |x|, xs[1..])
      && p + |Render(xs)| == p + |x| + |Render(xs[1..])|
  {
    hide RenderPiece;
    Split(t, p, RenderPiece(xs[0]), Render(xs[1..]));
  }

  /** From position `p` the loop of string() takes the pieces `xs` and then a quote. */
  predicate TakesPieces(t: Text, p: nat, xs: seq<Piece>)
    decreases |xs|
  {
    p < |t| &&
    (if xs == [] then t[p] == QUOTE
     else t[p] != QUOTE && ReadPiece(t, p) == Ok(xs[0]) && TakesPieces(t, p + |RenderPiece(xs[0])|, xs[1..]))
  }

  lemma {:induction false} StandingIsTaken(t: Text, p: nat, xs: seq<Piece>)
    requires ValidPieces(xs) && StandsAt(t, p, xs)
    ensures TakesPieces(t, p, xs)
    decreases |xs|
  {
    if xs != [] {
      TailStands(t, p, xs);
      ReadsPiece(t, p, xs[0]);
      StandingIsTaken(t, p + |RenderPiece(xs[0])|, xs[1..]);
    }
  }

  lemma {:induction false} TakenIsRead(t: Text, p: nat, xs: seq<Piece>)
    requires ValidPieces(xs) && TakesPieces(t, p, xs)
    ensures ReadBody(t, p) == Ok((Value(xs), p + |Render(xs)| + 1))
    decreases |xs|
  {
    hide ReadPiece, RenderPiece, PieceValue, ValidPiece;
    if xs != [] {
      var q := p + |RenderPiece(xs[0])|;
      TakenIsRead(t, q, xs[1..]);
      ReadStep(t, p);
      assert p + |Render(xs)| == q + |Render(xs[1..])|;
    }
  }

  /** Whatever literal of the grammar stands in a text, the reader returns its value
      and stops right after its closing quote. */
  lemma {:induction false} ReadsLiteral(t: Text, p: nat, xs: seq<Piece>)
    requires ValidPieces(xs) && StandsAt(t, p, xs)
    ensures ReadBody(t, p) == Ok((Value(xs), p + |Render(xs)| + 1))
  {
    StandingIsTaken(t, p, xs);
    TakenIsRead(t, p, xs);
  }

  /** What the reader accepts it took piece by piece. */
  lemma {:induction false} ReadIsTaken(t: Text, p: nat) returns (xs: seq<Piece>)
    requires ReadBody(t, p).Ok?
    ensures TakesPieces(t, p, xs)
    decreases |t| - p
  {
    hide ReadPiece, RenderPiece, PieceValue, ValidPiece;
    if t[p] == QUOTE {
      xs := [];
    } else {
      ReadStep(t, p);
      var x := ReadPiece(t, p).value;
      var rest := ReadIsTaken(t, p + |RenderPiece(x)|);
      xs := [x] + rest;
      assert xs[1..] == rest;
    }
  }

  lemma {:induction false} TakenStands(t: Text, p: nat, xs: seq<Piece>)
    requires TakesPieces(t, p, xs)
    ensures ValidPieces(xs) && p + |Render(xs)| + 1 <= |t|
    ensures t[p..p + |Render(xs)| + 1] == Render(xs) + [QUOTE]
    decreases |xs|
  {
    hide ReadPiece, RenderPiece, PieceValue, ValidPiece;
    if xs != [] {
      var q := p + |RenderPiece(xs[0])|;
      TakenStands(t, q, xs[1..]);
      ReadPieceIsThere(t, p);
      LiteralStep(t, p, xs[0], xs[1..], q + |Render(xs[1..])| + 1);
      assert xs == [xs[0]] + xs[1..];
    }
  }

  /** Conversely what the reader accepts is a literal of the grammar with that value. */
  lemma {:induction false} ReadIsLiteral(t: Text, p: nat) returns (xs: seq<Piece>)
    requires ReadBody(t, p).Ok?
    ensures var q := ReadBody(t, p).value.1;
      && p < q <= |t| && ValidPieces(xs)
      && t[p..q] == Render(xs) + [QUOTE] && Value(xs) == ReadBody(t, p).value.0
  {
    xs := ReadIsTaken(t, p);
    TakenStands(t, p, xs);
    TakenIsRead(t, p, xs);
  }

  lemma {:induction false} LiteralStep(t: Text, p: nat, x: Piece, rest: seq<Piece>, q: nat)
    requires ValidPiece(x) && ValidPieces(rest) && p + |RenderPiece(x)| <= q <= |t|
    requires t[p..p + |RenderPiece(x)|] == RenderPiece(x) && t[p + |RenderPiece(x)|..q] == Render(rest) + [QUOTE]
    ensures ValidPieces([x] + rest) && t[p..q] == Render([x] + rest) + [QUOTE]
    ensures Value([x] + rest) == PieceValue(x) + Value(rest)
  {
    PrependPiece(x, rest);
    Join(t, p, |RenderPiece(x)|, q);
  }

  lemma {:induction false} WellFormedConcat(a: Text, b: Text)
    requires WellFormed(a) && WellFormed(b)
    ensures WellFormed(a + b)
    decreases |a|
  {
    if a == [] {
      assert a + b == b;
    } else {
      var n := if IsHigh(a[0]) then 2 else 1;
      WellFormedConcat(a[n..], b);
      assert (a + b)[n..] == a[n..] + b;
    }
  }

  /** The reader only returns well-formed UTF-16. */
  lemma {:induction false} ValuesAreWellFormed(xs: seq<Piece>)
    requires ValidPieces(xs)
    ensures WellFormed(Value(xs))
    decreases |xs|
  {
    if xs != [] {
      ValuesAreWellFormed(xs[1..]);
      assert WellFormed(PieceValue(xs[0])) by {
        assert PieceValue(xs[0])[|PieceValue(xs[0])|..] == [];
      }
      WellFormedConcat(PieceValue(xs[0]), Value(xs[1..]));
    }
  }

  // ------------------------------------------------------------------
  // The printer
  // ------------------------------------------------------------------

  /** The lower-case hexadecimal digit of a number below 16. */
  function HexDigit(n: int): CodeUnit
    requires 0 <= n < 16
  {
    if n < 10 then 0x30 + n else 0x57 + n
  }

  function EscapeUnit(c: CodeUnit): Text {
    if c == QUOTE || c == BACKSLASH then [BACKSLASH, c]
    else if c < 0x20 then [BACKSLASH, LETTER_U, 0x30, 0x30, HexDigit(c / 16), HexDigit(c % 16)]
    else [c]
  }

  function Escape(t: Text): Text {
    if t == [] then [] else Escape(t[..|t| - 1]) + EscapeUnit(t[|t| - 1])
  }

  function Quoted(t: Text): Text { [QUOTE] + Escape(t) + [QUOTE] }

  lemma {:induction false} NothingEscaped()
    ensures Escape([]) == []
  {
  }

  lemma {:induction false} EscapeSnoc(t: Text, i: nat)
    requires i < |t|
    ensures Escape(t[..i + 1]) == Escape(t[..i]) + EscapeUnit(t[i])
  {
    assert t[..i + 1][..i] == t[..i];
  }

  /** quote() */
  method Quote(text: Text) returns (result: Text)
    ensures result == Quoted(text)
  {
    hide Escape;
    result := [QUOTE];
    var i := 0;
    NothingEscaped();
    while i < |text|
      invariant i <= |text| && result == [QUOTE] + Escape(text[..i])
    {
      var c := text[i];
      EscapeSnoc(text, i);
      if c == QUOTE || c == BACKSLASH {
        result := result + [BACKSLASH] + [c];
      } else if c < 0x20 {
        result := result + [BACKSLASH, LETTER_U, 0x30, 0x30, HexDigit(c / 16), HexDigit(c % 16)];
      } else {
        result := result + [c];
      }
      i := i + 1;
    }
    assert text[..i] == text;
    result := result + [QUOTE];
  }

  lemma {:induction false} EscapeCons(a: Text, b: Text)
    ensures Escape(a + b) == Escape(a) + Escape(b)
    decreases |b|
  {
    if b == [] {
      assert a + b == a;
    } else {
      assert (a + b)[..|a + b| - 1] == a + b[..|b| - 1];
      EscapeCons(a, b[..|b| - 1]);
    }
  }

  /** The pieces quote() writes for a well-formed text. */
  function Pieces(t: Text): (xs: seq<Piece>)
    requires WellFormed(t)
    decreases |t|
  {
    if t == [] then []
    else if IsHigh(t[0]) then [Pair(t[0], t[1])] + Pieces(t[2..])
    else if t[0] == QUOTE || t[0] == BACKSLASH then [Short(t[0])] + Pieces(t[1..])
    else if t[0] < 0x20 then [Hex(Quad(0x30, 0x30, HexDigit(t[0] / 16), HexDigit(t[0] % 16)))] + Pieces(t[1..])
    else [Plain(t[0])] + Pieces(t[1..])
  }

  lemma {:induction false} EscapeOne(c: CodeUnit)
    ensures Escape([c]) == EscapeUnit(c)
  {
    assert [c][..0] == [];
  }

  lemma {:induction false} EscapeFirst(t: Text, n: nat)
    requires n <= |t|
    ensures Escape(t) == Escape(t[..n]) + Escape(t[n..])
  {
    assert t == t[..n] + t[n..];
    EscapeCons(t[..n], t[n..]);
  }

  /** The first piece, its text and the units it stands for. */
  lemma {:induction false} HeadPiece(t: Text)
    requires t != [] && WellFormed(t)
    ensures var n := if IsHigh(t[0]) then 2 else 1;
      && n <= |t| && Pieces(t) == [Pieces(t)[0]] + Pieces(t[n..])
      && ValidPiece(Pieces(t)[0]) && RenderPiece(Pieces(t)[0]) == Escape(t[..n]) && PieceValue(Pieces(t)[0]) == t[..n]
  {
    if IsHigh(t[0]) {
      assert t[..2] == [t[0]] + [t[1]];
      EscapeCons([t[0]], [t[1]]);
      EscapeOne(t[1]);
    } else {
      assert t[..1] == [t[0]];
      FirstPiece(t[0]);
    }
    EscapeOne(t[0]);
  }

  /** They are valid, they are what is written, and they mean the text. */
  lemma {:induction false} PiecesMeanText(t: Text)
    requires WellFormed(t)
    ensures ValidPieces(Pieces(t)) && Render(Pieces(t)) == Escape(t) && Value(Pieces(t)) == t
    decreases |t|
  {
    if t != [] {
      var n := if IsHigh(t[0]) then 2 else 1;
      HeadPiece(t);
      PiecesMeanText(t[n..]);
      EscapeFirst(t, n);
      PrependPiece(Pieces(t)[0], Pieces(t[n..]));
      assert t == t[..n] + t[n..];
    }
  }

  /** Escaping keeps text well-formed. */
  lemma {:induction false} EscapeWellFormed(t: Text)
    requires WellFormed(t)
    ensures WellFormed(Escape(t)) && WellFormed(Quoted(t))
    decreases |t|
  {
    if t != [] {
      var n := if IsHigh(t[0]) then 2 else 1;
      EscapeWellFormed(t[n..]);
      HeadPiece(t);
      EscapeFirst(t, n);
      RenderedWellFormed(Pieces(t)[0]);
      WellFormedConcat(Escape(t[..n]), Escape(t[n..]));
    }
    QuotesWellFormed(Escape(t));
  }

  lemma {:induction false} QuotesWellFormed(t: Text)
    requires WellFormed(t)
    ensures WellFormed([QUOTE] + t + [QUOTE])
  {
    assert ([QUOTE] + t)[1..] == t;
    assert [QUOTE][1..] == [];
    WellFormedConcat([QUOTE] + t, [QUOTE]);
  }

  lemma {:induction false} RenderedWellFormed(x: Piece)
    requires ValidPiece(x)
    ensures WellFormed(RenderPiece(x))
  {
    var r := RenderPiece(x);
    if x.Plain? || x.Pair? {
      assert r[|r|..] == [];
    } else {
      hide WellFormed;
      AsciiText(r);
    }
  }

  lemma {:induction false} AsciiText(t: Text)
    requires forall i :: 0 <= i < |t| ==> !IsSurrogate(t[i])
    ensures WellFormed(t)
    decreases |t|
  {
    if t != [] { AsciiText(t[1..]); }
  }

  lemma {:induction false} PrependPiece(x: Piece, xs: seq<Piece>)
    requires ValidPiece(x) && ValidPieces(xs)
    ensures ValidPieces([x] + xs) && Render([x] + xs) == RenderPiece(x) + Render(xs)
    ensures Value([x] + xs) == PieceValue(x) + Value(xs)
  {
    assert ([x] + xs)[1..] == xs;
  }

  lemma {:induction false} FirstPiece(c: CodeUnit)
    requires !IsSurrogate(c)
    ensures c < 0x20 ==>
      var d := Quad(0x30, 0x30, HexDigit(c / 16), HexDigit(c % 16));
      IsHex4(d) && Hex4Value(d) == c && RenderPiece(Hex(d)) == EscapeUnit(c)
  {
  }

  /** Reading starts on the escaped text, whatever stands around it. */
  lemma {:induction false} QuotedStands(before: Text, s: Text, after: Text)
    ensures var t := before + Quoted(s) + after; var p := |before| + 1;
      p + |Escape(s)| < |t| && t[p..p + |Escape(s)|] == Escape(s) && t[p + |Escape(s)|] == QUOTE
  {
    var t := before + Quoted(s) + after;
    assert t == (before + [QUOTE]) + (Escape(s) + ([QUOTE] + after));
  }

  lemma {:induction false} ReadsWellFormed(t: Text, p: nat)
    requires ReadBody(t, p).Ok?
    ensures WellFormed(ReadBody(t, p).value.0)
  {
    var xs := ReadIsLiteral(t, p);
    ValuesAreWellFormed(xs);
  }

  lemma {:induction false} QuoteReadsBack(before: Text, s: Text, after: Text)
    requires WellFormed(s)
    ensures ReadBody(before + Quoted(s) + after, |before| + 1) == Ok((s, |before| + |Quoted(s)|))
  {
    hide ReadBody, Escape, WellFormed, Pieces;
    QuotedStands(before, s, after);
    PiecesMeanText(s);
    ReadsLiteral(before + Quoted(s) + after, |before| + 1, Pieces(s));
  }

  /** quote() and string() undo each other, wherever the quoted text stands, exactly
      for well-formed UTF-16. */
  lemma {:induction false} QuoteReadsBackIff(before: Text, s: Text, after: Text)
    ensures ReadBody(before + Quoted(s) + after, |before| + 1) == Ok((s, |before| + |Quoted(s)|)) <==> WellFormed(s)
  {
    var t, p := before + Quoted(s) + after, |before| + 1;
    if WellFormed(s) {
      QuoteReadsBack(before, s, after);
    } else if ReadBody(t, p).Ok? {
      ReadsWellFormed(t, p);
    }
  }
}
