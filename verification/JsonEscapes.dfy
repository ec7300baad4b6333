/** What escapes, white space and punctuation mean to the reader, in characters: stated of
    texts, without the functions that the grammar, the reader and the parser share. */
module JsonEscapes {
  import opened JsonString
  import opened JsonObject
  import opened TextTools

  /** The same outcome, `shift` units later. */
  predicate Shifted(a: Result<(Text, nat)>, b: Result<(Text, nat)>, shift: int) {
    if a.Error? then b == Error(a.kind) else b.Ok? && b.value.0 == a.value.0 && b.value.1 == a.value.1 + shift
  }

  /** A unit before what another reader returns. */
  predicate Prepends(units: Text, a: Result<(Text, nat)>, b: Result<(Text, nat)>) {
    if a.Error? then b == Error(a.kind) else b == Ok((units + a.value.0, a.value.1))
  }

  // ------------------------------------------------------------------
  // The reader looks only forward
  // ------------------------------------------------------------------

  lemma {:induction false} SameHex4(t: Text, p: nat, u: Text, q: nat)
    requires p <= |t| && q <= |u| && t[p..] == u[q..]
    ensures ReadHex4(t, p) == ReadHex4(u, q)
  {
    if p + 4 <= |t| {
      assert t[p..][0] == u[q..][0] && t[p..][1] == u[q..][1] && t[p..][2] == u[q..][2] && t[p..][3] == u[q..][3];
    }
  }

  lemma {:induction false} SameUnicode(t: Text, p: nat, u: Text, q: nat)
    requires p <= |t| && q <= |u| && t[p..] == u[q..]
    ensures ReadUnicode(t, p) == ReadUnicode(u, q)
  {
    SameHex4(t, p, u, q);
    if p + 6 <= |t| {
      assert t[p..][4] == u[q..][4] && t[p..][5] == u[q..][5];
      assert t[p + 6..] == t[p..][6..] == u[q..][6..] == u[q + 6..];
      SameHex4(t, p + 6, u, q + 6);
    }
  }

  lemma {:induction false} SamePiece(t: Text, p: nat, u: Text, q: nat)
    requires p < |t| && q < |u| && t[p..] == u[q..]
    ensures t[p] == u[q] && ReadPiece(t, p) == ReadPiece(u, q)
  {
    hide ReadUnicode, ShortValue;
    assert t[p..][0] == u[q..][0];
    if p + 1 < |t| { assert t[p..][1] == u[q..][1]; }
    if p + 2 <= |t| {
      assert t[p + 2..] == t[p..][2..] == u[q..][2..] == u[q + 2..];
      SameUnicode(t, p + 2, u, q + 2);
    }
  }

  lemma {:induction false} AtEnd(t: Text, p: nat)
    ensures p >= |t| ==> ReadBody(t, p) == Error(Unterminated)
    ensures p < |t| && t[p] == QUOTE ==> ReadBody(t, p) == Ok(([], p + 1))
  {
  }

  /** What stands before the position does not matter. */
  lemma {:induction false} SameAhead(t: Text, p: nat, u: Text, q: nat)
    requires p <= |t| && q <= |u| && t[p..] == u[q..]
    ensures Shifted(ReadBody(t, p), ReadBody(u, q), q - p)
    decreases |t| - p
  {
    hide ReadPiece, RenderPiece, PieceValue, ValidPiece, ReadBody;
    AtEnd(t, p);
    AtEnd(u, q);
    if p < |t| {
      SamePiece(t, p, u, q);
      if t[p] != QUOTE {
        ReadStep(t, p);
        ReadStep(u, q);
        if ReadPiece(t, p).Ok? {
          var n := |RenderPiece(ReadPiece(t, p).value)|;
          assert t[p + n..] == t[p..][n..] == u[q..][n..] == u[q + n..];
          SameAhead(t, p + n, u, q + n);
        }
      }
    }
  }

  /** A piece in a text is read, and then what follows it. */
  lemma {:induction false} PieceThenRest(lead: Text, x: Piece, rest: Text)
    requires ValidPiece(x)
    ensures var t := lead + RenderPiece(x) + rest;
      Prepends(PieceValue(x), ReadBody(t, |lead| + |RenderPiece(x)|), ReadBody(t, |lead|))
  {
    hide RenderPiece, PieceValue, ReadPiece, ValidPiece;
    var t, r := lead + RenderPiece(x) + rest, RenderPiece(x);
    assert t[|lead|..|lead| + |r|] == r;
    ReadsPiece(t, |lead|, x);
    ReadStep(t, |lead|);
  }

  // ------------------------------------------------------------------
  // Escapes
  // ------------------------------------------------------------------

  /** Section 7 of RFC 8259: the short escapes, their hexadecimal form, and the unit. */
  const SHORT_FORMS: seq<(string, string, CodeUnit)> := [
    ("\"", "0022", 34), ("\\", "005c", 92), ("/", "002f", 47),
    ("b", "0008", 8), ("t", "0009", 9), ("n", "000a", 10), ("f", "000c", 12), ("r", "000d", 13)]

  const LOWER := "0123456789abcdef"
  const UPPER := "0123456789ABCDEF"

  lemma {:induction false} DigitsAreRead(n: nat)
    requires n < 16
    ensures Digit(Lit(LOWER)[n]) == n && Digit(Lit(UPPER)[n]) == n
  {
  }

  /** The four digits of a number, in one of the two cases of letters. */
  function HexText(c: CodeUnit, digits: string): Text
    requires digits in {LOWER, UPPER}
  {
    [Lit(digits)[c / 0x1000], Lit(digits)[c / 0x100 % 0x10], Lit(digits)[c / 0x10 % 0x10], Lit(digits)[c % 0x10]]
  }

  lemma {:induction false} FourDigits(c: CodeUnit)
    ensures c == 0x1000 * (c / 0x1000) + 0x100 * (c / 0x100 % 0x10) + 0x10 * (c / 0x10 % 0x10) + c % 0x10
    ensures c / 0x1000 < 0x10
  {
    assert c / 0x100 == 0x10 * (c / 0x1000) + c / 0x100 % 0x10;
    assert c / 0x10 == 0x10 * (c / 0x100) + c / 0x10 % 0x10;
  }

  lemma {:induction false} HexTextMeans(c: CodeUnit, digits: string) returns (q: Quad)
    requires digits in {LOWER, UPPER}
    ensures IsHex4(q) && Hex4Value(q) == c && RenderQuad(q) == HexText(c, digits)
  {
    hide Lit, Digit;
    FourDigits(c);
    q := Quad(HexText(c, digits)[0], HexText(c, digits)[1], HexText(c, digits)[2], HexText(c, digits)[3]);
    DigitsAreRead(c / 0x1000);
    DigitsAreRead(c / 0x100 % 0x10);
    DigitsAreRead(c / 0x10 % 0x10);
    DigitsAreRead(c % 0x10);
  }

  /** Wherever it stands, the escape \uXXXX reads as the unit with that number, in upper or
      lower case, unless it is a surrogate; the escapes of a pair read as the pair. */
  lemma {:induction false} HexReads(lead: Text, c: CodeUnit, digits: string, rest: Text)
    requires digits in {LOWER, UPPER} && !(0xD800 <= c < 0xE000)
    ensures var escape := Lit("\\u") + HexText(c, digits); var t := lead + escape + rest;
      Prepends([c], ReadBody(t, |lead| + 6), ReadBody(t, |lead|))
  {
    hide Lit, HexText;
    var q := HexTextMeans(c, digits);
    BackslashU();
    assert RenderPiece(Hex(q)) == Lit("\\u") + HexText(c, digits);
    PieceThenRest(lead, Hex(q), rest);
  }

  lemma {:induction false} BackslashU()
    ensures Lit("\\u") == [BACKSLASH, LETTER_U]
  {
  }

  /** The surrogate pair of a code point beyond 16 bits. */
  function HighOf(point: int): CodeUnit
    requires 0x1_0000 <= point <= 0x10_FFFF
  {
    0xD800 + (point - 0x1_0000) / 0x400
  }

  function LowOf(point: int): CodeUnit
    requires 0x1_0000 <= point <= 0x10_FFFF
  {
    0xDC00 + (point - 0x1_0000) % 0x400
  }

  /** Pairs of a high and a low surrogate are the code points from 0x10000 to 0x10FFFF. */
  lemma {:induction false} PairsArePoints(hi: CodeUnit, lo: CodeUnit)
    ensures IsHigh(hi) && IsLow(lo) <==> exists point :: 0x1_0000 <= point <= 0x10_FFFF && hi == HighOf(point) && lo == LowOf(point)
  {
    if IsHigh(hi) && IsLow(lo) {
      var point := 0x1_0000 + 0x400 * (hi - 0xD800) + (lo - 0xDC00);
      assert hi == HighOf(point) && lo == LowOf(point);
    }
  }

  /** A code point beyond 16 bits is written as two escapes and read as its surrogate pair. */
  lemma {:induction false} HexPairReads(lead: Text, point: int, digits: string, rest: Text)
    requires digits in {LOWER, UPPER} && 0x1_0000 <= point <= 0x10_FFFF
    ensures var escape := Lit("\\u") + HexText(HighOf(point), digits) + (Lit("\\u") + HexText(LowOf(point), digits));
      var t := lead + escape + rest;
      Prepends([HighOf(point), LowOf(point)], ReadBody(t, |lead| + 12), ReadBody(t, |lead|))
  {
    hide Lit, HexText, HighOf, LowOf, Hex4Value, ReadBody;
    var hi, lo := HighOf(point), LowOf(point);
    PairsArePoints(hi, lo);
    var h := HexTextMeans(hi, digits);
    var l := HexTextMeans(lo, digits);
    BackslashU();
    assert RenderPiece(HexPair(h, l)) == Lit("\\u") + HexText(hi, digits) + (Lit("\\u") + HexText(lo, digits));
    PieceThenRest(lead, HexPair(h, l), rest);
  }

  /** Wherever it stands, a short escape reads as its unit, exactly as the hexadecimal escape
      in its place does: both fail with the same error, or the values are the same. */
  lemma {:induction false} ShortReads(lead: Text, k: nat, rest: Text)
    requires k < |SHORT_FORMS|
    ensures var (letter, digits, unit) := SHORT_FORMS[k];
      var t, u := lead + Lit("\\" + letter) + rest, lead + Lit("\\u" + digits) + rest;
      && Prepends([unit], ReadBody(t, |lead| + 2), ReadBody(t, |lead|))
      && Shifted(ReadBody(t, |lead|), ReadBody(u, |lead|), 4)
  {
    hide ReadPiece, RenderPiece, ReadBody;
    var (letter, digits, unit) := SHORT_FORMS[k];
    var short, q := FormPieces(k);
    PieceThenRest(lead, short, rest);
    PieceThenRest(lead, Hex(q), rest);
    var t, u := lead + Lit("\\" + letter) + rest, lead + Lit("\\u" + digits) + rest;
    assert t[|lead| + 2..] == rest == u[|lead| + 6..];
    SameAhead(t, |lead| + 2, u, |lead| + 6);
  }

  lemma {:induction false} FormPieces(k: nat) returns (short: Piece, q: Quad)
    requires k < |SHORT_FORMS|
    ensures var (letter, digits, unit) := SHORT_FORMS[k];
      && short.Short? && ValidPiece(short) && ValidPiece(Hex(q))
      && RenderPiece(short) == Lit("\\" + letter) && RenderPiece(Hex(q)) == Lit("\\u" + digits)
      && PieceValue(short) == PieceValue(Hex(q)) == [unit]
  {
    var (letter, digits, unit) := SHORT_FORMS[k];
    var h := Lit(digits);
    short, q := Short(Lit(letter)[0]), Quad(h[0], h[1], h[2], h[3]);
  }

  /** The same behind any pieces of the string. */
  lemma {:induction false} ShortReadsInside(lead: Text, before: seq<Piece>, k: nat, rest: Text)
    requires ValidPieces(before) && k < |SHORT_FORMS|
    ensures var (letter, digits, unit) := SHORT_FORMS[k];
      Shifted(ReadBody(lead + (Render(before) + (Lit("\\" + letter) + rest)), |lead|),
              ReadBody(lead + (Render(before) + (Lit("\\u" + digits) + rest)), |lead|), 4)
    decreases |before|
  {
    hide ReadBody, ValidPiece, RenderPiece, PieceValue, Lit;
    var (letter, digits, unit) := SHORT_FORMS[k];
    var short, hex := Lit("\\" + letter) + rest, Lit("\\u" + digits) + rest;
    if before == [] {
      ShortReads(lead, k, rest);
      assert lead + (Render(before) + short) == lead + Lit("\\" + letter) + rest;
      assert lead + (Render(before) + hex) == lead + Lit("\\u" + digits) + rest;
    } else {
      var x, xs := before[0], before[1..];
      var next := lead + RenderPiece(x);
      ShortReadsInside(next, xs, k, rest);
      assert lead + (Render(before) + short) == lead + RenderPiece(x) + (Render(xs) + short);
      assert lead + (Render(before) + hex) == lead + RenderPiece(x) + (Render(xs) + hex);
      PieceThenRest(lead, x, Render(xs) + short);
      PieceThenRest(lead, x, Render(xs) + hex);
    }
  }

  // ------------------------------------------------------------------
  // In an object
  // ------------------------------------------------------------------

  lemma {:induction false} ValueParts(xs: seq<Piece>, x: Piece, ys: seq<Piece>)
    requires ValidPieces(xs) && ValidPiece(x) && ValidPieces(ys)
    ensures ValidPieces(xs + [x] + ys) && Value(xs + [x] + ys) == Value(xs) + PieceValue(x) + Value(ys)
    decreases |xs|
  {
    hide ValidPiece, PieceValue;
    if xs == [] {
      assert xs + [x] + ys == [x] + ys;
      PrependPiece(x, ys);
    } else {
      ValueParts(xs[1..], x, ys);
      assert (xs + [x] + ys)[1..] == xs[1..] + [x] + ys;
    }
  }

  lemma {:induction false} SameEntries(ms: seq<Member>, ns: seq<Member>)
    requires ValidMembers(ms) && ValidMembers(ns) && |ms| == |ns|
    requires forall i :: 0 <= i < |ms| ==> EntryOf(ms[i]) == EntryOf(ns[i])
    ensures EntriesOf(ms) == EntriesOf(ns)
    decreases |ms|
  {
    hide EntryOf, ValidMember;
    if ms != [] { SameEntries(ms[1..], ns[1..]); }
  }

  /** In whichever value or key of an object a short escape stands, the object is read as if
      the hexadecimal escape stood there. */
  lemma {:induction false} ShortReadsInObject(d: Document, j: nat, xs: seq<Piece>, ys: seq<Piece>, short: Piece, hex: Piece, inKey: bool)
    requires ValidDocument(d) && j < |d.members| && ValidPieces(xs) && ValidPieces(ys) && ValidPiece(short) && ValidPiece(hex)
    requires (if inKey then d.members[j].key else d.members[j].value) == xs + [short] + ys
    requires exists k :: 0 <= k < |SHORT_FORMS| && RenderPiece(short) == Lit("\\" + SHORT_FORMS[k].0)
                         && RenderPiece(hex) == Lit("\\u" + SHORT_FORMS[k].1)
    ensures var m := d.members[j];
      var n := if inKey then m.(key := xs + [hex] + ys) else m.(value := xs + [hex] + ys);
      var e := d.(members := d.members[j := n]);
      ValidDocument(e) && ReadObject(Show(e)) == ReadObject(Show(d))
  {
    hide ReadObject, Show, Lit, Value;
    var m := d.members[j];
    var n := if inKey then m.(key := xs + [hex] + ys) else m.(value := xs + [hex] + ys);
    var e := d.(members := d.members[j := n]);
    SameFormsMeanTheSame(short, hex);
    ValueParts(xs, short, ys);
    ValueParts(xs, hex, ys);
    SameEntries(d.members, e.members);
    DocumentIsParsed(d);
    DocumentIsParsed(e);
  }

  lemma {:induction false} SameFormsMeanTheSame(short: Piece, hex: Piece)
    requires ValidPiece(short) && ValidPiece(hex)
    requires exists k :: 0 <= k < |SHORT_FORMS| && RenderPiece(short) == Lit("\\" + SHORT_FORMS[k].0)
                         && RenderPiece(hex) == Lit("\\u" + SHORT_FORMS[k].1)
    ensures PieceValue(short) == PieceValue(hex)
  {
    hide ReadBody, ReadPiece, ReadUnicode, RenderPiece, PieceValue, Lit;
    var k :| 0 <= k < |SHORT_FORMS| && RenderPiece(short) == Lit("\\" + SHORT_FORMS[k].0)
             && RenderPiece(hex) == Lit("\\u" + SHORT_FORMS[k].1);
    assert |SHORT_FORMS[k].0| == 1 && |SHORT_FORMS[k].1| == 4;
    ShortReads([], k, [QUOTE]);
    PieceThenRest([], short, [QUOTE]);
    PieceThenRest([], hex, [QUOTE]);
    EmptyString([] + RenderPiece(short), 2);
    EmptyString([] + RenderPiece(hex), 6);
    assert PieceValue(short) + [] == PieceValue(short) && PieceValue(hex) + [] == PieceValue(hex);
  }

  lemma {:induction false} EmptyString(lead: Text, n: nat)
    requires |lead| == n
    ensures ReadBody(lead + [QUOTE], n) == Ok(([], n + 1))
  {
  }

  // ------------------------------------------------------------------
  // White space and punctuation
  // ------------------------------------------------------------------

  /** Section 2 of RFC 8259. */
  const BLANKS := " \t\n\r"

  lemma {:induction false} FourBlanks(u: CodeUnit)
    ensures IsSpace(u) <==> u in Lit(BLANKS)
  {
    var b := Lit(BLANKS);
    assert b == [0x20, 9, 10, 13];
  }

  /** Before an object a blank is skipped, and nothing but the four blanks is. */
  lemma {:induction false} BlankIsSkippedIff(u: CodeUnit, d: Document)
    requires ValidDocument(d)
    ensures u in Lit(BLANKS) ==> ReadObject([u] + Show(d)) == ReadObject(Show(d))
    ensures u !in Lit(BLANKS) ==> ReadObject([u] + Show(d)).Error?
  {
    hide Show, ReadMembers, IsSpace, Lit;
    FourBlanks(u);
    if u in Lit(BLANKS) {
      var e := d.(lead := [u] + d.lead);
      ShowLed(d, u);
      DocumentIsParsed(d);
      DocumentIsParsed(e);
    } else if ReadObject([u] + Show(d)).Ok? {
      NotBlank(u, d);
    }
  }

  lemma {:induction false} ShowLed(d: Document, u: CodeUnit)
    ensures Show(d.(lead := [u] + d.lead)) == [u] + Show(d)
  {
    hide ShowMembers;
  }

  /** Two opening braces are no object. */
  lemma {:induction false} NotBlank(u: CodeUnit, d: Document)
    requires ValidDocument(d) && !IsSpace(u)
    ensures ReadObject([u] + Show(d)).Error?
  {
    hide ShowMembers, ReadMembers, IsSpace;
    var t := [u] + Show(d);
    if u == OPEN {
      ColonIsNoSpace();
      assert At(t, 1, d.lead + [OPEN]);
      TakesOver(t, 1, d.lead, OPEN);
      FirstKeyFails(t, 1);
    }
  }

  lemma {:induction false} FirstKeyFails(t: Text, p: nat)
    requires p <= |t| && Takes(t, p, OPEN)
    ensures ReadMembers(t, p, []).Error?
  {
    hide ReadBody, IsSpace;
    SkipsToItself(t, p);
  }

  lemma {:induction false} SkipsToItself(t: Text, p: nat)
    requires p <= |t|
    ensures SkipSpace(t, SkipSpace(t, p)) == SkipSpace(t, p)
  {
  }

  /** Neither quoted nor escaped, nor a control character: written as it is. */
  predicate IsPlain(t: Text) { forall i :: 0 <= i < |t| ==> t[i] >= 32 && t[i] != 34 && t[i] != 92 }

  lemma {:induction false} PlainIsKept(t: Text)
    requires IsPlain(t)
    ensures Quoted(t) == Lit("\"") + t + Lit("\"")
  {
    PlainEscape(t);
  }

  lemma {:induction false} PlainEscape(t: Text)
    requires IsPlain(t)
    ensures Escape(t) == t
  {
    if t != [] {
      PlainEscape(t[..|t| - 1]);
      assert t == t[..|t| - 1] + [t[|t| - 1]];
    }
  }

  /** A record is its fields in order, each "name":"value", between braces and separated by
      commas, without white space. */
  lemma {:induction false} RecordLooksLike(es: Entries, name: Text, value: Text)
    requires IsPlain(name) && IsPlain(value)
    ensures Record([]) == Lit("{}")
    ensures var field := Lit("\"") + name + Lit("\":\"") + value + Lit("\"");
      && Record([(name, value)]) == Lit("{") + field + Lit("}")
      && (es != [] ==> Record(es + [(name, value)]) == Record(es)[..|Record(es)| - 1] + Lit(",") + field + Lit("}"))
  {
    hide Quoted;
    PlainIsKept(name);
    PlainIsKept(value);
    var field := Lit("\"") + name + Lit("\":\"") + value + Lit("\"");
    assert Lit("\"") + [COLON] + Lit("\"") == Lit("\":\"");
    assert FieldText((name, value)) == field;
    assert [(name, value)][..0] == [];
    assert (es + [(name, value)])[..|es|] == es;
  }
}
