/** JsonAudit.Parser: a text and the position its methods advance. */
module JsonParser {
  import opened JsonString
  import opened JsonObject

  class Parser {
    const text: Text
    var position: nat

    predicate Valid()
      reads this
    {
      position <= |text|
    }

    constructor (text: Text)
      ensures Valid() && this.text == text && position == 0
    {
      this.text := text;
      position := 0;
    }

    /** whitespace() */
    method Whitespace()
      requires Valid()
      modifies this`position
      ensures Valid() && position == SkipSpace(text, old(position))
    {
      while position < |text| && IsSpace(text[position])
        invariant Valid() && SkipSpace(text, position) == SkipSpace(text, old(position))
      {
        position := position + 1;
      }
    }

    /** take() */
    method Take(expected: CodeUnit) returns (taken: bool)
      requires Valid()
      modifies this`position
      ensures Valid() && taken == Takes(text, old(position), expected)
      ensures position == SkipSpace(text, old(position)) + if taken then 1 else 0
    {
      Whitespace();
      if position < |text| && text[position] == expected {
        position := position + 1;
        return true;
      }
      return false;
    }

    /** expect() */
    method Expect(expected: CodeUnit) returns (failed: bool)
      requires Valid()
      modifies this`position
      ensures Valid() && failed == !Takes(text, old(position), expected)
      ensures position == SkipSpace(text, old(position)) + if failed then 0 else 1
    {
      var taken := Take(expected);
      failed := !taken;
    }

    /** hex4() */
    method Hex4() returns (r: Result<CodeUnit>)
      requires Valid()
      modifies this`position
      ensures Valid() && old(position) <= position
      ensures match ReadHex4(text, old(position))
              case Error(kind) => r == Error(kind)
              case Ok(q) => r == Ok(Hex4Value(q)) && position == old(position) + 4
    {
      if position + 4 > |text| {
        return Error(IncompleteUnicode);
      }
      var result := 0;
      ghost var p := position;
      for i := 0 to 4
        invariant position == p + i <= |text|
        invariant forall k :: p <= k < p + i ==> Digit(text[k]) >= 0
        invariant 0 <= result
        invariant i == 1 ==> result == Digit(text[p])
        invariant i == 2 ==> result == 0x10 * Digit(text[p]) + Digit(text[p + 1])
        invariant i == 3 ==> result == 0x100 * Digit(text[p]) + 0x10 * Digit(text[p + 1]) + Digit(text[p + 2])
        invariant i == 4 ==> result == 0x1000 * Digit(text[p]) + 0x100 * Digit(text[p + 1])
                                       + 0x10 * Digit(text[p + 2]) + Digit(text[p + 3])
        invariant i == 0 ==> result == 0
      {
        var digit := Digit(text[position]);
        position := position + 1;
        if digit < 0 {
          return Error(InvalidUnicode);
        }
        result := 16 * result + digit;
      }
      return Ok(result);
    }

    /** What string() does after a backslash and a u. */
    method Unicode() returns (r: Result<Text>)
      requires Valid()
      modifies this`position
      ensures Valid() && old(position) <= position
      ensures match ReadUnicode(text, old(position))
              case Error(kind) => r == Error(kind)
              case Ok(x) => ValidPiece(x) && r == Ok(PieceValue(x)) && position + 2 == old(position) + |RenderPiece(x)|
    {
      var first := Hex4();
      if first.Error? {
        return Error(first.kind);
      }
      if IsHigh(first.value) {
        if position + 2 > |text| {
          return Error(MissingLow);
        }
        position := position + 2;
        if text[position - 2] != BACKSLASH || text[position - 1] != LETTER_U {
          return Error(MissingLow);
        }
        var second := Hex4();
        if second.Error? {
          return Error(second.kind);
        }
        if !IsLow(second.value) {
          return Error(InvalidLow);
        }
        return Ok([first.value, second.value]);
      } else if IsLow(first.value) {
        return Error(UnpairedLow);
      }
      return Ok([first.value]);
    }

    /** string() */
    method String() returns (r: Result<Text>)
      requires Valid()
      modifies this`position
      ensures Valid() && old(position) <= position
      ensures match ReadString(text, old(position))
              case Error(kind) => r == Error(kind)
              case Ok((value, end)) => r == Ok(value) && position == end
    {
      hide ReadPiece, ReadBody, PieceValue, RenderPiece, ValidPiece, ReadUnicode;
      var failed := Expect(QUOTE);
      if failed {
        return Error(Expected(QUOTE));
      }
      var value: Text := [];
      ghost var start := position;
      assert ReadBody(text, start) == Prefixed([], ReadBody(text, start)) by { PrefixedNothing(ReadBody(text, start)); }
      while position < |text|
        invariant Valid() && start <= position
        invariant ReadBody(text, start) == Prefixed(value, ReadBody(text, position))
      {
        ghost var p := position;
        BodyStep(text, p, value);
        if text[position] == QUOTE {
          position := position + 1;
          return Ok(value);
        }
        var x := Piece();
        if x.Error? {
          return Error(x.kind);
        }
        value := value + x.value;
      }
      BodyEnds(text, position);
      return Error(Unterminated);
    }

    /** One turn of the loop of string(): what is appended to the value. */
    method Piece() returns (r: Result<Text>)
      requires Valid() && position < |text| && text[position] != QUOTE
      modifies this`position
      ensures Valid() && old(position) < position
      ensures match ReadPiece(text, old(position))
              case Error(kind) => r == Error(kind)
              case Ok(x) => ValidPiece(x) && r == Ok(PieceValue(x)) && position == old(position) + |RenderPiece(x)|
    {
      var c := text[position];
      position := position + 1;
      if c < 0x20 {
        return Error(ControlCharacter);
      }
      if c != BACKSLASH {
        if IsHigh(c) {
          if position >= |text| || !IsLow(text[position]) {
            return Error(UnpairedHigh);
          }
          position := position + 1;
          return Ok([c, text[position - 1]]);
        } else if IsLow(c) {
          return Error(UnpairedLow);
        }
        return Ok([c]);
      }
      if position >= |text| {
        return Error(IncompleteEscape);
      }
      var escaped := text[position];
      position := position + 1;
      if escaped == LETTER_U {
        r := Unicode();
      } else if escaped == QUOTE || escaped == BACKSLASH || escaped == 0x2F {
        r := Ok([escaped]);
      } else if escaped == 0x62 {
        r := Ok([8]);
      } else if escaped == 0x66 {
        r := Ok([12]);
      } else if escaped == 0x6E {
        r := Ok([10]);
      } else if escaped == 0x72 {
        r := Ok([13]);
      } else if escaped == 0x74 {
        r := Ok([9]);
      } else {
        r := Error(InvalidEscape);
      }
    }

    /** One key, its colon and its value in the loop of object(). */
    method Member() returns (r: Result<(Text, Text)>)
      requires Valid()
      modifies this`position
      ensures Valid() && old(position) <= position
      ensures match ReadMember(text, old(position))
              case Error(kind) => r == Error(kind)
              case Ok((entry, end)) => r == Ok(entry) && position == end
    {
      hide SkipSpace, ReadString, Takes, IsSpace;
      Whitespace();
      var key := String();
      if key.Error? {
        return Error(key.kind);
      }
      var failed := Expect(COLON);
      if failed {
        return Error(Expected(COLON));
      }
      Whitespace();
      if position >= |text| || text[position] != QUOTE {
        return Error(NotAString);
      }
      var value := String();
      if value.Error? {
        return Error(value.kind);
      }
      return Ok((key.value, value.value));
    }

    /** object() */
    method Object() returns (r: Result<Entries>)
      requires position == 0
      modifies this`position
      ensures Valid() && r == ReadObject(text)
    {
      hide SkipSpace, ReadMember, Takes, Has;
      var values: Entries := [];
      var failed := Expect(OPEN);
      if failed {
        return Error(Expected(OPEN));
      }
      var closed := Take(CLOSE);
      if closed {
        Whitespace();
        return if position != |text| then Error(TrailingData) else Ok(values);
      }
      ghost var p := SkipSpace(text, 0) + 1;
      SkipTwice(text, p);
      SkipBefore(text, p, values);
      while true
        invariant Valid() && ReadObject(text) == ReadMembers(text, position, values)
        decreases |text| - position
      {
        p := position;
        var entry := Member();
        if entry.Error? {
          return Error(entry.kind);
        }
        if Has(values, entry.value.0) {
          return Error(DuplicateKey);
        }
        values := values + [entry.value];
        p := position;
        closed := Take(CLOSE);
        if closed {
          Whitespace();
          return if position != |text| then Error(TrailingData) else Ok(values);
        }
        SkipTwice(text, p);
        failed := Expect(COMMA);
        if failed {
          return Error(Expected(COMMA));
        }
      }
    }
  }

  /** parseObject() */
  method ParseObject(json: Text) returns (r: Result<Entries>)
    ensures r == ReadObject(json)
  {
    var parser := new Parser(json);
    r := parser.Object();
  }

  function Prefixed(v: Text, r: Result<(Text, nat)>): Result<(Text, nat)> {
    match r
    case Error(kind) => r
    case Ok((w, end)) => Ok((v + w, end))
  }

  lemma {:induction false} PrefixedNothing(r: Result<(Text, nat)>)
    ensures Prefixed([], r) == r
  {
    if r.Ok? { assert [] + r.value.0 == r.value.0; }
  }

  lemma {:induction false} BodyEnds(t: Text, p: nat)
    requires p >= |t|
    ensures ReadBody(t, p) == Error(Unterminated)
  {
  }

  /** One turn of the loop of string() with the value collected so far. */
  lemma {:induction false} BodyStep(t: Text, p: nat, v: Text)
    requires p < |t|
    ensures t[p] == QUOTE ==> Prefixed(v, ReadBody(t, p)) == Ok((v, p + 1))
    ensures t[p] != QUOTE ==>
      match ReadPiece(t, p)
      case Error(kind) => Prefixed(v, ReadBody(t, p)) == Error(kind)
      case Ok(x) =>
        (&& ValidPiece(x)
         && Prefixed(v, ReadBody(t, p)) == Prefixed(v + PieceValue(x), ReadBody(t, p + |RenderPiece(x)|)))
  {
    hide ReadPiece, PieceValue, RenderPiece, ValidPiece;
    if t[p] == QUOTE {
      assert v + [] == v;
    } else {
      ReadStep(t, p);
      if ReadPiece(t, p).Ok? {
        var x := ReadPiece(t, p).value;
        var rest := ReadBody(t, p + |RenderPiece(x)|);
        if rest.Ok? {
          assert v + (PieceValue(x) + rest.value.0) == (v + PieceValue(x)) + rest.value.0;
        }
      }
    }
  }

  lemma {:induction false} SkipTwice(t: Text, p: nat)
    requires p <= |t|
    ensures SkipSpace(t, SkipSpace(t, p)) == SkipSpace(t, p)
    ensures forall c :: Takes(t, SkipSpace(t, p), c) == Takes(t, p, c)
  {
  }

  lemma {:induction false} SkipBeforeMember(t: Text, p: nat)
    requires p <= |t|
    ensures ReadMember(t, SkipSpace(t, p)) == ReadMember(t, p)
  {
    hide SkipSpace, ReadString, Takes;
    SkipTwice(t, p);
  }

  /** White space before the first key changes nothing. */
  lemma {:induction false} SkipBefore(t: Text, p: nat, es: Entries)
    requires p <= |t|
    ensures ReadMembers(t, SkipSpace(t, p), es) == ReadMembers(t, p, es)
  {
    hide SkipSpace, ReadMember, Takes, Has;
    SkipBeforeMember(t, p);
  }
}
