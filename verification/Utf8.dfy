/** UTF-8 itself: section 3 of RFC 3629. The byte counts of the field maps are the lengths of
    what it writes, and it can be undone, as the agents assume of their character set. */
module Utf8 {
  import opened Journal
  import opened JsonString
  import opened TextTools

  /** The code point that the first unit or pair of a well-formed text stands for. */
  function Point(t: Text): (c: int)
    requires t != [] && WellFormed(t)
    ensures 0 <= c <= 0x10_FFFF
  {
    if IsHigh(t[0]) then
      var hi: int, lo: int := t[0], t[1];
      0x1_0000 + 0x400 * (hi - 0xD800) + (lo - 0xDC00)
    else t[0]
  }

  function Units(t: Text): nat
    requires t != []
  {
    if IsHigh(t[0]) then 2 else 1
  }

  function Continuation(n: int): byte { (0x80 + n % 0x40) as byte }

  function EncodePoint(c: int): (b: Bytes)
    requires 0 <= c <= 0x10_FFFF
    ensures b != []
  {
    if c < 0x80 then [c as byte]
    else if c < 0x800 then [(0xC0 + c / 0x40) as byte, Continuation(c)]
    else if c < 0x1_0000 then [(0xE0 + c / 0x1000) as byte, Continuation(c / 0x40), Continuation(c)]
    else [(0xF0 + c / 0x4_0000) as byte, Continuation(c / 0x1000), Continuation(c / 0x40), Continuation(c)]
  }

  function Encode(t: Text): Bytes
    requires WellFormed(t)
    decreases |t|
  {
    if t == [] then [] else EncodePoint(Point(t)) + Encode(t[Units(t)..])
  }

  /** The byte counts of validate() are those of UTF-8. */
  lemma {:induction false} EncodesToLength(t: Text)
    requires WellFormed(t)
    ensures |Encode(t)| == Utf8Length(t)
    decreases |t|
  {
    if t != [] { EncodesToLength(t[Units(t)..]); }
  }

  /** The point that begins a text of bytes. */
  function Value(b: Bytes): int
    requires b != []
  {
    var n := b[0] as int;
    if n < 0xC0 then n
    else if n < 0xE0 then (if |b| < 2 then 0 else 0x40 * (n - 0xC0) + (b[1] as int - 0x80))
    else if n < 0xF0 then (if |b| < 3 then 0 else 0x1000 * (n - 0xE0) + 0x40 * (b[1] as int - 0x80) + (b[2] as int - 0x80))
    else if |b| < 4 then 0
    else 0x4_0000 * (n - 0xF0) + 0x1000 * (b[1] as int - 0x80) + 0x40 * (b[2] as int - 0x80) + (b[3] as int - 0x80)
  }

  function Width(c: int): nat { if c < 0x80 then 1 else if c < 0x800 then 2 else if c < 0x1_0000 then 3 else 4 }

  lemma {:induction false} PointIsRead(c: int, rest: Bytes)
    requires 0 <= c <= 0x10_FFFF
    ensures Value(EncodePoint(c) + rest) == c && |EncodePoint(c)| == Width(c)
  {
    assert c / 0x40 == 0x40 * (c / 0x1000) + c / 0x40 % 0x40;
    assert c / 0x1000 == 0x40 * (c / 0x4_0000) + c / 0x1000 % 0x40;
    assert c == 0x40 * (c / 0x40) + c % 0x40;
  }

  /** The same point means the same first units. */
  lemma {:induction false} PointsAreUnits(t: Text, u: Text)
    requires t != [] && u != [] && WellFormed(t) && WellFormed(u) && Point(t) == Point(u)
    ensures Units(t) == Units(u) && t[..Units(t)] == u[..Units(u)]
  {
  }

  /** Different well-formed texts are written differently: encoding can be undone. */
  lemma {:induction false} EncodingIsInjective(t: Text, u: Text)
    requires WellFormed(t) && WellFormed(u) && Encode(t) == Encode(u)
    ensures t == u
    decreases |t|
  {
    hide EncodePoint, Value, Point, Width;
    if t != [] && u != [] {
      var a, b := Point(t), Point(u);
      var s, v := t[Units(t)..], u[Units(u)..];
      PointIsRead(a, Encode(s));
      PointIsRead(b, Encode(v));
      assert a == b;
      assert Encode(s) == Encode(t)[|EncodePoint(a)|..] == Encode(u)[|EncodePoint(b)|..] == Encode(v);
      PointsAreUnits(t, u);
      EncodingIsInjective(s, v);
      assert t == t[..Units(t)] + s && u == u[..Units(u)] + v;
    }
  }

  /** There is a decoder: it returns well-formed text for all bytes and undoes encoding. */
  lemma {:induction false} DecoderExists() returns (decode: Bytes -> Text, encode: Text -> Bytes)
    ensures forall b: Bytes :: WellFormed(decode(b))
    ensures forall t: Text :: WellFormed(t) ==> encode(t) == Encode(t) && decode(encode(t)) == t
  {
    hide Encode, WellFormed;
    AsciiIsWellFormed([]);
    encode := (t: Text) => if WellFormed(t) then Encode(t) else [];
    decode := (b: Bytes) =>
      if exists t: Text :: WellFormed(t) && Encode(t) == b then (var t: Text :| WellFormed(t) && Encode(t) == b; t) else [];
    forall t: Text | WellFormed(t) ensures decode(encode(t)) == t {
      forall u: Text | WellFormed(u) && Encode(u) == Encode(t) ensures u == t {
        EncodingIsInjective(u, t);
      }
    }
  }
}
