/** The java.lang.String operations that the map reader and the generator use. */
module TextTools {
  import opened Wrappers
  import opened JsonString

  const INT_MAX := 0x7FFF_FFFF
  const LONG_MAX := 0x7FFF_FFFF_FFFF_FFFF
  const ZERO: CodeUnit := 0x30
  const COMMA_UNIT: CodeUnit := 0x2C

  /** The text of an ASCII constant. */
  function Lit(s: string): (t: Text)
    ensures |t| == |s|
  {
    seq(|s|, i requires 0 <= i < |s| => if s[i] as int < 0x80 then s[i] as int else 0)
  }

  predicate StartsWith(t: Text, prefix: Text) { |prefix| <= |t| && t[..|prefix|] == prefix }

  // ------------------------------------------------------------------
  // UTF-8 length
  // ------------------------------------------------------------------

  /** getBytes(UTF_8).length; an unpaired surrogate is replaced by one byte. */
  function Utf8Length(t: Text): nat
    decreases |t|
  {
    if t == [] then 0
    else if IsHigh(t[0]) && |t| > 1 && IsLow(t[1]) then 4 + Utf8Length(t[2..])
    else (if t[0] < 0x80 || IsSurrogate(t[0]) then 1 else if t[0] < 0x800 then 2 else 3) + Utf8Length(t[1..])
  }

  /** Bytes add up where no surrogate pair is cut. */
  lemma {:induction false} Utf8LengthAdds(a: Text, b: Text)
    requires b != [] ==> !IsLow(b[0])
    ensures Utf8Length(a + b) == Utf8Length(a) + Utf8Length(b)
    decreases |a|
  {
    if a == [] {
      assert a + b == b;
    } else if IsHigh(a[0]) && |a| > 1 && IsLow(a[1]) {
      Utf8LengthAdds(a[2..], b);
      assert (a + b)[2..] == a[2..] + b;
    } else {
      Utf8LengthAdds(a[1..], b);
      assert (a + b)[1..] == a[1..] + b;
    }
  }

  lemma {:induction false} Utf8LengthOfAscii(t: Text)
    requires forall i :: 0 <= i < |t| ==> t[i] < 0x80
    ensures Utf8Length(t) == |t|
    decreases |t|
  {
    if t != [] { Utf8LengthOfAscii(t[1..]); }
  }

  /** Only the empty text has no bytes. */
  lemma {:induction false} NoBytesIff(t: Text)
    ensures Utf8Length(t) == 0 <==> t == []
  {
  }

  // ------------------------------------------------------------------
  // trim and split
  // ------------------------------------------------------------------

  function TrimStart(t: Text): Text {
    if t != [] && t[0] <= 0x20 then TrimStart(t[1..]) else t
  }

  function TrimEnd(t: Text): Text {
    if t != [] && t[|t| - 1] <= 0x20 then TrimEnd(t[..|t| - 1]) else t
  }

  /** trim() */
  function Trim(t: Text): Text { TrimEnd(TrimStart(t)) }

  /** trim() takes blanks from both ends and leaves none there. */
  lemma {:induction false} TrimMeans(t: Text) returns (a: nat, b: nat)
    ensures a <= b <= |t| && Trim(t) == t[a..b]
    ensures forall i :: 0 <= i < a || b <= i < |t| ==> t[i] <= 0x20
    ensures a < b ==> t[a] > 0x20 && t[b - 1] > 0x20
  {
    a := TrimStartMeans(t);
    b := TrimEndMeans(t[a..]);
    assert t[a..][..b] == t[a..a + b];
    forall i | a + b <= i < |t| ensures t[i] <= 0x20 {
      assert t[a..][i - a] == t[i];
    }
    b := a + b;
  }

  lemma {:induction false} TrimStartMeans(t: Text) returns (a: nat)
    ensures a <= |t| && TrimStart(t) == t[a..] && (a < |t| ==> t[a] > 0x20)
    ensures forall i :: 0 <= i < a ==> t[i] <= 0x20
    decreases |t|
  {
    a := 0;
    if t != [] && t[0] <= 0x20 {
      a := TrimStartMeans(t[1..]);
      a := a + 1;
    }
  }

  lemma {:induction false} TrimEndMeans(t: Text) returns (b: nat)
    ensures b <= |t| && TrimEnd(t) == t[..b] && (b > 0 ==> t[b - 1] > 0x20)
    ensures forall i :: b <= i < |t| ==> t[i] <= 0x20
    decreases |t|
  {
    b := |t|;
    if t != [] && t[|t| - 1] <= 0x20 {
      b := TrimEndMeans(t[..|t| - 1]);
      assert t[..|t| - 1][..b] == t[..b];
    } else {
      assert t[..b] == t;
    }
  }

  /** split(sep, -1) for a separator of one unit. */
  function SplitOn(t: Text, sep: CodeUnit): (parts: seq<Text>)
    ensures |parts| >= 1
  {
    if t == [] then [[]]
    else
      var rest := SplitOn(t[1..], sep);
      if t[0] == sep then [[]] + rest else [[t[0]] + rest[0]] + rest[1..]
  }

  function JoinWith(parts: seq<Text>, sep: CodeUnit): Text
    requires |parts| >= 1
  {
    if |parts| == 1 then parts[0] else parts[0] + [sep] + JoinWith(parts[1..], sep)
  }

  /** Splitting loses nothing and leaves no separator in a part. */
  lemma {:induction false} SplitJoins(t: Text, sep: CodeUnit)
    ensures JoinWith(SplitOn(t, sep), sep) == t
    ensures forall i :: 0 <= i < |SplitOn(t, sep)| ==> sep !in SplitOn(t, sep)[i]
    decreases |t|
  {
    if t != [] {
      var rest := SplitOn(t[1..], sep);
      SplitJoins(t[1..], sep);
      if t[0] == sep {
        assert ([[]] + rest)[1..] == rest;
      } else {
        var parts := [[t[0]] + rest[0]] + rest[1..];
        assert parts[1..] == rest[1..];
        assert JoinWith(parts, sep) == [t[0]] + JoinWith(rest, sep);
      }
    }
  }

  lemma {:induction false} SplitWithout(t: Text, sep: CodeUnit)
    requires sep !in t
    ensures SplitOn(t, sep) == [t]
    decreases |t|
  {
    if t != [] {
      SplitWithout(t[1..], sep);
      assert [t[0]] + t[1..] == t;
    }
  }

  lemma {:induction false} SplitFirst(a: Text, sep: CodeUnit, rest: Text)
    requires sep !in a
    ensures SplitOn(a + [sep] + rest, sep) == [a] + SplitOn(rest, sep)
    decreases |a|
  {
    var t := a + [sep] + rest;
    if a == [] {
      assert t[1..] == rest;
    } else {
      SplitFirst(a[1..], sep, rest);
      assert t[1..] == a[1..] + [sep] + rest;
      assert [a[0]] + a[1..] == a;
    }
  }

  /** Joining and then splitting gives the parts back when no part has the separator. */
  lemma {:induction false} SplitOfJoin(parts: seq<Text>, sep: CodeUnit)
    requires |parts| >= 1 && forall i :: 0 <= i < |parts| ==> sep !in parts[i]
    ensures SplitOn(JoinWith(parts, sep), sep) == parts
    decreases |parts|
  {
    if |parts| == 1 {
      SplitWithout(parts[0], sep);
    } else {
      SplitOfJoin(parts[1..], sep);
      SplitFirst(parts[0], sep, JoinWith(parts[1..], sep));
    }
  }

  // ------------------------------------------------------------------
  // Well-formed UTF-16 is kept
  // ------------------------------------------------------------------

  lemma {:induction false} AsciiIsWellFormed(t: Text)
    requires forall i :: 0 <= i < |t| ==> t[i] < 0x80
    ensures WellFormed(t)
    decreases |t|
  {
    if t != [] { AsciiIsWellFormed(t[1..]); }
  }

  lemma {:induction false} DropWellFormed(t: Text, n: nat)
    requires WellFormed(t) && n <= |t| && forall i :: 0 <= i < n ==> !IsHigh(t[i])
    ensures WellFormed(t[n..])
    decreases n
  {
    if n > 0 {
      DropWellFormed(t[1..], n - 1);
      assert t[1..][n - 1..] == t[n..];
    } else {
      assert t[n..] == t;
    }
  }

  lemma {:induction false} InitWellFormed(t: Text)
    requires t != [] && WellFormed(t) && !IsSurrogate(t[|t| - 1])
    ensures WellFormed(t[..|t| - 1])
    decreases |t|
  {
    if |t| > 1 {
      var n := if IsHigh(t[0]) then 2 else 1;
      InitWellFormed(t[n..]);
      assert t[..|t| - 1][n..] == t[n..][..|t[n..]| - 1];
    }
  }

  lemma {:induction false} TrimStartWellFormed(t: Text)
    requires WellFormed(t)
    ensures WellFormed(TrimStart(t))
    decreases |t|
  {
    if t != [] && t[0] <= 0x20 { TrimStartWellFormed(t[1..]); }
  }

  lemma {:induction false} TrimEndWellFormed(t: Text)
    requires WellFormed(t)
    ensures WellFormed(TrimEnd(t))
    decreases |t|
  {
    if t != [] && t[|t| - 1] <= 0x20 {
      InitWellFormed(t);
      TrimEndWellFormed(t[..|t| - 1]);
    }
  }

  lemma {:induction false} TrimWellFormed(t: Text)
    requires WellFormed(t)
    ensures WellFormed(Trim(t))
  {
    TrimStartWellFormed(t);
    TrimEndWellFormed(TrimStart(t));
  }

  predicate AllWellFormed(parts: seq<Text>) {
    forall i :: 0 <= i < |parts| ==> WellFormed(parts[i])
  }

  lemma {:induction false} SplitBehindPair(t: Text, sep: CodeUnit)
    requires |t| >= 2 && t[0] != sep && t[1] != sep
    ensures var rest := SplitOn(t[2..], sep); SplitOn(t, sep) == [[t[0], t[1]] + rest[0]] + rest[1..]
  {
    assert t[1..][1..] == t[2..];
    assert [t[0]] + ([t[1]] + SplitOn(t[2..], sep)[0]) == [t[0], t[1]] + SplitOn(t[2..], sep)[0];
  }

  lemma {:induction false} SplitWellFormed(t: Text, sep: CodeUnit)
    requires WellFormed(t) && !IsSurrogate(sep)
    ensures AllWellFormed(SplitOn(t, sep))
    decreases |t|
  {
    if t != [] {
      if IsHigh(t[0]) {
        SplitWellFormed(t[2..], sep);
        SplitBehindPair(t, sep);
        var rest := SplitOn(t[2..], sep);
        var parts := SplitOn(t, sep);
        assert parts[0][2..] == rest[0];
        assert parts[1..] == rest[1..];
        forall i | 0 <= i < |parts| ensures WellFormed(parts[i]) {
          if i > 0 { assert parts[i] == rest[i]; }
        }
      } else {
        SplitWellFormed(t[1..], sep);
        var rest := SplitOn(t[1..], sep);
        var parts := SplitOn(t, sep);
        if t[0] != sep {
          assert parts[0][1..] == rest[0];
          forall i | 0 <= i < |parts| ensures WellFormed(parts[i]) {
            if i > 0 { assert parts[i] == rest[i]; }
          }
        }
      }
    }
  }

  // ------------------------------------------------------------------
  // Decimal numbers
  // ------------------------------------------------------------------

  predicate IsDigit(u: CodeUnit) { 0x30 <= u <= 0x39 }

  predicate AllDigits(t: Text) { forall i :: 0 <= i < |t| ==> IsDigit(t[i]) }

  function Number(t: Text): nat
    requires AllDigits(t)
  {
    if t == [] then 0 else 10 * Number(t[..|t| - 1]) + (t[|t| - 1] - ZERO)
  }

  /** parseInt and parseLong: an optional sign, at least one digit, within the range. */
  function ParseDecimal(t: Text, max: int): (r: Option<int>)
    ensures r.Some? ==> -max - 1 <= r.value <= max
  {
    var signed := t != [] && (t[0] == 0x2D || t[0] == 0x2B);
    var digits := if signed then t[1..] else t;
    if digits == [] || !AllDigits(digits) then None
    else
      var n: int := if signed && t[0] == 0x2D then -(Number(digits) as int) else Number(digits);
      if -max - 1 <= n <= max then Some(n) else None
  }

  function Decimal(n: nat): (t: Text)
    ensures t != [] && AllDigits(t)
  {
    if n < 10 then [ZERO + n] else Decimal(n / 10) + [ZERO + n % 10]
  }

  /** Printing and parsing a number undo each other within the range, with or without a
      sign; beyond it parsing fails. */
  lemma {:induction false} ParsesDecimal(n: nat, max: nat)
    ensures ParseDecimal(Decimal(n), max) == ParseDecimal([0x2B] + Decimal(n), max) == (if n <= max then Some(n) else None)
    ensures ParseDecimal([0x2D] + Decimal(n), max) == if n <= max + 1 then Some(-(n as int)) else None
  {
    DecimalMeans(n);
    assert ([0x2B] + Decimal(n))[1..] == Decimal(n);
    assert ([0x2D] + Decimal(n))[1..] == Decimal(n);
    assert IsDigit(Decimal(n)[0]);
  }

  function Zeros(n: nat): (t: Text)
    ensures |t| == n && AllDigits(t)
  {
    if n == 0 then [] else Zeros(n - 1) + [ZERO]
  }

  /** String.format("%0<width>d", n) */
  function Padded(width: nat, n: nat): (t: Text)
    ensures AllDigits(t)
  {
    var d := Decimal(n);
    (if |d| < width then Zeros(width - |d|) else []) + d
  }

  lemma {:induction false} LeadingZeros(k: nat, t: Text)
    requires AllDigits(t)
    ensures Number(Zeros(k) + t) == Number(t)
    decreases |t| + k
  {
    if t != [] {
      LeadingZeros(k, t[..|t| - 1]);
      assert (Zeros(k) + t)[..k + |t| - 1] == Zeros(k) + t[..|t| - 1];
    } else if k > 0 {
      assert Zeros(k) + t == Zeros(k);
      assert Zeros(k)[..k - 1] == Zeros(k - 1) + [];
      LeadingZeros(k - 1, []);
    } else {
      assert Zeros(k) + t == t;
    }
  }

  lemma {:induction false} DecimalMeans(n: nat)
    ensures Number(Decimal(n)) == n
    decreases n
  {
    var d := Decimal(n);
    if n >= 10 {
      DecimalMeans(n / 10);
      assert d[..|d| - 1] == Decimal(n / 10);
    } else {
      assert d[..0] == [];
    }
  }

  /** Padding keeps the number, so different numbers have different texts. */
  lemma {:induction false} PaddedMeans(width: nat, n: nat)
    ensures Number(Padded(width, n)) == n
  {
    DecimalMeans(n);
    var d := Decimal(n);
    if |d| < width {
      LeadingZeros(width - |d|, d);
    } else {
      assert [] + d == d;
    }
  }

  function Pow10(k: nat): nat { if k == 0 then 1 else 10 * Pow10(k - 1) }

  /** The number of digits: d digits exactly from 10^(d-1) to 10^d - 1. */
  lemma {:induction false} DecimalLength(n: nat, k: nat)
    requires k >= 1
    ensures |Decimal(n)| <= k <==> n < Pow10(k)
    decreases n
  {
    if n < 10 {
      Pow10Positive(k - 1);
    } else if k == 1 {
      assert Pow10(1) == 10 * Pow10(0);
    } else {
      DecimalLength(n / 10, k - 1);
    }
  }

  lemma {:induction false} Pow10Positive(k: nat)
    ensures Pow10(k) >= 1
    decreases k
  {
    if k > 0 { Pow10Positive(k - 1); }
  }

  /** A padded number has exactly the width, unless it needs more digits. */
  lemma {:induction false} PaddedLengthIff(width: nat, n: nat)
    requires width >= 1
    ensures |Padded(width, n)| >= width
    ensures |Padded(width, n)| == width <==> n < Pow10(width)
  {
    DecimalLength(n, width);
  }

  lemma {:induction false} PaddedSnoc(width: nat, n: nat)
    requires width >= 2
    ensures Padded(width, n) == Padded(width - 1, n / 10) + [ZERO + n % 10]
  {
    if n < 10 {
      assert Padded(width - 1, 0) == Zeros(width - 1) by {
        if width == 2 { assert Zeros(1) == [] + [ZERO]; }
      }
    } else if |Decimal(n)| < width {
      assert Zeros(width - |Decimal(n)|) + (Decimal(n / 10) + [ZERO + n % 10])
          == (Zeros(width - |Decimal(n)|) + Decimal(n / 10)) + [ZERO + n % 10];
    }
  }

  /** Digits are the padded form of their number. */
  lemma {:induction false} DigitsArePadded(t: Text)
    requires t != [] && AllDigits(t)
    ensures Padded(|t|, Number(t)) == t
    decreases |t|
  {
    var init := t[..|t| - 1];
    if |t| == 1 {
      assert init == [];
    } else {
      DigitsArePadded(init);
      PaddedSnoc(|t|, Number(t));
      assert Number(t) / 10 == Number(init) && Number(t) % 10 == t[|t| - 1] - ZERO;
      assert t == init + [t[|t| - 1]];
    }
  }
}
