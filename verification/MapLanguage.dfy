/** The language of the map files as text: a line of six columns, and the generator rules. */
module MapLanguage {
  import opened Wrappers
  import opened JsonString
  import opened TextTools
  import opened FieldMap
  import opened Generator

  // ------------------------------------------------------------------
  // A line
  // ------------------------------------------------------------------

  /** The six columns say this of the field, each with blanks around it. */
  predicate Columns(cs: seq<Text>, f: Field) {
    && |cs| == 6 && (forall i :: 0 <= i < 6 ==> '|' as int !in cs[i])
    && Trim(cs[0]) == f.name && f.name != [] && Utf8Length(f.name) < 128
    && Trim(cs[1]) == Lit(match f.lengthType case EXACT => "EXACT" case MAX => "MAX")
    && ParseDecimal(Trim(cs[2]), INT_MAX) == Some(f.length) && 1 <= f.length <= 2047
    && Trim(cs[3]) == Lit(if f.required then "Y" else "N")
    && Trim(cs[4]) == f.validation
    && (f.validation == Lit("ANY") || f.validation == Lit("DATETIME14") || StartsWith(f.validation, Lit("ENUM:")))
    && Trim(cs[5]) == f.generator && f.generator != []
  }

  lemma {:induction false} WordsDiffer()
    ensures Lit("EXACT") != Lit("MAX") && Lit("Y") != Lit("N")
  {
    assert Lit("EXACT")[0] != Lit("MAX")[0] && Lit("Y")[0] != Lit("N")[0];
  }

  /** A line defines a field exactly when, without the blanks at its ends, it is no comment and
      consists of six columns, separated by bars, that say so: name, EXACT or MAX, length, Y or N,
      validation and generator. */
  lemma {:induction false} LineReadsIff(raw: Text, f: Field)
    ensures ParseLine(raw) == Good(f) <==>
      (&& Trim(raw) != [] && Trim(raw)[0] != '#' as int
       && exists cs :: |cs| == 6 && Trim(raw) == JoinWith(cs, '|' as int) && Columns(cs, f))
  {
    hide Trim, SplitOn, JoinWith, ParseDecimal, Utf8Length, Lit;
    WordsDiffer();
    var line := Trim(raw);
    var parts := SplitOn(line, BAR);
    SplitJoins(line, BAR);
    if ParseLine(raw) == Good(f) {
      assert Columns(parts, f);
    }
    if cs :| |cs| == 6 && line == JoinWith(cs, BAR) && Columns(cs, f) {
      SplitOfJoin(cs, BAR);
      assert parts == cs;
    }
  }

  lemma {:induction false} SplitCounts(t: Text, sep: CodeUnit)
    ensures |SplitOn(t, sep)| == 1 + multiset(t)[sep]
    decreases |t|
  {
    if t != [] {
      SplitCounts(t[1..], sep);
      assert t == [t[0]] + t[1..];
    }
  }

  /** Why a line is refused: it has not exactly five bars; its third column is no number; or
      the columns do not define a field. */
  lemma {:induction false} RefusedLinesMean(raw: Text)
    ensures var line := Trim(raw);
      && (ParseLine(raw) == Skipped <==> line == [] || line[0] == '#' as int)
      && (ParseLine(raw) == Bad(ColumnCount) <==> ParseLine(raw) != Skipped && multiset(line)['|' as int] != 5)
      && (ParseLine(raw) == Bad(InvalidLength) <==>
            ParseLine(raw) != Skipped && multiset(line)['|' as int] == 5
            && ParseDecimal(Trim(SplitOn(line, '|' as int)[2]), 0x7FFF_FFFF) == None)
      && !(ParseLine(raw).Bad? && ParseLine(raw).error in {DuplicateField, TooManyFields})
  {
    hide Trim, SplitOn, ParseDecimal, DefinitionIsValid;
    SplitCounts(Trim(raw), BAR);
  }

  // ------------------------------------------------------------------
  // SEQ
  // ------------------------------------------------------------------

  lemma {:induction false} ThreeColumns(a: Text, b: Text, c: Text)
    requires COMMA_UNIT !in a && COMMA_UNIT !in b && COMMA_UNIT !in c
    ensures SplitOn(JoinWith([a, b, c], COMMA_UNIT), COMMA_UNIT) == [a, b, c]
  {
    SplitOfJoin([a, b, c], COMMA_UNIT);
  }

  /** START,STEP,WIDTH: the first value is START, each further one is STEP more, on WIDTH digits. */
  lemma {:induction false} StepRuleReads(a: Text, b: Text, c: Text, start: nat, step: nat, width: nat, index: nat)
    requires COMMA_UNIT !in a && COMMA_UNIT !in b && COMMA_UNIT !in c
    requires Trim(a) == Decimal(start) && Trim(b) == Decimal(step) && Trim(c) == Decimal(width)
    requires start <= LONG_MAX && step <= LONG_MAX && 1 <= width <= 32 && index >= 1
    ensures var n := start + step * (index - 1);
      && n >= 0
      && SequenceText(JoinWith([a, b, c], ',' as int), index) ==
         if n < 0x8000_0000_0000_0000 then Made(Padded(width, n)) else Failed(Overflow)
  {
    hide Trim, SplitOn, JoinWith, ParseDecimal, Padded, Decimal;
    ThreeColumns(a, b, c);
    OffsetIsNatural(step, index);
    ParsesDecimal(start, LONG_MAX);
    ParsesDecimal(step, LONG_MAX);
    ParsesDecimal(width, INT_MAX);
    assert [] + Padded(width, start + step * (index - 1)) == Padded(width, start + step * (index - 1));
  }

  /** PREFIX,START,WIDTH: the prefix and START, START + 1 and so on. */
  lemma {:induction false} PrefixRuleReads(a: Text, b: Text, c: Text, start: nat, width: nat, index: nat)
    requires COMMA_UNIT !in a && COMMA_UNIT !in b && COMMA_UNIT !in c
    requires (Trim(a) == [] || !AllDigits(Trim(a))) && Trim(b) == Decimal(start) && Trim(c) == Decimal(width)
    requires start <= LONG_MAX && 1 <= width <= 32 && index >= 1
    ensures var n := start + (index - 1);
      SequenceText(JoinWith([a, b, c], ',' as int), index) ==
        if n < 0x8000_0000_0000_0000 then Made(Trim(a) + Padded(width, n)) else Failed(Overflow)
  {
    hide Trim, SplitOn, JoinWith, ParseDecimal, Padded, Decimal;
    ThreeColumns(a, b, c);
    OffsetIsNatural(1, index);
    ParsesDecimal(start, LONG_MAX);
    ParsesDecimal(width, INT_MAX);
  }

  // ------------------------------------------------------------------
  // The rules by their keywords
  // ------------------------------------------------------------------

  lemma {:induction false} Starts(keyword: string, p: Text)
    ensures var g := Lit(keyword) + p; StartsWith(g, Lit(keyword)) && g[|keyword|..] == p
  {
  }

  lemma {:induction false} StartsNot(g: Text, keyword: string, i: nat)
    requires i < |keyword| && i < |g| && g[i] != Lit(keyword)[i]
    ensures !StartsWith(g, Lit(keyword)) && g != Lit(keyword)
  {
    assert |keyword| <= |g| ==> g[..|keyword|][i] == g[i];
  }

  /** None of these keywords begins with a letter that the rule does not. */
  lemma {:induction false} OtherLetters(g: Text)
    requires g != []
    ensures g[0] != 'F' as int ==> !StartsWith(g, Lit("FIXED:"))
    ensures g[0] != 'E' as int ==> g != Lit("EMPTY")
    ensures g[0] != 'N' as int ==> g != Lit("NOW14")
    ensures g[0] != 'S' as int ==> !StartsWith(g, Lit("SEQ:"))
  {
    if StartsWith(g, Lit("FIXED:")) { assert g[..6][0] == g[0]; }
    if StartsWith(g, Lit("SEQ:")) { assert g[..4][0] == g[0]; }
  }

  /** Each keyword names its rule. */
  lemma {:induction false} KeywordsMean(p: Text)
    ensures RuleOf(Lit("FIXED:") + p) == Fixed(p)
    ensures RuleOf(Lit("EMPTY")) == EmptyRule && RuleOf(Lit("NOW14")) == Now14
    ensures RuleOf(Lit("SEQ:") + p) == Seq(p)
  {
    hide StartsWith;
    Starts("FIXED:", p);
    Starts("SEQ:", p);
    assert Lit("EMPTY")[0] == 'E' as int && Lit("NOW14")[0] == 'N' as int && (Lit("SEQ:") + p)[0] == 'S' as int;
    OtherLetters(Lit("EMPTY"));
    OtherLetters(Lit("NOW14"));
    OtherLetters(Lit("SEQ:") + p);
  }

  lemma {:induction false} RandomKeywordsMean(p: Text)
    ensures RuleOf(Lit("RANDOM_ENUM")) == RandomEnum
    ensures RuleOf(Lit("RANDOM_NUM:") + p) == RandomNum(p)
    ensures RuleOf(Lit("RANDOM_ALPHA:") + p) == RandomAlpha(p)
    ensures RuleOf(Lit("RANDOM_ALNUM:") + p) == RandomAlnum(p)
  {
    hide StartsWith;
    var e, n, a, l := Lit("RANDOM_ENUM"), Lit("RANDOM_NUM:") + p, Lit("RANDOM_ALPHA:") + p, Lit("RANDOM_ALNUM:") + p;
    assert e[0] == n[0] == a[0] == l[0] == 'R' as int;
    OtherLetters(e);
    OtherLetters(n);
    OtherLetters(a);
    OtherLetters(l);
    Starts("RANDOM_NUM:", p);
    Starts("RANDOM_ALPHA:", p);
    Starts("RANDOM_ALNUM:", p);
    StartsNot(n, "RANDOM_ENUM", 7);
    StartsNot(a, "RANDOM_ENUM", 7);
    StartsNot(l, "RANDOM_ENUM", 7);
    StartsNot(a, "RANDOM_NUM:", 7);
    StartsNot(l, "RANDOM_NUM:", 7);
    StartsNot(l, "RANDOM_ALPHA:", 9);
  }

  predicate IsDecimalDigit(u: CodeUnit) { '0' as int <= u <= '9' as int }

  predicate IsCapital(u: CodeUnit) { 'A' as int <= u <= 'Z' as int }

  lemma {:induction false} Alphabets(u: CodeUnit)
    ensures u in DIGIT_UNITS <==> IsDecimalDigit(u)
    ensures u in LETTER_UNITS <==> IsCapital(u)
    ensures u in ALNUM_UNITS <==> IsDecimalDigit(u) || IsCapital(u)
  {
    hide Lit;
    DigitUnits(u);
    LetterUnits(u);
    assert ALNUM_UNITS == LETTER_UNITS + DIGIT_UNITS by { AlnumUnits(); }
  }

  lemma {:induction false} DigitUnits(u: CodeUnit)
    ensures u in DIGIT_UNITS <==> IsDecimalDigit(u)
  {
    forall i | 0 <= i < 10 ensures DIGIT_UNITS[i] == 0x30 + i {
    }
    if IsDecimalDigit(u) { assert DIGIT_UNITS[u - 0x30] == u; }
  }

  lemma {:induction false} LetterUnits(u: CodeUnit)
    ensures u in LETTER_UNITS <==> IsCapital(u)
  {
    forall i | 0 <= i < 26 ensures LETTER_UNITS[i] == 0x41 + i {
    }
    if IsCapital(u) { assert LETTER_UNITS[u - 0x41] == u; }
  }

  lemma {:induction false} AlnumUnits()
    ensures ALNUM_UNITS == LETTER_UNITS + DIGIT_UNITS
  {
  }

  /** What the rules without a random part give. */
  lemma {:induction false} RulesGive(f: Field, p: Text, index: int, now: DateTime, draw: Draw)
    requires index >= 1
    ensures f.generator == Lit("FIXED:") + p ==> RuleValue(f, index, now, draw) == Made(p)
    ensures f.generator == Lit("EMPTY") ==> RuleValue(f, index, now, draw) == Made([])
    ensures f.generator == Lit("NOW14") ==> RuleValue(f, index, now, draw) == Made(Format14(now))
    ensures f.generator == Lit("SEQ:") + p ==> RuleValue(f, index, now, draw) == SequenceText(p, index)
  {
    hide RuleOf, SequenceText, Format14;
    KeywordsMean(p);
  }

  /** The random rules with a length give every text of that length over their alphabet, and
      no other: decimal digits, capital letters, or both. */
  lemma {:induction false} RandomRulesGive(f: Field, n: nat, t: Text, index: int, now: DateTime)
    requires index >= 1 && n <= 2047
    ensures f.generator == Lit("RANDOM_NUM:") + Decimal(n) ==>
      ((exists draw :: RuleValue(f, index, now, draw) == Made(t)) <==> |t| == n && forall u <- t :: IsDecimalDigit(u))
    ensures f.generator == Lit("RANDOM_ALPHA:") + Decimal(n) ==>
      ((exists draw :: RuleValue(f, index, now, draw) == Made(t)) <==> |t| == n && forall u <- t :: IsCapital(u))
    ensures f.generator == Lit("RANDOM_ALNUM:") + Decimal(n) ==>
      ((exists draw :: RuleValue(f, index, now, draw) == Made(t)) <==> |t| == n && forall u <- t :: IsDecimalDigit(u) || IsCapital(u))
  {
    hide RuleOf, SequenceText, Format14, RandomTextOf, Decimal;
    RandomKeywordsMean(Decimal(n));
    forall u ensures (u in DIGIT_UNITS <==> IsDecimalDigit(u)) && (u in LETTER_UNITS <==> IsCapital(u))
                     && (u in ALNUM_UNITS <==> IsDecimalDigit(u) || IsCapital(u)) {
      Alphabets(u);
    }
    if f.generator == Lit("RANDOM_NUM:") + Decimal(n) { RandomRule(f, DIGIT_UNITS, n, t, index, now); }
    if f.generator == Lit("RANDOM_ALPHA:") + Decimal(n) { RandomRule(f, LETTER_UNITS, n, t, index, now); }
    if f.generator == Lit("RANDOM_ALNUM:") + Decimal(n) { RandomRule(f, ALNUM_UNITS, n, t, index, now); }
  }

  lemma {:induction false} RandomRule(f: Field, alphabet: Text, n: nat, t: Text, index: int, now: DateTime)
    requires index >= 1 && n <= 2047 && alphabet != []
    requires forall draw :: RuleValue(f, index, now, draw) == RandomTextOf(Decimal(n), alphabet, draw)
    ensures (exists draw :: RuleValue(f, index, now, draw) == Made(t)) <==> |t| == n && forall u <- t :: u in alphabet
  {
    hide RuleValue, RandomTextOf;
    RandomGives(alphabet, n, t);
    if draw :| RuleValue(f, index, now, draw) == Made(t) {
      assert RandomTextOf(Decimal(n), alphabet, draw) == Made(t);
    }
  }

  lemma {:induction false} LengthReads(n: nat)
    requires n <= 2047
    ensures RandomTextError(Decimal(n)) == None && SplitOn(Decimal(n), COMMA_UNIT) == [Decimal(n)]
    ensures ParseDecimal(Trim(Decimal(n)), INT_MAX) == Some(n)
  {
    hide Decimal, ParseDecimal;
    assert COMMA_UNIT !in Decimal(n);
    SplitWithout(Decimal(n), COMMA_UNIT);
    var d := Decimal(n);
    assert d[0] > 0x20 && d[|d| - 1] > 0x20;
    ParsesDecimal(n, INT_MAX);
  }

  lemma {:induction false} RandomGives(alphabet: Text, n: nat, t: Text)
    requires n <= 2047 && alphabet != []
    ensures (exists draw :: RandomTextOf(Decimal(n), alphabet, draw) == Made(t)) <==> |t| == n && forall u <- t :: u in alphabet
  {
    hide Decimal, ParseDecimal, SplitOn, Trim, RandomTextError, Utf8Length;
    LengthReads(n);
    assert Utf8Length([]) == 0 by { Utf8LengthOfAscii([]); }
    forall draw ensures RandomTextOf(Decimal(n), alphabet, draw) == Made(Picked(alphabet, draw, n)) {
      assert [] + Picked(alphabet, draw, n) == Picked(alphabet, draw, n);
    }
    if |t| == n && forall u <- t :: u in alphabet {
      var draw := DrawsFor(alphabet, t);
      assert RandomTextOf(Decimal(n), alphabet, draw) == Made(t);
    }
  }

  /** Draws that pick the units of a text. */
  lemma {:induction false} DrawsFor(alphabet: Text, t: Text) returns (draw: Draw)
    requires alphabet != [] && forall u <- t :: u in alphabet
    ensures Picked(alphabet, draw, |t|) == t
  {
    draw := (i: nat) => if i < |t| && t[i] in alphabet then (var k: nat :| k < |alphabet| && alphabet[k] == t[i]; k) else 0;
    PicksThem(alphabet, t, draw, |t|);
    assert t[..|t|] == t;
  }

  lemma {:induction false} PicksThem(alphabet: Text, t: Text, draw: Draw, n: nat)
    requires alphabet != [] && n <= |t|
    requires forall i: nat :: i < |t| ==> draw(i) < |alphabet| && alphabet[draw(i)] == t[i]
    ensures Picked(alphabet, draw, n) == t[..n]
  {
    if n > 0 {
      PicksThem(alphabet, t, draw, n - 1);
      assert draw(n - 1) % |alphabet| == draw(n - 1);
      assert t[..n] == t[..n - 1] + [t[n - 1]];
    }
  }
}
