/** JsonGenerator: values by rule, records that pass their own audit. The clock and the
    draws of the random source are parameters. */
module Generator {
  import opened Wrappers
  import opened JsonString
  import opened JsonObject
  import opened TextTools
  import opened FieldMap

  datatype GenerateError =
    | BadFormat | NumberFormat | InvalidParameters | Overflow | UnknownRule | NotAnEnum
    | UnknownOverride(key: Text) | InvalidValue(name: Text, errors: seq<FieldError>)

  datatype Outcome<+T> = Made(value: T) | Failed(error: GenerateError)

  // ------------------------------------------------------------------
  // RANDOM_NUM, RANDOM_ALPHA, RANDOM_ALNUM
  // ------------------------------------------------------------------

  predicate Ascii(t: Text) { forall i :: 0 <= i < |t| ==> t[i] < 0x80 }

  function PrefixOf(parts: seq<Text>): Text { if |parts| == 2 then Trim(parts[1]) else [] }

  /** Why LENGTH[,PREFIX] is refused, if it is. */
  function RandomTextError(parameters: Text): (r: Option<GenerateError>)
    ensures r.Some? ==> !r.value.UnknownOverride?
  {
    var parts := SplitOn(parameters, COMMA_UNIT);
    if |parts| > 2 then Some(BadFormat)
    else
      var total := ParseDecimal(Trim(parts[0]), INT_MAX);
      if total.None? then Some(NumberFormat)
      else if total.value < Utf8Length(PrefixOf(parts)) || total.value > MAX_VALUE_BYTES then Some(InvalidParameters)
      else None
  }

  /** The prefix continued with units of the alphabet to exactly LENGTH bytes of UTF-8. */
  predicate IsRandomText(parameters: Text, alphabet: Text, r: Outcome<Text>) {
    var parts := SplitOn(parameters, COMMA_UNIT);
    match RandomTextError(parameters)
    case Some(e) => r == Failed(e)
    case None =>
      (&& r.Made? && Some(Utf8Length(r.value)) == ParseDecimal(Trim(parts[0]), INT_MAX)
       && StartsWith(r.value, PrefixOf(parts))
       && (forall i :: |PrefixOf(parts)| <= i < |r.value| ==> r.value[i] in alphabet))
  }

  const DIGITS := "0123456789"
  const LETTERS := "ABCDEFGHIJKLMNOPQRSTUVWXYZ"

  /** The numbers the random source draws for one value: draw `i` picks from n choices by
      its remainder, so every outcome of nextInt is some draw. */
  type Draw = nat -> nat

  function Picked(alphabet: Text, draw: Draw, n: nat): (t: Text)
    requires alphabet != []
    ensures |t| == n && forall i :: 0 <= i < n ==> t[i] in alphabet
  {
    if n == 0 then [] else Picked(alphabet, draw, n - 1) + [alphabet[draw(n - 1) % |alphabet|]]
  }

  function RandomTextOf(parameters: Text, alphabet: Text, draw: Draw): Outcome<Text>
    requires alphabet != []
  {
    match RandomTextError(parameters)
    case Some(e) => Failed(e)
    case None =>
      var parts := SplitOn(parameters, COMMA_UNIT);
      var prefix := PrefixOf(parts);
      Made(prefix + Picked(alphabet, draw, ParseDecimal(Trim(parts[0]), INT_MAX).value - Utf8Length(prefix)))
  }

  /** randomText() */
  method RandomText(parameters: Text, alphabet: Text, draw: Draw) returns (r: Outcome<Text>)
    requires alphabet != [] && Ascii(alphabet)
    ensures r == RandomTextOf(parameters, alphabet, draw)
    ensures IsRandomText(parameters, alphabet, r)
    ensures r.Made? && WellFormed(parameters) ==> WellFormed(r.value)
  {
    hide Trim, WellFormed, Utf8Length, SplitOn, ParseDecimal;
    var parts := SplitOn(parameters, COMMA_UNIT);
    if |parts| > 2 {
      return Failed(BadFormat);
    }
    var total := ParseDecimal(Trim(parts[0]), INT_MAX);
    if total.None? {
      return Failed(NumberFormat);
    }
    var prefix := PrefixOf(parts);
    var prefixBytes := Utf8Length(prefix);
    if total.value < prefixBytes || total.value > MAX_VALUE_BYTES {
      return Failed(InvalidParameters);
    }
    var value := prefix;
    for i := prefixBytes to total.value
      invariant value == prefix + Picked(alphabet, draw, i - prefixBytes)
    {
      value := value + [alphabet[draw(i - prefixBytes) % |alphabet|]];
    }
    PickedKeeps(parameters, alphabet, draw, total.value - prefixBytes);
    return Made(value);
  }

  lemma {:induction false} PickedKeeps(parameters: Text, alphabet: Text, draw: Draw, n: nat)
    requires alphabet != [] && Ascii(alphabet)
    ensures var prefix := PrefixOf(SplitOn(parameters, COMMA_UNIT)); var value := prefix + Picked(alphabet, draw, n);
      Utf8Length(value) == Utf8Length(prefix) + n && (WellFormed(parameters) ==> WellFormed(value))
  {
    hide WellFormed, SplitOn, PrefixOf;
    var prefix, random := PrefixOf(SplitOn(parameters, COMMA_UNIT)), Picked(alphabet, draw, n);
    Utf8LengthAdds(prefix, random);
    Utf8LengthOfAscii(random);
    if WellFormed(parameters) {
      PrefixWellFormed(parameters);
      AsciiIsWellFormed(random);
      WellFormedConcat(prefix, random);
    }
  }

  lemma {:induction false} PrefixWellFormed(parameters: Text)
    requires WellFormed(parameters)
    ensures WellFormed(PrefixOf(SplitOn(parameters, COMMA_UNIT)))
  {
    var parts := SplitOn(parameters, COMMA_UNIT);
    SplitWellFormed(parameters, COMMA_UNIT);
    if |parts| == 2 { TrimWellFormed(parts[1]); }
  }

  // ------------------------------------------------------------------
  // SEQ
  // ------------------------------------------------------------------

  datatype Sequence = Sequence(prefix: Text, start: int, step: int, width: int)

  /** START,STEP,WIDTH or PREFIX,START,WIDTH. */
  function ParseSequence(parameters: Text): Outcome<Sequence> {
    var parts := SplitOn(parameters, COMMA_UNIT);
    if |parts| != 3 then Failed(BadFormat)
    else
      var first := Trim(parts[0]);
      var second := ParseDecimal(Trim(parts[1]), LONG_MAX);
      var width := ParseDecimal(Trim(parts[2]), INT_MAX);
      var numeric := first != [] && AllDigits(first);
      var start := if numeric then ParseDecimal(first, LONG_MAX) else second;
      if start.None? || second.None? || width.None? then Failed(NumberFormat)
      else
        var step := if numeric then second.value else 1;
        if width.value < 1 || width.value > 32 || start.value < 0 || step < 0 then Failed(InvalidParameters)
        else Made(Sequence(if numeric then [] else first, start.value, step, width.value))
  }

  /** The number at an index, computed with multiplyExact and addExact. */
  function NumberAt(s: Sequence, index: int): Option<int> {
    var offset := s.step * (index - 1);
    if offset > LONG_MAX then None
    else if s.start + offset > LONG_MAX then None
    else Some(s.start + offset)
  }

  /** sequence() */
  method SequenceValue(parameters: Text, index: int) returns (r: Outcome<Text>)
    requires index >= 1
    ensures r == SequenceText(parameters, index)
  {
    hide Trim, SplitOn, ParseDecimal, AllDigits, Padded;
    var parts := SplitOn(parameters, COMMA_UNIT);
    if |parts| != 3 {
      return Failed(BadFormat);
    }
    var first := Trim(parts[0]);
    var prefix: Text := [];
    var start;
    var step: Option<int> := Some(1);
    if first != [] && AllDigits(first) {
      start := ParseDecimal(first, LONG_MAX);
      step := ParseDecimal(Trim(parts[1]), LONG_MAX);
    } else {
      prefix := first;
      start := ParseDecimal(Trim(parts[1]), LONG_MAX);
    }
    var width := ParseDecimal(Trim(parts[2]), INT_MAX);
    if start.None? || step.None? || width.None? {
      return Failed(NumberFormat);
    }
    if width.value < 1 || width.value > 32 || start.value < 0 || step.value < 0 {
      return Failed(InvalidParameters);
    }
    OffsetIsNatural(step.value, index);
    var offset := step.value * (index - 1);
    if offset > LONG_MAX || start.value + offset > LONG_MAX {
      return Failed(Overflow);
    }
    return Made(prefix + Padded(width.value, start.value + offset));
  }

  lemma {:induction false} OffsetIsNatural(step: int, index: int)
    requires step >= 0 && index >= 1
    ensures step * (index - 1) >= 0
  {
  }

  function SequenceText(parameters: Text, index: int): (r: Outcome<Text>)
    requires index >= 1
    ensures r.Failed? ==> !r.error.UnknownOverride?
  {
    match ParseSequence(parameters)
    case Failed(e) => Failed(e)
    case Made(s) =>
      OffsetIsNatural(s.step, index);
      match NumberAt(s, index)
      case None => Failed(Overflow)
      case Some(n) => Made(s.prefix + Padded(s.width, n))
  }

  lemma {:induction false} SequenceWellFormed(parameters: Text, index: int)
    requires index >= 1 && WellFormed(parameters) && SequenceText(parameters, index).Made?
    ensures WellFormed(SequenceText(parameters, index).value)
  {
    hide WellFormed, Trim, SplitOn, Padded, ParseDecimal;
    var parts := SplitOn(parameters, COMMA_UNIT);
    SplitWellFormed(parameters, COMMA_UNIT);
    TrimWellFormed(parts[0]);
    var s := ParseSequence(parameters).value;
    assert WellFormed([]) by { AsciiIsWellFormed([]); }
    OffsetIsNatural(s.step, index);
    var digits := Padded(s.width, NumberAt(s, index).value);
    AsciiIsWellFormed(digits);
    WellFormedConcat(s.prefix, digits);
  }

  /** An accepted rule overflows from some index on and never before. */
  lemma {:induction false} SequenceOverflowsIff(parameters: Text, index: int)
    requires index >= 1 && ParseSequence(parameters).Made?
    ensures var s := ParseSequence(parameters).value;
      SequenceText(parameters, index).Made? <==> s.start + s.step * (index - 1) <= LONG_MAX
    ensures SequenceText(parameters, 1).Made?
    ensures SequenceText(parameters, index).Made? ==>
      forall i :: 1 <= i <= index ==> SequenceText(parameters, i).Made?
  {
    hide ParseSequence, Padded;
    StartFits(parameters);
    var s := ParseSequence(parameters).value;
    OffsetIsNatural(s.step, index);
    if SequenceText(parameters, index).Made? {
      forall i | 1 <= i <= index ensures SequenceText(parameters, i).Made? {
        OffsetIsNatural(s.step, i);
        OffsetGrows(s.step, i, index);
      }
    }
  }

  lemma {:induction false} OffsetGrows(step: int, i: int, j: int)
    requires step >= 0 && 1 <= i <= j
    ensures step * (i - 1) <= step * (j - 1)
  {
    assert step * (j - 1) == step * (i - 1) + step * (j - i);
    OffsetIsNatural(step, j - i + 1);
  }

  /** Different indexes get different texts, until overflow, exactly when the step is
      positive or the second index already overflows. */
  lemma {:induction false} SequenceInjectiveIff(parameters: Text)
    requires ParseSequence(parameters).Made?
    ensures ParseSequence(parameters).value.step > 0 <==>
      forall i, j :: 1 <= i < j && SequenceText(parameters, i).Made? && SequenceText(parameters, j).Made?
        ==> SequenceText(parameters, i) != SequenceText(parameters, j)
  {
    hide ParseSequence, Padded;
    var s := ParseSequence(parameters).value;
    if s.step > 0 {
      forall i, j | 1 <= i < j && SequenceText(parameters, i).Made? && SequenceText(parameters, j).Made?
        ensures SequenceText(parameters, i) != SequenceText(parameters, j)
      {
        StartFits(parameters);
        LaterIsDifferent(s, i, j);
      }
    } else {
      StartFits(parameters);
      assert SequenceText(parameters, 1) == SequenceText(parameters, 2);
    }
  }

  lemma {:induction false} StartFits(parameters: Text)
    requires ParseSequence(parameters).Made?
    ensures var s := ParseSequence(parameters).value; 0 <= s.start <= LONG_MAX && s.step >= 0 && 1 <= s.width <= 32
  {
    hide Trim, SplitOn, AllDigits;
  }

  lemma {:induction false} LaterIsDifferent(s: Sequence, i: int, j: int)
    requires 1 <= i < j && s.step > 0 && s.start >= 0 && s.width >= 0
    ensures s.step * (i - 1) >= 0 && s.step * (j - 1) >= 0
    ensures s.prefix + Padded(s.width, s.start + s.step * (i - 1)) != s.prefix + Padded(s.width, s.start + s.step * (j - 1))
  {
    hide Padded;
    OffsetIsNatural(s.step, i);
    OffsetIsNatural(s.step, j);
    var m, n := s.start + s.step * (i - 1), s.start + s.step * (j - 1);
    assert m < n by { assert s.step * (j - 1) == s.step * (i - 1) + s.step * (j - i); OffsetIsPositive(s.step, j - i); }
    PaddedMeans(s.width, m);
    PaddedMeans(s.width, n);
    var a, b := s.prefix + Padded(s.width, m), s.prefix + Padded(s.width, n);
    assert a[|s.prefix|..] == Padded(s.width, m) && b[|s.prefix|..] == Padded(s.width, n);
  }

  lemma {:induction false} OffsetIsPositive(step: int, k: int)
    requires step > 0 && k > 0
    ensures step * k > 0
  {
  }

  /** The number part keeps the width exactly until the number has more digits. */
  lemma {:induction false} SequenceWidthIff(parameters: Text, index: int)
    requires index >= 1 && SequenceText(parameters, index).Made?
    ensures var s := ParseSequence(parameters).value;
      && 1 <= s.width && |SequenceText(parameters, index).value| >= |s.prefix| + s.width
      && (|SequenceText(parameters, index).value| == |s.prefix| + s.width <==>
            s.start + s.step * (index - 1) < Pow10(s.width))
  {
    hide ParseSequence, Padded;
    StartFits(parameters);
    var s := ParseSequence(parameters).value;
    OffsetIsNatural(s.step, index);
    PaddedLengthIff(s.width, s.start + s.step * (index - 1));
  }

  // ------------------------------------------------------------------
  // Rules
  // ------------------------------------------------------------------

  /** A generator rule by its keyword, in the order the source tries them. */
  datatype Rule =
    | Fixed(value: Text) | EmptyRule | Now14 | Seq(parameters: Text) | RandomEnum
    | RandomNum(parameters: Text) | RandomAlpha(parameters: Text) | RandomAlnum(parameters: Text)
    | Unknown

  function RuleOf(generator: Text): Rule {
    if StartsWith(generator, Lit("FIXED:")) then Fixed(generator[6..])
    else if generator == Lit("EMPTY") then EmptyRule
    else if generator == Lit("NOW14") then Now14
    else if StartsWith(generator, Lit("SEQ:")) then Seq(generator[4..])
    else if generator == Lit("RANDOM_ENUM") then RandomEnum
    else if StartsWith(generator, Lit("RANDOM_NUM:")) then RandomNum(generator[11..])
    else if StartsWith(generator, Lit("RANDOM_ALPHA:")) then RandomAlpha(generator[13..])
    else if StartsWith(generator, Lit("RANDOM_ALNUM:")) then RandomAlnum(generator[13..])
    else Unknown
  }

  function ChoiceOf(validation: Text, draw: Draw): Outcome<Text> {
    if !IsEnum(validation) then Failed(NotAnEnum)
    else Made(Trim(Choices(validation)[draw(0) % |Choices(validation)|]))
  }

  /** randomEnum() */
  method RandomChoice(validation: Text, draw: Draw) returns (r: Outcome<Text>)
    ensures r == ChoiceOf(validation, draw)
    ensures if IsEnum(validation) then r.Made? && EnumAllows(validation, r.value) else r == Failed(NotAnEnum)
    ensures r.Made? && WellFormed(validation) ==> WellFormed(r.value)
  {
    hide WellFormed, Trim, IsEnum;
    if !IsEnum(validation) {
      return Failed(NotAnEnum);
    }
    var choices := Choices(validation);
    var k := draw(0) % |choices|;
    if WellFormed(validation) {
      ChoicesWellFormed(validation);
      TrimWellFormed(choices[k]);
    }
    return Made(Trim(choices[k]));
  }

  lemma {:induction false} AfterKeyword(t: Text, keyword: string)
    requires WellFormed(t) && StartsWith(t, Lit(keyword))
    ensures WellFormed(t[|keyword|..])
  {
    hide WellFormed;
    var k := Lit(keyword);
    forall i | 0 <= i < |k| ensures !IsHigh(t[i]) {
      assert t[i] == t[..|k|][i];
    }
    DropWellFormed(t, |k|);
  }

  lemma {:induction false} ChoicesWellFormed(validation: Text)
    requires IsEnum(validation) && WellFormed(validation)
    ensures AllWellFormed(Choices(validation))
  {
    AfterKeyword(validation, "ENUM:");
    SplitWellFormed(validation[5..], COMMA_UNIT);
  }

  lemma {:induction false} RuleWellFormed(generator: Text)
    requires WellFormed(generator)
    ensures match RuleOf(generator)
            case Fixed(v) => WellFormed(v)
            case Seq(p) => WellFormed(p)
            case RandomNum(p) => WellFormed(p)
            case RandomAlpha(p) => WellFormed(p)
            case RandomAlnum(p) => WellFormed(p)
            case _ => true
  {
    hide WellFormed, Lit;
    match RuleOf(generator)
    case Fixed(v) => AfterKeyword(generator, "FIXED:");
    case Seq(p) => AfterKeyword(generator, "SEQ:");
    case RandomNum(p) => AfterKeyword(generator, "RANDOM_NUM:");
    case RandomAlpha(p) => AfterKeyword(generator, "RANDOM_ALPHA:");
    case RandomAlnum(p) => AfterKeyword(generator, "RANDOM_ALNUM:");
    case _ =>
  }

  const DIGIT_UNITS := Lit(DIGITS)
  const LETTER_UNITS := Lit(LETTERS)
  const ALNUM_UNITS := Lit(LETTERS + DIGITS)

  /** The value of a rule. */
  function RuleValue(f: Field, index: int, now: DateTime, draw: Draw): Outcome<Text>
    requires index >= 1
  {
    match RuleOf(f.generator)
    case Fixed(v) => Made(v)
    case EmptyRule => Made([])
    case Now14 => Made(Format14(now))
    case Seq(p) => SequenceText(p, index)
    case RandomEnum => ChoiceOf(f.validation, draw)
    case RandomNum(p) => RandomTextOf(p, DIGIT_UNITS, draw)
    case RandomAlpha(p) => RandomTextOf(p, LETTER_UNITS, draw)
    case RandomAlnum(p) => RandomTextOf(p, ALNUM_UNITS, draw)
    case Unknown => Failed(UnknownRule)
  }

  lemma {:induction false} RandomWellFormed(parameters: Text, alphabet: Text, draw: Draw)
    requires alphabet != [] && Ascii(alphabet) && WellFormed(parameters) && RandomTextOf(parameters, alphabet, draw).Made?
    ensures WellFormed(RandomTextOf(parameters, alphabet, draw).value)
  {
    hide WellFormed, SplitOn, PrefixOf, ParseDecimal, Picked, Utf8Length;
    var parts := SplitOn(parameters, COMMA_UNIT);
    PickedKeeps(parameters, alphabet, draw, ParseDecimal(Trim(parts[0]), INT_MAX).value - Utf8Length(PrefixOf(parts)));
  }

  lemma {:induction false} RuleValueWellFormed(f: Field, index: int, now: DateTime, draw: Draw)
    requires index >= 1 && WellFormed(f.generator) && WellFormed(f.validation) && RuleValue(f, index, now, draw).Made?
    ensures WellFormed(RuleValue(f, index, now, draw).value)
  {
    hide WellFormed, RuleOf, SequenceText, RandomTextOf, Format14, ChoiceOf;
    RuleWellFormed(f.generator);
    match RuleOf(f.generator)
    case Fixed(v) =>
    case EmptyRule => AsciiIsWellFormed([]);
    case Now14 => Format14WellFormed(now);
    case Seq(p) => SequenceWellFormed(p, index);
    case RandomEnum => ChoiceWellFormed(f.validation, draw);
    case RandomNum(p) => RandomWellFormed(p, DIGIT_UNITS, draw);
    case RandomAlpha(p) => RandomWellFormed(p, LETTER_UNITS, draw);
    case RandomAlnum(p) => RandomWellFormed(p, ALNUM_UNITS, draw);
    case Unknown =>
  }

  lemma {:induction false} ChoiceWellFormed(validation: Text, draw: Draw)
    requires WellFormed(validation) && ChoiceOf(validation, draw).Made?
    ensures WellFormed(ChoiceOf(validation, draw).value)
  {
    hide WellFormed, Trim, IsEnum;
    ChoicesWellFormed(validation);
    TrimWellFormed(Choices(validation)[draw(0) % |Choices(validation)|]);
  }

  /** generateValue(): deterministic rules give exactly their text, random ones stay within
      their rule, and no value is ill-formed UTF-16. */
  method GenerateValue(f: Field, index: int, now: DateTime, draw: Draw) returns (r: Outcome<Text>)
    requires index >= 1
    ensures r == RuleValue(f, index, now, draw)
    ensures match RuleOf(f.generator)
            case Fixed(v) => r == Made(v)
            case EmptyRule => r == Made([])
            case Now14 => r == Made(Format14(now))
            case Seq(p) => r == SequenceText(p, index)
            case RandomEnum =>
              (if IsEnum(f.validation) then r.Made? && EnumAllows(f.validation, r.value) else r == Failed(NotAnEnum))
            case RandomNum(p) => IsRandomText(p, DIGIT_UNITS, r)
            case RandomAlpha(p) => IsRandomText(p, LETTER_UNITS, r)
            case RandomAlnum(p) => IsRandomText(p, ALNUM_UNITS, r)
            case Unknown => r == Failed(UnknownRule)
    ensures r.Failed? ==> !r.error.UnknownOverride?
    ensures r.Made? && WellFormed(f.generator) && WellFormed(f.validation) ==> WellFormed(r.value)
  {
    hide WellFormed, RandomTextError, RandomTextOf, SequenceText, Format14, StartsWith, ChoiceOf;
    if WellFormed(f.generator) {
      RuleWellFormed(f.generator);
    }
    match RuleOf(f.generator)
    case Fixed(v) => r := Made(v);
    case EmptyRule =>
      AsciiIsWellFormed([]);
      r := Made([]);
    case Now14 =>
      Format14WellFormed(now);
      r := Made(Format14(now));
    case Seq(p) =>
      r := SequenceValue(p, index);
      if r.Made? && WellFormed(p) {
        SequenceWellFormed(p, index);
      }
    case RandomEnum => r := RandomChoice(f.validation, draw);
    case RandomNum(p) => r := RandomText(p, DIGIT_UNITS, draw);
    case RandomAlpha(p) => r := RandomText(p, LETTER_UNITS, draw);
    case RandomAlnum(p) => r := RandomText(p, ALNUM_UNITS, draw);
    case Unknown => r := Failed(UnknownRule);
  }

  lemma {:induction false} Format14WellFormed(d: DateTime)
    ensures WellFormed(Format14(d))
  {
    hide WellFormed, Padded;
    AsciiIsWellFormed(Format14(d));
  }

  // ------------------------------------------------------------------
  // Records
  // ------------------------------------------------------------------

  /** The value of a key, as Map.get returns it. */
  function Get(es: Entries, key: Text): (v: Option<Text>)
    ensures v.Some? <==> Has(es, key)
    ensures v.Some? ==> exists i :: 0 <= i < |es| && es[i] == (key, v.value)
  {
    if es == [] then None
    else if es[|es| - 1].0 == key then Some(es[|es| - 1].1)
    else GetInit(es, key); Get(es[..|es| - 1], key)
  }

  lemma {:induction false} GetInit(es: Entries, key: Text)
    requires es != [] && es[|es| - 1].0 != key
    ensures Has(es, key) <==> Has(es[..|es| - 1], key)
  {
    if Has(es, key) {
      var i :| 0 <= i < |es| && es[i].0 == key;
      assert es[..|es| - 1][i].0 == key;
    }
  }

  lemma {:induction false} GetAt(es: Entries, i: nat)
    requires Distinct(es) && i < |es|
    ensures Get(es, es[i].0) == Some(es[i].1)
  {
    var v := Get(es, es[i].0);
    assert Has(es, es[i].0);
    var j :| 0 <= j < |es| && es[j] == (es[i].0, v.value);
  }

  /** validateObject() */
  method ValidateObject(fields: seq<Field>, values: Entries) returns (errors: seq<FieldError>)
    ensures errors == ObjectErrors(fields, values)
  {
    hide ErrorsOf, Get;
    errors := [];
    for i := 0 to |fields|
      invariant errors == ObjectErrors(fields[..i], values)
    {
      var more := Validate(fields[i], Get(values, fields[i].name));
      assert fields[..i + 1][..i] == fields[..i];
      errors := errors + more;
    }
    assert fields[..|fields|] == fields;
  }

  function ObjectErrors(fields: seq<Field>, values: Entries): seq<FieldError> {
    if fields == [] then []
    else
      ObjectErrors(fields[..|fields| - 1], values)
      + ErrorsOf(fields[|fields| - 1], Get(values, fields[|fields| - 1].name))
  }

  /** One entry per field, in map order, each passing its field's validation. */
  predicate Fills(fields: seq<Field>, es: Entries) {
    |es| == |fields| &&
    forall i :: 0 <= i < |es| ==> es[i].0 == fields[i].name && ErrorsOf(fields[i], Some(es[i].1)) == []
  }

  /** What field `f` gets: the override if there is one, otherwise what its rule gives. */
  function FieldValue(f: Field, index: int, overrides: Entries, now: DateTime, draw: Draw): Outcome<Text>
    requires index >= 1
  {
    match Get(overrides, f.name)
    case Some(v) => Made(v)
    case None => RuleValue(f, index, now, draw)
  }

  /** The field takes this outcome as its value. */
  predicate Accepts(f: Field, value: Outcome<Text>) {
    value.Made? && ErrorsOf(f, Some(value.value)) == []
  }

  predicate AllNamed(fields: seq<Field>, es: Entries) {
    forall i :: 0 <= i < |es| ==> Names(fields, es[i].0)
  }

  /** generate(): the record of the fields' values, an override winning over the rule.
      generateRecord() is the call without overrides. */
  method Generate(fields: seq<Field>, index: int, overrides: Entries, now: DateTime, draws: nat -> Draw)
    returns (r: Outcome<Text>, ghost es: Entries)
    requires index >= 1
    ensures !AllNamed(fields, overrides) <==> (r.Failed? && r.error.UnknownOverride?)
    ensures r.Made? <==>
      (&& AllNamed(fields, overrides)
       && forall k :: 0 <= k < |fields| ==> Accepts(fields[k], FieldValue(fields[k], index, overrides, now, draws(k))))
    ensures r.Made? ==> r.value == Record(es) && Fills(fields, es)
    ensures r.Made? ==> forall k :: 0 <= k < |fields| ==>
      FieldValue(fields[k], index, overrides, now, draws(k)) == Made(es[k].1)
    ensures r.Made? ==> forall i :: 0 <= i < |es| && Has(overrides, es[i].0) ==> Get(overrides, es[i].0) == Some(es[i].1)
    ensures r.Made? && ValidMap(fields) && WellFormedEntries(overrides) ==> WellFormedEntries(es)
  {
    hide ErrorsOf, Get, WellFormed, RecordOpen, Quoted, RuleOf, RuleValue, FieldValue, Has, SequenceText, RandomTextError, Names, EnumAllows, Utf8Length, IsEnum;
    es := [];
    for k := 0 to |overrides|
      invariant forall i :: 0 <= i < k ==> Names(fields, overrides[i].0)
    {
      if !Names(fields, overrides[k].0) {
        return Failed(UnknownOverride(overrides[k].0)), es;
      }
    }
    var json := [OPEN];
    NothingRecorded();
    for k := 0 to |fields|
      invariant json == RecordOpen(es) && Fills(fields[..k], es)
      invariant forall i :: 0 <= i < k ==> FieldValue(fields[i], index, overrides, now, draws(i)) == Made(es[i].1)
      invariant forall i :: 0 <= i < k ==> Accepts(fields[i], FieldValue(fields[i], index, overrides, now, draws(i)))
      invariant forall i :: 0 <= i < k && Has(overrides, es[i].0) ==> Get(overrides, es[i].0) == Some(es[i].1)
      invariant ValidMap(fields) && WellFormedEntries(overrides) ==> WellFormedEntries(es)
    {
      var f := fields[k];
      var value := ValueFor(f, index, overrides, now, draws(k));
      if value.Failed? {
        return Failed(value.error), es;
      }
      var errors := Validate(f, Some(value.value));
      if errors != [] {
        return Failed(InvalidValue(f.name, errors)), es;
      }
      RecordSnoc(es, (f.name, value.value));
      if |json| > 1 {
        json := json + [COMMA];
      }
      json := json + FieldText((f.name, value.value));
      es := es + [(f.name, value.value)];
      assert fields[..k + 1] == fields[..k] + [f];
    }
    assert fields[..|fields|] == fields;
    return Made(json + [CLOSE]), es;
  }

  lemma {:induction false} NothingRecorded()
    ensures RecordOpen([]) == [OPEN] && Fills([], [])
  {
  }

  lemma {:induction false} RecordSnoc(es: Entries, e: (Text, Text))
    ensures RecordOpen(es + [e]) == RecordOpen(es) + (if |RecordOpen(es)| > 1 then [COMMA] else []) + FieldText(e)
  {
    assert (es + [e])[..|es|] == es;
  }

  /** The override of a field, or what its rule generates. */
  method ValueFor(f: Field, index: int, overrides: Entries, now: DateTime, draw: Draw) returns (r: Outcome<Text>)
    requires index >= 1
    ensures r == FieldValue(f, index, overrides, now, draw)
    ensures Has(overrides, f.name) ==> r.Made? && Get(overrides, f.name) == Some(r.value)
    ensures r.Failed? ==> !r.error.UnknownOverride?
    ensures r.Made? && ValidField(f) && WellFormedEntries(overrides) ==> WellFormed(r.value)
  {
    hide WellFormed, Utf8Length, Lit;
    var override := Get(overrides, f.name);
    if override.Some? {
      r := Made(override.value);
    } else {
      r := GenerateValue(f, index, now, draw);
    }
  }

  // ------------------------------------------------------------------
  // The audit of what was generated
  // ------------------------------------------------------------------

  /** A record that fills a valid map parses to its entries and audits clean. */
  lemma {:induction false} FilledRecordPassesAudit(fields: seq<Field>, es: Entries)
    requires ValidMap(fields) && Fills(fields, es) && WellFormedEntries(es)
    ensures ReadObject(Record(es)) == Ok(es) && ObjectErrors(fields, es) == []
  {
    hide ReadObject, Record, WellFormed, ErrorsOf, ValidField;
    forall i, j | 0 <= i < j < |es| ensures es[i].0 != es[j].0 {
      assert es[i].0 == fields[i].name && es[j].0 == fields[j].name;
    }
    RecordReadsBackIff(es);
    NoErrors(fields, es, |fields|);
    assert fields[..|fields|] == fields;
  }

  lemma {:induction false} NoErrors(fields: seq<Field>, es: Entries, n: nat)
    requires Fills(fields, es) && Distinct(es) && n <= |fields|
    ensures ObjectErrors(fields[..n], es) == []
    decreases n
  {
    hide ErrorsOf, Get;
    if n > 0 {
      NoErrors(fields, es, n - 1);
      GetAt(es, n - 1);
      assert fields[..n][..n - 1] == fields[..n - 1];
    }
  }

  /** The loop of main(): every record written for a map that loads is a flat object which
      the auditor parses and accepts, with the map's fields in order. */
  method GenerateAll(lines: seq<Text>, count: nat, clock: nat -> DateTime, draws: nat -> nat -> Draw)
    returns (records: seq<Text>, fields: seq<Field>)
    requires AllWellFormed(lines) && count <= 10_000_000
    ensures |records| <= count && (LoadLines(lines).Rejected? ==> records == [])
    ensures LoadLines(lines).Loaded? ==> LoadLines(lines).fields == fields
    ensures forall k :: 0 <= k < |records| ==> AuditsClean(fields, records[k])
  {
    hide ReadObject, ErrorsOf, Record, ValidField, ParseLine, WellFormed, AuditsClean;
    records, fields := [], [];
    var loaded := Load(lines);
    if loaded.Rejected? {
      return;
    }
    fields := loaded.fields;
    LoadedMapIsValid(lines);
    for index := 1 to count + 1
      invariant |records| <= index - 1
      invariant forall k :: 0 <= k < |records| ==> AuditsClean(fields, records[k])
    {
      var record, es := Generate(fields, index, [], clock(index), draws(index));
      if record.Failed? {
        return;
      }
      FilledIsClean(fields, es);
      records := records + [record.value];
    }
  }

  /** The text parses, its keys are the map's names in order, and validateObject is silent. */
  predicate AuditsClean(fields: seq<Field>, record: Text) {
    && ReadObject(record).Ok? && ObjectErrors(fields, ReadObject(record).value) == []
    && |ReadObject(record).value| == |fields|
    && forall i :: 0 <= i < |fields| ==> ReadObject(record).value[i].0 == fields[i].name
  }

  lemma {:induction false} FilledIsClean(fields: seq<Field>, es: Entries)
    requires ValidMap(fields) && Fills(fields, es) && WellFormedEntries(es)
    ensures AuditsClean(fields, Record(es))
  {
    hide ReadObject, Record, WellFormed, ErrorsOf, ValidField, ObjectErrors;
    FilledRecordPassesAudit(fields, es);
  }
}
