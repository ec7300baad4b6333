/** The six-column field map: which maps load, and which values a field accepts. */
module FieldMap {
  import opened Wrappers
  import opened JsonString
  import opened TextTools

  const MAX_FIELDS := 128
  const MAX_VALUE_BYTES := 2047
  const BAR: CodeUnit := 0x7C
  const HASH: CodeUnit := 0x23

  datatype LengthType = EXACT | MAX

  /** `validation` and `generator` keep their text, as in the source. */
  datatype Field = Field(
    name: Text, lengthType: LengthType, length: int, required: bool,
    validation: Text, generator: Text)

  // ------------------------------------------------------------------
  // Values
  // ------------------------------------------------------------------

  datatype FieldError = Missing | Empty | WrongLength | TooLong | NotInEnum | InvalidDateTime

  predicate IsEnum(validation: Text) { StartsWith(validation, Lit("ENUM:")) }

  function Choices(validation: Text): seq<Text>
    requires IsEnum(validation)
  {
    SplitOn(validation[5..], COMMA_UNIT)
  }

  predicate EnumAllows(validation: Text, value: Text) {
    IsEnum(validation) && exists i :: 0 <= i < |Choices(validation)| && Trim(Choices(validation)[i]) == value
  }

  /** enumContains() */
  method EnumContains(validation: Text, value: Text) returns (found: bool)
    ensures found == EnumAllows(validation, value)
  {
    if !IsEnum(validation) {
      return false;
    }
    var items := Choices(validation);
    for i := 0 to |items|
      invariant forall k :: 0 <= k < i ==> Trim(items[k]) != value
    {
      if Trim(items[i]) == value {
        return true;
      }
    }
    return false;
  }

  /** A date of the proleptic Gregorian calendar and a time of day. */
  datatype DateTime = DateTime(year: nat, month: nat, day: nat, hour: nat, minute: nat, second: nat)

  predicate IsLeap(year: nat) { year % 4 == 0 && (year % 100 != 0 || year % 400 == 0) }

  function DaysIn(year: nat, month: nat): nat {
    if month == 2 then (if IsLeap(year) then 29 else 28)
    else if month == 4 || month == 6 || month == 9 || month == 11 then 30
    else 31
  }

  /** LocalDateTime.of accepts it. */
  predicate IsDateTime(d: DateTime) {
    && 1 <= d.month <= 12 && 1 <= d.day <= DaysIn(d.year, d.month)
    && d.hour < 24 && d.minute < 60 && d.second < 60
  }

  function FieldsOfDate(t: Text): DateTime
    requires |t| == 14 && AllDigits(t)
  {
    DateTime(Number(t[..4]), Number(t[4..6]), Number(t[6..8]), Number(t[8..10]), Number(t[10..12]), Number(t[12..14]))
  }

  /** validDateTime14() */
  predicate ValidDateTime14(t: Text) {
    |t| == 14 && AllDigits(t) && IsDateTime(FieldsOfDate(t))
  }

  /** The pattern yyyyMMddHHmmss for a year of the common era: from year 10000 on a
      plus sign precedes the year. */
  function Format14(d: DateTime): Text {
    (if d.year > 9999 then [0x2B] else []) + Padded(4, d.year) + Padded(2, d.month) + Padded(2, d.day)
    + Padded(2, d.hour) + Padded(2, d.minute) + Padded(2, d.second)
  }

  /** What validate() reports for one value, in order. */
  function ErrorsOf(f: Field, value: Option<Text>): seq<FieldError> {
    if value.None? then (if f.required then [Missing] else [])
    else
      var bytes := Utf8Length(value.value);
      (if f.required && bytes == 0 then [Empty] else [])
      + (if f.lengthType == EXACT && bytes != f.length then [WrongLength] else [])
      + (if f.lengthType == MAX && bytes > f.length then [TooLong] else [])
      + (if IsEnum(f.validation) && !EnumAllows(f.validation, value.value) then [NotInEnum] else [])
      + (if f.validation == Lit("DATETIME14") && !ValidDateTime14(value.value) then [InvalidDateTime] else [])
  }

  /** validate() */
  method Validate(f: Field, value: Option<Text>) returns (errors: seq<FieldError>)
    ensures errors == ErrorsOf(f, value)
  {
    hide ValidDateTime14, EnumAllows, Utf8Length, IsEnum;
    errors := [];
    if value.None? {
      if f.required {
        errors := errors + [Missing];
      }
      return;
    }
    var bytes := Utf8Length(value.value);
    if f.required && bytes == 0 {
      errors := errors + [Empty];
    }
    if f.lengthType == EXACT && bytes != f.length {
      errors := errors + [WrongLength];
    }
    if f.lengthType == MAX && bytes > f.length {
      errors := errors + [TooLong];
    }
    if IsEnum(f.validation) {
      var known := EnumContains(f.validation, value.value);
      if !known {
        errors := errors + [NotInEnum];
      }
    }
    if f.validation == Lit("DATETIME14") && !ValidDateTime14(value.value) {
      errors := errors + [InvalidDateTime];
    }
  }

  function If(check: bool, e: FieldError): seq<FieldError> { if check then [e] else [] }

  predicate InOrder(errors: seq<FieldError>) { forall i, j :: 0 <= i < j < |errors| ==> Rank(errors[i]) < Rank(errors[j]) }

  lemma {:induction false} OneMore(errors: seq<FieldError>, check: bool, e: FieldError)
    requires InOrder(errors) && forall x <- errors :: Rank(x) < Rank(e)
    ensures InOrder(errors + If(check, e)) && forall x <- errors + If(check, e) :: Rank(x) <= Rank(e)
    ensures forall x :: x in errors + If(check, e) <==> x in errors || (check && x == e)
  {
  }

  lemma {:induction false} FiveErrors(a: bool, b: bool, c: bool, d: bool, e: bool)
    ensures var errors := If(a, Empty) + If(b, WrongLength) + If(c, TooLong) + If(d, NotInEnum) + If(e, InvalidDateTime);
      && Missing !in errors && (Empty in errors <==> a) && (WrongLength in errors <==> b) && (TooLong in errors <==> c)
      && (NotInEnum in errors <==> d) && (InvalidDateTime in errors <==> e) && InOrder(errors)
  {
    hide If, InOrder;
    var one := If(a, Empty);
    Alone(a, Empty);
    OneMore(one, b, WrongLength);
    OneMore(one + If(b, WrongLength), c, TooLong);
    OneMore(one + If(b, WrongLength) + If(c, TooLong), d, NotInEnum);
    OneMore(one + If(b, WrongLength) + If(c, TooLong) + If(d, NotInEnum), e, InvalidDateTime);
  }

  lemma {:induction false} Alone(check: bool, e: FieldError)
    ensures InOrder(If(check, e)) && forall x :: x in If(check, e) <==> check && x == e
  {
  }

  /** Which errors a value gets: each exactly for its own reason, once, in this order. */
  lemma {:induction false} ErrorsMean(f: Field, value: Option<Text>)
    ensures var errors := ErrorsOf(f, value);
      && (Missing in errors <==> f.required && value.None?)
      && (Empty in errors <==> f.required && value == Some([]))
      && (WrongLength in errors <==> f.lengthType == EXACT && value.Some? && Utf8Length(value.value) != f.length)
      && (TooLong in errors <==> f.lengthType == MAX && value.Some? && Utf8Length(value.value) > f.length)
      && (NotInEnum in errors <==> StartsWith(f.validation, Lit("ENUM:")) && value.Some? && !EnumAllows(f.validation, value.value))
      && (InvalidDateTime in errors <==> f.validation == Lit("DATETIME14") && value.Some? && !ValidDateTime14(value.value))
      && InOrder(errors)
  {
    hide ValidDateTime14, EnumAllows, Utf8Length, StartsWith, Lit, Rank, InOrder;
    Alone(f.required, Missing);
    if value.Some? {
      var bytes := Utf8Length(value.value);
      NoBytesIff(value.value);
      FiveErrors(f.required && bytes == 0, f.lengthType == EXACT && bytes != f.length, f.lengthType == MAX && bytes > f.length,
        IsEnum(f.validation) && !EnumAllows(f.validation, value.value),
        f.validation == Lit("DATETIME14") && !ValidDateTime14(value.value));
    }
  }

  function Rank(e: FieldError): nat {
    match e
    case Missing => 0
    case Empty => 1
    case WrongLength => 2
    case TooLong => 3
    case NotInEnum => 4
    case InvalidDateTime => 5
  }

  // ------------------------------------------------------------------
  // Dates
  // ------------------------------------------------------------------

  lemma {:induction false} PaddedRange(width: nat, n: nat)
    requires (width == 2 && n < 100) || (width == 4 && n <= 9999)
    ensures |Padded(width, n)| == width && Number(Padded(width, n)) == n
  {
    PaddedMeans(width, n);
    assert Pow10(2) == 10 * (10 * Pow10(0));
    assert Pow10(4) == 10 * (10 * Pow10(2));
    PaddedLengthIff(width, n);
  }

  /** A date of year 0 to 9999 is recovered from its fourteen digits. */
  lemma {:induction false} FormattedDate(d: DateTime)
    requires IsDateTime(d) && d.year <= 9999
    ensures |Format14(d)| == 14 && AllDigits(Format14(d)) && FieldsOfDate(Format14(d)) == d
  {
    hide Padded, Number;
    var t := Format14(d);
    PaddedRange(4, d.year);
    PaddedRange(2, d.month);
    PaddedRange(2, d.day);
    PaddedRange(2, d.hour);
    PaddedRange(2, d.minute);
    PaddedRange(2, d.second);
    assert t[..4] == Padded(4, d.year) && t[4..6] == Padded(2, d.month) && t[6..8] == Padded(2, d.day);
    assert t[8..10] == Padded(2, d.hour) && t[10..12] == Padded(2, d.minute) && t[12..14] == Padded(2, d.second);
  }

  /** The accepted texts are exactly the fourteen-digit forms of real dates. */
  lemma {:induction false} ValidDateTime14Iff(t: Text)
    ensures ValidDateTime14(t) <==> exists d: DateTime :: IsDateTime(d) && d.year <= 9999 && Format14(d) == t
  {
    hide Format14, FieldsOfDate, IsDateTime;
    if ValidDateTime14(t) {
      ReformattedDate(t);
    }
    if d: DateTime :| IsDateTime(d) && d.year <= 9999 && Format14(d) == t {
      FormattedDate(d);
    }
  }

  lemma {:induction false} ReformattedDate(t: Text)
    requires |t| == 14 && AllDigits(t)
    ensures FieldsOfDate(t).year <= 9999 && Format14(FieldsOfDate(t)) == t
  {
    hide Padded, Number;
    DigitsArePadded(t[..4]);
    DigitsArePadded(t[4..6]);
    DigitsArePadded(t[6..8]);
    DigitsArePadded(t[8..10]);
    DigitsArePadded(t[10..12]);
    DigitsArePadded(t[12..14]);
    assert Pow10(4) == 10 * (10 * (10 * (10 * Pow10(0))));
    PaddedLengthIff(4, Number(t[..4]));
    assert t == [] + t[..4] + t[4..6] + t[6..8] + t[8..10] + t[10..12] + t[12..14];
  }

  /** What validate() accepts, in words of the map: a missing value if it is optional;
      otherwise a value that is there if required, of the exact or at most the maximal
      number of bytes, one of the ENUM choices, the digits of a real date. */
  lemma {:induction false} AcceptsIff(f: Field, value: Option<Text>)
    ensures ErrorsOf(f, value) == [] <==>
      match value
      case None => !f.required
      case Some(v) =>
        (&& (f.required ==> v != [])
         && (if f.lengthType == EXACT then Utf8Length(v) == f.length else Utf8Length(v) <= f.length)
         && (IsEnum(f.validation) ==> exists i :: 0 <= i < |Choices(f.validation)| && Trim(Choices(f.validation)[i]) == v)
         && (f.validation == Lit("DATETIME14") ==>
               exists d: DateTime :: IsDateTime(d) && d.year <= 9999 && Format14(d) == v))
  {
    hide Utf8Length, IsDateTime, Format14, FieldsOfDate, Trim, ValidDateTime14;
    if value.Some? {
      NoBytesIff(value.value);
      ValidDateTime14Iff(value.value);
    }
  }

  /** NOW14 passes DATETIME14 exactly until the year 9999. */
  lemma {:induction false} Now14IsValidIff(now: DateTime)
    requires IsDateTime(now)
    ensures ValidDateTime14(Format14(now)) <==> now.year <= 9999
  {
    hide Padded;
    if now.year <= 9999 {
      FormattedDate(now);
    } else {
      assert Format14(now)[0] == 0x2B;
    }
  }

  // ------------------------------------------------------------------
  // Loading
  // ------------------------------------------------------------------

  datatype MapError = ColumnCount | InvalidLength | InvalidDefinition | DuplicateField | TooManyFields

  datatype Line = Skipped | Bad(error: MapError) | Good(field: Field)

  predicate DefinitionIsValid(c: seq<Text>, length: int)
    requires |c| == 6
  {
    && c[0] != [] && Utf8Length(c[0]) < 128 && (c[1] == Lit("EXACT") || c[1] == Lit("MAX"))
    && 1 <= length <= MAX_VALUE_BYTES && (c[3] == Lit("Y") || c[3] == Lit("N"))
    && (c[4] == Lit("ANY") || c[4] == Lit("DATETIME14") || IsEnum(c[4])) && c[5] != []
  }

  /** One line of the map file, up to the checks that need the earlier lines. */
  function ParseLine(raw: Text): Line {
    var line := Trim(raw);
    if line == [] || line[0] == HASH then Skipped
    else
      var columns := SplitOn(line, BAR);
      if |columns| != 6 then Bad(ColumnCount)
      else
        var c := seq(6, i requires 0 <= i < 6 => Trim(columns[i]));
        var length := ParseDecimal(c[2], INT_MAX);
        if length.None? then Bad(InvalidLength)
        else if !DefinitionIsValid(c, length.value) then Bad(InvalidDefinition)
        else Good(Field(c[0], if c[1] == Lit("EXACT") then EXACT else MAX, length.value, c[3] == Lit("Y"), c[4], c[5]))
  }

  datatype LoadResult = Loaded(fields: seq<Field>) | Rejected(line: nat, error: MapError)

  predicate Names(fields: seq<Field>, name: Text) {
    exists i :: 0 <= i < |fields| && fields[i].name == name
  }

  /** The fields after the first `n` lines, or the first line that is refused and why. */
  function LoadLines(lines: seq<Text>): (r: LoadResult)
    ensures r.Rejected? ==> 1 <= r.line <= |lines|
  {
    if lines == [] then Loaded([])
    else
      var n := |lines|;
      match LoadLines(lines[..n - 1])
      case Rejected(line, error) => Rejected(line, error)
      case Loaded(fields) =>
        match ParseLine(lines[n - 1])
        case Skipped => Loaded(fields)
        case Bad(error) => Rejected(n, error)
        case Good(f) =>
          if Names(fields, f.name) then Rejected(n, DuplicateField)
          else if |fields| >= MAX_FIELDS then Rejected(n, TooManyFields)
          else Loaded(fields + [f])
  }

  /** load() */
  method Load(lines: seq<Text>) returns (r: LoadResult)
    ensures r == LoadLines(lines)
  {
    var fields: seq<Field> := [];
    var names: set<Text> := {};
    for n := 0 to |lines|
      invariant LoadLines(lines[..n]) == Loaded(fields)
      invariant forall name :: name in names <==> Names(fields, name)
    {
      assert lines[..n + 1][..n] == lines[..n];
      RejectedStays(lines, n + 1);
      match ParseLine(lines[n]) {
        case Skipped =>
        case Bad(error) =>
          return Rejected(n + 1, error);
        case Good(f) =>
          if f.name in names {
            return Rejected(n + 1, DuplicateField);
          }
          names := names + {f.name};
          if |fields| >= MAX_FIELDS {
            return Rejected(n + 1, TooManyFields);
          }
          NamesSnoc(fields, f);
          fields := fields + [f];
      }
    }
    assert lines[..|lines|] == lines;
    return Loaded(fields);
  }

  lemma {:induction false} NamesSnoc(fields: seq<Field>, f: Field)
    ensures forall name :: Names(fields + [f], name) <==> Names(fields, name) || name == f.name
  {
    forall name ensures Names(fields + [f], name) <==> Names(fields, name) || name == f.name {
      if Names(fields, name) {
        var i :| 0 <= i < |fields| && fields[i].name == name;
        assert (fields + [f])[i].name == name;
      }
      assert (fields + [f])[|fields|] == f;
    }
  }

  lemma {:induction false} RejectedStays(lines: seq<Text>, n: nat)
    requires n <= |lines|
    ensures LoadLines(lines[..n]).Rejected? ==> LoadLines(lines) == LoadLines(lines[..n])
    decreases |lines|
  {
    if n == |lines| {
      assert lines[..n] == lines;
    } else {
      RejectedStays(lines[..|lines| - 1], n);
      assert lines[..|lines| - 1][..n] == lines[..n];
    }
  }

  /** A field definition in force: what `load` checks of its columns. */
  predicate ValidField(f: Field) {
    && f.name != [] && Utf8Length(f.name) < 128 && 1 <= f.length <= MAX_VALUE_BYTES
    && (f.validation == Lit("ANY") || f.validation == Lit("DATETIME14") || IsEnum(f.validation)) && f.generator != []
    && WellFormed(f.name) && WellFormed(f.validation) && WellFormed(f.generator)
  }

  /** What the generator and the auditor rely on. */
  predicate ValidMap(fields: seq<Field>) {
    && |fields| <= MAX_FIELDS && (forall i :: 0 <= i < |fields| ==> ValidField(fields[i]))
    && (forall i, j :: 0 <= i < j < |fields| ==> fields[i].name != fields[j].name)
  }

  lemma {:induction false} GoodLineIsValid(raw: Text)
    requires WellFormed(raw) && ParseLine(raw).Good?
    ensures ValidField(ParseLine(raw).field)
  {
    hide SplitOn, Trim, WellFormed, Utf8Length, IsEnum, ParseDecimal;
    TrimWellFormed(raw);
    var columns := SplitOn(Trim(raw), BAR);
    SplitWellFormed(Trim(raw), BAR);
    TrimWellFormed(columns[0]);
    TrimWellFormed(columns[4]);
    TrimWellFormed(columns[5]);
  }

  /** Every map that loads from decoded text has distinct names and valid definitions. */
  lemma {:induction false} LoadedMapIsValid(lines: seq<Text>)
    requires AllWellFormed(lines) && LoadLines(lines).Loaded?
    ensures ValidMap(LoadLines(lines).fields)
    decreases |lines|
  {
    hide ParseLine, ValidField, WellFormed;
    if lines != [] {
      var n := |lines| - 1;
      LoadedMapIsValid(lines[..n]);
      var fields := LoadLines(lines[..n]).fields;
      if ParseLine(lines[n]).Good? {
        GoodLineIsValid(lines[n]);
      }
    }
  }

  /** The good lines among `lines`, in order. */
  function GoodFields(lines: seq<Text>): seq<Field> {
    if lines == [] then []
    else
      var init := GoodFields(lines[..|lines| - 1]);
      match ParseLine(lines[|lines| - 1])
      case Good(f) => init + [f]
      case _ => init
  }

  /** A map loads exactly when no line is malformed, no name repeats and there are at most
      128 fields; then it holds the defined fields in file order. */
  lemma {:induction false} LoadsIff(lines: seq<Text>)
    ensures LoadLines(lines).Loaded? <==>
      (&& (forall i :: 0 <= i < |lines| ==> !ParseLine(lines[i]).Bad?)
       && (forall i, j :: 0 <= i < j < |GoodFields(lines)| ==> GoodFields(lines)[i].name != GoodFields(lines)[j].name)
       && |GoodFields(lines)| <= 128)
    ensures LoadLines(lines).Loaded? ==> LoadLines(lines).fields == GoodFields(lines)
    decreases |lines|
  {
    hide ParseLine;
    if lines != [] {
      var n := |lines| - 1;
      LoadsIff(lines[..n]);
      var init, all := GoodFields(lines[..n]), GoodFields(lines);
      assert forall i :: 0 <= i < n ==> lines[..n][i] == lines[i];
      assert forall i :: 0 <= i < |init| ==> all[i] == init[i];
      if ParseLine(lines[n]).Good? && Names(init, ParseLine(lines[n]).field.name) {
        var i :| 0 <= i < |init| && init[i].name == ParseLine(lines[n]).field.name;
        assert all[i].name == all[|init|].name;
      }
    }
  }
}
