/** conf/maps/ack.map and conf/maps/result.map as files: their lines load to the maps that the
    socket agent's replies are made with. */
module ShippedMaps {
  import opened Wrappers
  import opened JsonString
  import opened TextTools
  import opened FieldMap
  import opened MessageCodec
  import opened SocketReplies
  import opened MapLanguage

  /** The six columns of a line. */
  datatype Row = Row(name: string, lengthType: string, length: string, required: string, validation: string, generator: string)

  function LineText(r: Row): string {
    r.name + " | " + r.lengthType + " | " + r.length + " | " + r.required + " | " + r.validation + " | " + r.generator
  }

  /** The defining lines of the two files, which differ in the first and the fourth. */
  function RowOf(kind: ResponseKind, k: nat): Row {
    match k
    case 0 => if kind.ACK? then Row("RESP_KIND", "MAX", "6", "Y", "ENUM:ACK", "FIXED:ACK")
              else Row("RESP_KIND", "MAX", "6", "Y", "ENUM:RESULT", "FIXED:RESULT")
    case 1 => Row("RESULT_CODE", "EXACT", "4", "Y", "ANY", "FIXED:0000")
    case 2 => Row("RESULT_GROUP_CODE", "EXACT", "2", "Y", "ENUM:01,02,03", "FIXED:01")
    case 3 => if kind.ACK? then Row("REASON", "MAX", "32", "Y", "ANY", "FIXED:SUCCESS")
              else Row("REASON", "MAX", "32", "Y", "ANY", "FIXED:DELIVERED")
    case 4 => Row("MSG_KIND", "MAX", "2", "Y", "ENUM:S,L,M,AL,RC", "FIXED:S")
    case 5 => Row("SEND_TIME", "EXACT", "14", "Y", "DATETIME14", "NOW14")
    case 6 => Row("HISTORY_KEY", "MAX", "40", "Y", "ANY", "SEQ:HIST,1,8")
    case 7 => Row("DONE_DATE", "EXACT", "14", "Y", "DATETIME14", "NOW14")
    case 8 => Row("TELECOM_CODE", "MAX", "4", "Y", "ANY", "FIXED:KT")
    case 9 => Row("SESSION_ID", "MAX", "32", "N", "ANY", "SEQ:SID,1,8")
    case 10 => Row("SESSION_NO", "MAX", "32", "N", "ANY", "SEQ:1,1,8")
    case 11 => Row("SERVICE", "MAX", "15", "N", "ANY", "FIXED:SMS")
    case _ => Row("CUSTOMER", "MAX", "32", "N", "ANY", "FIXED:TEST")
  }

  const FIRST_COMMENT := "#" + " ACK response map; generator column ignored by audit.c"
  const SECOND_COMMENT := "#" + " NAME | LENGTH_TYPE | LENGTH | REQUIRED | VALIDATION | GENERATOR"

  /** The lines of a file up to its `n`-th definition. */
  function FileLines(kind: ResponseKind, n: nat): seq<Text> {
    if n == 0 then [Lit(FIRST_COMMENT), Lit(SECOND_COMMENT)] else FileLines(kind, n - 1) + [Lit(LineText(RowOf(kind, n - 1)))]
  }

  // ------------------------------------------------------------------
  // One line
  // ------------------------------------------------------------------

  /** A column without blanks at its ends and without a bar. */
  predicate IsColumn(s: string) {
    s != [] && '|' !in s && ' ' < s[0] <= '~' && ' ' < s[|s| - 1] <= '~'
  }

  lemma {:induction false} LitConcat(a: string, b: string)
    ensures Lit(a + b) == Lit(a) + Lit(b)
  {
  }

  lemma {:induction false} ColumnIsText(s: string)
    requires IsColumn(s)
    ensures Lit(s) != [] && BAR !in Lit(s) && Lit(s)[0] > 0x20 && Lit(s)[|s| - 1] > 0x20
  {
    forall i | 0 <= i < |s| ensures Lit(s)[i] != BAR {
      assert s[i] in s;
    }
  }

  lemma {:induction false} BlankBefore(t: Text)
    requires t != [] && t[0] > 0x20
    ensures TrimStart(t) == t && TrimStart([0x20] + t) == t
  {
    assert ([0x20] + t)[1..] == t;
  }

  lemma {:induction false} BlankAfter(t: Text)
    requires t != [] && t[|t| - 1] > 0x20
    ensures TrimEnd(t) == t && TrimEnd(t + [0x20]) == t
  {
    assert (t + [0x20])[..|t|] == t;
  }

  lemma {:induction false} TrimPadded(t: Text, before: bool, after: bool)
    requires t != [] && t[0] > 0x20 && t[|t| - 1] > 0x20
    ensures Trim((if before then [0x20] else []) + t + (if after then [0x20] else [])) == t
  {
    hide TrimStart, TrimEnd;
    var b, a: Text := if before then [0x20] else [], if after then [0x20] else [];
    assert b + t + a == b + (t + a);
    assert [] + (t + a) == t + a && t + [] == t;
    BlankBefore(t + a);
    BlankAfter(t);
  }

  predicate Columnar(r: Row) {
    IsColumn(r.name) && IsColumn(r.lengthType) && IsColumn(r.length) && IsColumn(r.required) && IsColumn(r.validation) && IsColumn(r.generator)
  }

  /** The columns of a line, with the blanks around the bars. */
  function Padded6(r: Row): seq<Text> {
    [[] + Lit(r.name) + [0x20], [0x20] + Lit(r.lengthType) + [0x20], [0x20] + Lit(r.length) + [0x20],
     [0x20] + Lit(r.required) + [0x20], [0x20] + Lit(r.validation) + [0x20], [0x20] + Lit(r.generator) + []]
  }

  lemma {:induction false} LineJoins(r: Row)
    ensures Lit(LineText(r)) == JoinWith(Padded6(r), BAR)
  {
    hide Lit;
    assert Lit(" | ") == [0x20, BAR, 0x20] by { BarText(); }
    var five := r.name + " | " + r.lengthType + " | " + r.length + " | " + r.required + " | " + r.validation;
    LitConcat(five + " | ", r.generator);
    LitConcat(five, " | ");
    LitConcat(r.name + " | " + r.lengthType + " | " + r.length + " | " + r.required + " | ", r.validation);
    LitConcat(r.name + " | " + r.lengthType + " | " + r.length + " | " + r.required, " | ");
    LitConcat(r.name + " | " + r.lengthType + " | " + r.length + " | ", r.required);
    LitConcat(r.name + " | " + r.lengthType + " | " + r.length, " | ");
    LitConcat(r.name + " | " + r.lengthType + " | ", r.length);
    LitConcat(r.name + " | " + r.lengthType, " | ");
    LitConcat(r.name + " | ", r.lengthType);
    LitConcat(r.name, " | ");
    SixJoined(Padded6(r));
  }

  lemma {:induction false} BarText()
    ensures Lit(" | ") == [0x20, BAR, 0x20]
  {
  }

  lemma {:induction false} SixJoined(cs: seq<Text>)
    requires |cs| == 6
    ensures JoinWith(cs, BAR) == cs[0] + [BAR] + (cs[1] + [BAR] + (cs[2] + [BAR] + (cs[3] + [BAR] + (cs[4] + [BAR] + cs[5]))))
  {
    assert cs[1..][1..] == cs[2..] && cs[2..][1..] == cs[3..] && cs[3..][1..] == cs[4..] && cs[4..][1..] == cs[5..];
    assert JoinWith(cs[5..], BAR) == cs[5];
    assert JoinWith(cs[4..], BAR) == cs[4] + [BAR] + cs[5];
    assert JoinWith(cs[3..], BAR) == cs[3] + [BAR] + JoinWith(cs[4..], BAR);
    assert JoinWith(cs[2..], BAR) == cs[2] + [BAR] + JoinWith(cs[3..], BAR);
    assert JoinWith(cs[1..], BAR) == cs[1] + [BAR] + JoinWith(cs[2..], BAR);
  }

  /** The columns of the row say this of the field. */
  predicate Describes(r: Row, f: Field) {
    && Columnar(r) && Lit(r.name) == f.name && |r.name| < 128 && r.name[0] != '#'
    && r.lengthType == (match f.lengthType case EXACT => "EXACT" case MAX => "MAX")
    && ParseDecimal(Lit(r.length), INT_MAX) == Some(f.length) && 1 <= f.length <= 2047
    && r.required == (if f.required then "Y" else "N") && Lit(r.validation) == f.validation
    && (r.validation == "ANY" || r.validation == "DATETIME14" || StartsWith(f.validation, Lit("ENUM:")))
    && Lit(r.generator) == f.generator
  }

  lemma {:induction false} ColumnsTrim(r: Row)
    requires Columnar(r)
    ensures var cs := Padded6(r);
      && (forall i :: 0 <= i < 6 ==> BAR !in cs[i])
      && Trim(cs[0]) == Lit(r.name) && Trim(cs[1]) == Lit(r.lengthType) && Trim(cs[2]) == Lit(r.length)
      && Trim(cs[3]) == Lit(r.required) && Trim(cs[4]) == Lit(r.validation) && Trim(cs[5]) == Lit(r.generator)
  {
    hide Lit, Trim, IsColumn;
    ColumnIsText(r.name);
    ColumnIsText(r.lengthType);
    ColumnIsText(r.length);
    ColumnIsText(r.required);
    ColumnIsText(r.validation);
    ColumnIsText(r.generator);
    TrimPadded(Lit(r.name), false, true);
    TrimPadded(Lit(r.lengthType), true, true);
    TrimPadded(Lit(r.length), true, true);
    TrimPadded(Lit(r.required), true, true);
    TrimPadded(Lit(r.validation), true, true);
    TrimPadded(Lit(r.generator), true, false);
  }

  /** A line begins and ends with no blank. */
  lemma {:induction false} LineIsTrimmed(r: Row)
    requires Columnar(r) && r.name[0] != '#'
    ensures var t := Lit(LineText(r)); t != [] && Trim(t) == t && t[0] != HASH
  {
    hide Lit;
    var head := r.name + " | " + r.lengthType + " | " + r.length + " | " + r.required + " | " + r.validation + " | ";
    LitConcat(head, r.generator);
    LitConcat(r.name, head[|r.name|..]);
    assert r.name + head[|r.name|..] == head;
    ColumnIsText(r.name);
    ColumnIsText(r.generator);
    FirstUnit(r.name);
    TrimPadded(Lit(LineText(r)), false, false);
  }

  lemma {:induction false} FirstUnit(s: string)
    requires s != [] && s[0] != '#' && s[0] as int < 0x80
    ensures Lit(s)[0] != HASH
  {
  }

  lemma {:induction false} RowReads(r: Row, f: Field)
    requires Describes(r, f)
    ensures ParseLine(Lit(LineText(r))) == Good(f)
  {
    hide Lit, Trim, ParseDecimal, StartsWith, ParseLine, Utf8Length;
    var cs := Padded6(r);
    ColumnsTrim(r);
    LineJoins(r);
    LineIsTrimmed(r);
    NameIsShort(r.name);
    assert Columns(cs, f);
    LineReadsIff(Lit(LineText(r)), f);
  }

  lemma {:induction false} NameIsShort(name: string)
    requires IsColumn(name) && |name| < 128
    ensures Utf8Length(Lit(name)) < 128
  {
    hide Utf8Length;
    Utf8LengthOfAscii(Lit(name));
  }

  // ------------------------------------------------------------------
  // The shipped lines
  // ------------------------------------------------------------------

  lemma {:induction false} TwoDigits(s: string)
    requires |s| in {1, 2} && forall i :: 0 <= i < |s| ==> '0' <= s[i] <= '9'
    ensures ParseDecimal(Lit(s), INT_MAX) ==
      Some(if |s| == 1 then s[0] as int - 0x30 else 10 * (s[0] as int - 0x30) + (s[1] as int - 0x30))
  {
    var t := Lit(s);
    assert t[..0] == [];
    assert Number(t[..1]) == t[0] - ZERO by { assert t[..1][..0] == []; }
    assert |s| == 1 ==> t[..1] == t;
    assert |s| == 2 ==> Number(t) == 10 * Number(t[..1]) + (t[1] - ZERO);
  }

  lemma {:induction false} EnumTexts()
    ensures Enum([KindText(ACK)]) == Lit("ENUM:ACK") && Enum([KindText(RESULT)]) == Lit("ENUM:RESULT")
    ensures Enum(GROUPS) == Lit("ENUM:01,02,03") && Enum(KINDS) == Lit("ENUM:S,L,M,AL,RC")
  {
    LitConcat("ENUM:", "ACK");
    LitConcat("ENUM:", "RESULT");
    assert JoinWith(GROUPS, COMMA_UNIT) == Lit("01,02,03") by {
      assert GROUPS[1..] == [Lit("02"), Lit("03")] && GROUPS[1..][1..] == [Lit("03")];
      assert JoinWith([Lit("03")], COMMA_UNIT) == Lit("03");
      assert JoinWith([Lit("02"), Lit("03")], COMMA_UNIT) == Lit("02") + [COMMA_UNIT] + Lit("03");
    }
    LitConcat("ENUM:", "01,02,03");
    KindsJoined();
    LitConcat("ENUM:", "S,L,M,AL,RC");
  }

  lemma {:induction false} KindsJoined()
    ensures JoinWith(KINDS, COMMA_UNIT) == Lit("S,L,M,AL,RC")
  {
    var a, b, c, d := [Lit("RC")], [Lit("AL"), Lit("RC")], [Lit("M"), Lit("AL"), Lit("RC")], [Lit("L"), Lit("M"), Lit("AL"), Lit("RC")];
    assert KINDS[1..] == d && d[1..] == c && c[1..] == b && b[1..] == a;
    assert JoinWith(a, COMMA_UNIT) == Lit("RC");
    assert JoinWith(b, COMMA_UNIT) == Lit("AL") + [COMMA_UNIT] + Lit("RC") == Lit("AL,RC");
    assert JoinWith(c, COMMA_UNIT) == Lit("M") + [COMMA_UNIT] + Lit("AL,RC") == Lit("M,AL,RC");
    assert JoinWith(d, COMMA_UNIT) == Lit("L") + [COMMA_UNIT] + Lit("M,AL,RC") == Lit("L,M,AL,RC");
  }

  lemma {:induction false} NameIsColumn1(kind: ResponseKind, k: nat)
    requires k < 4
    ensures var name := RowOf(kind, k).name; IsColumn(name) && |name| < 128 && name[0] != '#'
  {
  }

  lemma {:induction false} NameIsColumn2(kind: ResponseKind, k: nat)
    requires 4 <= k < 8
    ensures var name := RowOf(kind, k).name; IsColumn(name) && |name| < 128 && name[0] != '#'
  {
  }

  lemma {:induction false} NameIsColumn3(kind: ResponseKind, k: nat)
    requires 8 <= k < 13
    ensures var name := RowOf(kind, k).name; IsColumn(name) && |name| < 128 && name[0] != '#'
  {
  }

  lemma {:induction false} NameIsColumn(kind: ResponseKind, k: nat)
    requires k < 13
    ensures var name := RowOf(kind, k).name; IsColumn(name) && |name| < 128 && name[0] != '#'
  {
    hide RowOf, IsColumn;
    if k < 4 {
      NameIsColumn1(kind, k);
    } else if k < 8 {
      NameIsColumn2(kind, k);
    } else {
      NameIsColumn3(kind, k);
    }
  }

  lemma {:induction false} ShortColumns(kind: ResponseKind, k: nat)
    requires k < 13
    ensures var r := RowOf(kind, k); IsColumn(r.lengthType) && IsColumn(r.length) && IsColumn(r.required)
  {
  }

  lemma {:induction false} ValidationIsColumn1(kind: ResponseKind, k: nat)
    requires k < 2
    ensures IsColumn(RowOf(kind, k).validation)
  {
  }

  lemma {:induction false} ValidationIsColumn2(kind: ResponseKind, k: nat)
    requires 2 <= k < 4
    ensures IsColumn(RowOf(kind, k).validation)
  {
  }

  lemma {:induction false} ValidationIsColumn3(kind: ResponseKind, k: nat)
    requires 4 <= k < 5
    ensures IsColumn(RowOf(kind, k).validation)
  {
  }

  lemma {:induction false} ValidationIsColumn4(kind: ResponseKind, k: nat)
    requires 5 <= k < 13
    ensures IsColumn(RowOf(kind, k).validation)
  {
  }

  lemma {:induction false} ValidationIsColumn(kind: ResponseKind, k: nat)
    requires k < 13
    ensures IsColumn(RowOf(kind, k).validation)
  {
    hide RowOf, IsColumn;
    if k < 2 {
      ValidationIsColumn1(kind, k);
    } else if k < 4 {
      ValidationIsColumn2(kind, k);
    } else if k < 5 {
      ValidationIsColumn3(kind, k);
    } else {
      ValidationIsColumn4(kind, k);
    }
  }

  lemma {:induction false} GeneratorIsColumn1(kind: ResponseKind, k: nat)
    requires k < 3
    ensures IsColumn(RowOf(kind, k).generator)
  {
  }

  lemma {:induction false} GeneratorIsColumn2(kind: ResponseKind, k: nat)
    requires 3 <= k < 6
    ensures IsColumn(RowOf(kind, k).generator)
  {
  }

  lemma {:induction false} GeneratorIsColumn3(kind: ResponseKind, k: nat)
    requires 6 <= k < 9
    ensures IsColumn(RowOf(kind, k).generator)
  {
  }

  lemma {:induction false} GeneratorIsColumn4(kind: ResponseKind, k: nat)
    requires 9 <= k < 13
    ensures IsColumn(RowOf(kind, k).generator)
  {
  }

  lemma {:induction false} GeneratorIsColumn(kind: ResponseKind, k: nat)
    requires k < 13
    ensures IsColumn(RowOf(kind, k).generator)
  {
    hide RowOf, IsColumn;
    if k < 3 {
      GeneratorIsColumn1(kind, k);
    } else if k < 6 {
      GeneratorIsColumn2(kind, k);
    } else if k < 9 {
      GeneratorIsColumn3(kind, k);
    } else {
      GeneratorIsColumn4(kind, k);
    }
  }

  lemma {:induction false} RowIsColumnar(kind: ResponseKind, k: nat)
    requires k < 13
    ensures Columnar(RowOf(kind, k)) && |RowOf(kind, k).name| < 128 && RowOf(kind, k).name[0] != '#'
  {
    hide RowOf, IsColumn;
    NameIsColumn(kind, k);
    ShortColumns(kind, k);
    ValidationIsColumn(kind, k);
    GeneratorIsColumn(kind, k);
  }

  lemma {:induction false} RowLength(kind: ResponseKind, k: nat)
    requires k < 13
    ensures ParseDecimal(Lit(RowOf(kind, k).length), INT_MAX) == Some(ReplyField(kind, k).length)
    ensures 1 <= ReplyField(kind, k).length <= 2047
  {
    hide ParseDecimal, Enum, JoinWith, Lit;
    TwoDigits(RowOf(kind, k).length);
  }

  lemma {:induction false} RowTexts(kind: ResponseKind, k: nat)
    requires k < 13
    ensures var r, f := RowOf(kind, k), ReplyField(kind, k);
      && Lit(r.name) == f.name && Lit(r.validation) == f.validation && Lit(r.generator) == f.generator
      && r.lengthType == (match f.lengthType case EXACT => "EXACT" case MAX => "MAX")
      && r.required == (if f.required then "Y" else "N")
  {
    hide Enum, Lit;
    EnumTexts();
    LitConcat("FIXED:", if kind.ACK? then "ACK" else "RESULT");
    assert "FIXED:" + "KT" == "FIXED:KT" && "FIXED:" + "SMS" == "FIXED:SMS" && "FIXED:" + "TEST" == "FIXED:TEST";
    assert "SEQ:" + "SID,1,8" == "SEQ:SID,1,8" && "SEQ:" + "1,1,8" == "SEQ:1,1,8";
    assert "FIXED:" + "ACK" == "FIXED:ACK" && "FIXED:" + "RESULT" == "FIXED:RESULT";
  }

  lemma {:induction false} RowValidation(kind: ResponseKind, k: nat)
    requires k < 13
    ensures var r, f := RowOf(kind, k), ReplyField(kind, k);
      r.validation == "ANY" || r.validation == "DATETIME14" || StartsWith(f.validation, Lit("ENUM:"))
  {
    hide Lit;
  }

  /** Each defining line of the files is the field the replies are made with. */
  lemma {:induction false} LinesDescribe(kind: ResponseKind, k: nat)
    requires k < 13
    ensures Describes(RowOf(kind, k), ReplyField(kind, k))
  {
    hide ParseDecimal, RowOf, ReplyField, Columnar, Lit, StartsWith;
    RowIsColumnar(kind, k);
    RowLength(kind, k);
    RowTexts(kind, k);
    RowValidation(kind, k);
  }

  /** Which of the thirteen names a text is. */
  function NameIndex(t: Text): nat {
    match |t|
    case 6 => 3
    case 7 => 11
    case 8 => if t[0] == 'M' as int then 4 else 12
    case 9 => if t[0] == 'R' as int then 0 else if t[0] == 'S' as int then 5 else 7
    case 10 => if t[8] == 'I' as int then 9 else 10
    case 11 => if t[0] == 'R' as int then 1 else 6
    case 12 => 8
    case _ => 2
  }

  lemma {:induction false} NamesAreIndexed(kind: ResponseKind, k: nat)
    requires k < 13
    ensures NameIndex(ReplyField(kind, k).name) == k
  {
  }

  lemma {:induction false} NoFieldsYet(kind: ResponseKind)
    ensures GoodFields(FileLines(kind, 0)) == []
    ensures forall i :: 0 <= i < 2 ==> !ParseLine(FileLines(kind, 0)[i]).Bad?
  {
    hide ParseLine, Lit;
    CommentsAreSkipped();
    var lines := FileLines(kind, 0);
    assert lines[..1] == [Lit(FIRST_COMMENT)];
    var nothing: seq<Text> := [];
    assert lines[..1][..0] == nothing;
    assert GoodFields(lines[..1]) == [];
  }

  lemma {:induction false} FileFields(kind: ResponseKind, n: nat)
    requires n <= 13
    ensures |FileLines(kind, n)| == n + 2 && GoodFields(FileLines(kind, n)) == ReplyMap(kind)[..n]
    ensures forall i :: 0 <= i < n + 2 ==> !ParseLine(FileLines(kind, n)[i]).Bad?
  {
    hide ParseLine, Lit, RowOf, ReplyField, LineText, Describes;
    if n == 0 {
      NoFieldsYet(kind);
    } else {
      FileFields(kind, n - 1);
      LinesDescribe(kind, n - 1);
      RowReads(RowOf(kind, n - 1), ReplyField(kind, n - 1));
      var lines := FileLines(kind, n);
      assert lines[..|lines| - 1] == FileLines(kind, n - 1);
      assert ReplyMap(kind)[..n] == ReplyMap(kind)[..n - 1] + [ReplyField(kind, n - 1)];
    }
  }

  lemma {:induction false} CommentsAreSkipped()
    ensures ParseLine(Lit(FIRST_COMMENT)) == Skipped && ParseLine(Lit(SECOND_COMMENT)) == Skipped
  {
    hide ParseLine;
    assert FIRST_COMMENT[0] == '#' && SECOND_COMMENT[0] == '#';
    CommentIsSkipped(Lit(FIRST_COMMENT));
    CommentIsSkipped(Lit(SECOND_COMMENT));
  }

  lemma {:induction false} CommentIsSkipped(t: Text)
    requires t != [] && t[0] == HASH
    ensures ParseLine(t) == Skipped
  {
    var a, b := TrimMeans(t);
    assert a == 0;
  }

  /** The shipped files load, to exactly the maps the replies of the socket agent are made with. */
  lemma {:induction false} ShippedFilesLoad(kind: ResponseKind)
    ensures LoadLines(FileLines(kind, 13)) == Loaded(ReplyMap(kind))
  {
    hide ParseLine, FileLines, ReplyField, NameIndex;
    FileFields(kind, 13);
    assert ReplyMap(kind)[..13] == ReplyMap(kind);
    forall i, j | 0 <= i < j < 13 ensures ReplyMap(kind)[i].name != ReplyMap(kind)[j].name {
      NamesAreIndexed(kind, i);
      NamesAreIndexed(kind, j);
    }
    LoadsIff(FileLines(kind, 13));
  }
}
