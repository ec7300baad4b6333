/** What the socket agent answers: the ACK for what the telecom accepted, the RESULT for what
    it reports, and when the shipped response maps let them be made. */
module SocketReplies {
  import opened Wrappers
  import opened JsonString
  import opened JsonObject
  import opened TextTools
  import opened FieldMap
  import opened Generator
  import opened MessageCodec

  /** TelecomAcceptance and TelecomDelivery; None stands for null. */
  datatype Acceptance = Acceptance(code: Option<Text>, group: Option<Text>, sessionId: Option<Text>, sessionNo: Option<Text>)
  datatype Delivery = Delivery(
    code: Text, group: Option<Text>, reason: Option<Text>, sessionId: Option<Text>, sessionNo: Option<Text>)

  const SESSION_ID := Lit("SESSION_ID")
  const SESSION_NO := Lit("SESSION_NO")
  const TELECOM_CODE := Lit("TELECOM_CODE")
  const SERVICE := Lit("SERVICE")
  const CUSTOMER := Lit("CUSTOMER")

  /** Map.put on a LinkedHashMap. */
  function Put(es: Entries, key: Text, value: Text): Entries {
    if es == [] then [(key, value)]
    else if es[|es| - 1].0 == key then es[..|es| - 1] + [(key, value)]
    else if Has(es, key) then Put(es[..|es| - 1], key, value) + [es[|es| - 1]]
    else es + [(key, value)]
  }

  function OrEmpty(t: Option<Text>): Text { if t.Some? then t.value else [] }

  function OrDefault(t: Option<Text>, default: string): Text {
    if t.None? || IsBlank(t.value) then Lit(default) else t.value
  }

  function WithSession(request: Entries, id: Option<Text>, no: Option<Text>): Entries {
    Put(Put(request, SESSION_ID, OrEmpty(id)), SESSION_NO, OrEmpty(no))
  }

  /** The fields the ACK is made from; None is a failed submission. */
  function AckRequest(request: Entries, a: Option<Acceptance>): Entries {
    if a.None? then request else WithSession(request, a.value.sessionId, a.value.sessionNo)
  }

  function AckResponse(a: Option<Acceptance>): Response {
    match a
    case None => Response(ACK, Lit("9999"), Lit("03"), Some(Lit("TELECOM_ERROR")))
    case Some(x) =>
      var success := x.code == Some(Lit("0000"));
      Response(ACK, Lit(if success then "0000" else "9999"), OrDefault(x.group, "03"),
               Some(Lit(if success then "SUCCESS" else "TELECOM_REJECTED")))
  }

  function ResultRequest(request: Entries, d: Delivery): Entries { WithSession(request, d.sessionId, d.sessionNo) }

  function ResultResponse(d: Delivery): Response {
    Response(RESULT, d.code, OrDefault(d.group, "03"), Some(OrDefault(d.reason, "DELIVERED")))
  }

  /** One call of generate(): the number the sequence counter gives it and its moment. */
  datatype Call = Call(index: int, m: Moment)

  /** A counter of type long, real clock readings before the year 10000. */
  predicate ValidCall(k: Call) {
    && 1 <= k.index <= LONG_MAX
    && IsDateTime(k.m.sendTime) && k.m.sendTime.year <= 9999 && IsDateTime(k.m.doneDate) && k.m.doneDate.year <= 9999
  }

  predicate AckMade(fields: seq<Field>, request: Entries, a: Option<Acceptance>, k: Call)
    requires ValidCall(k)
  {
    Makes(fields, AckRequest(request, a), AckResponse(a), k.index, k.m)
  }

  /** The refusal of a request whose audit reported errors. */
  const REFUSAL := Response(ACK, Lit("9999"), Lit("03"), Some(Lit("AUDIT_ERROR")))

  predicate RefusalMade(fields: seq<Field>, request: Entries, k: Call)
    requires ValidCall(k)
  {
    Makes(fields, request, REFUSAL, k.index, k.m)
  }

  predicate ResultMade(fields: seq<Field>, request: Entries, d: Delivery, k: Call)
    requires ValidCall(k)
  {
    Makes(fields, ResultRequest(request, d), ResultResponse(d), k.index, k.m)
  }

  lemma {:induction false} PutGet(es: Entries, key: Text, value: Text, other: Text)
    ensures Get(Put(es, key, value), other) == if other == key then Some(value) else Get(es, other)
    decreases |es|
  {
    if es != [] {
      var init, last := es[..|es| - 1], es[|es| - 1];
      if last.0 == key {
        assert (init + [(key, value)])[..|es| - 1] == init;
      } else if Has(es, key) {
        PutGet(init, key, value, other);
        var put := Put(init, key, value) + [last];
        assert put[..|put| - 1] == Put(init, key, value);
      } else {
        assert (es + [(key, value)])[..|es|] == es;
      }
    }
  }

  // ------------------------------------------------------------------
  // The shipped response maps
  // ------------------------------------------------------------------

  /** conf/maps/ack.map and conf/maps/result.map, which differ in two lines. */
  function ReplyMap(kind: ResponseKind): (fields: seq<Field>)
    ensures |fields| == 13
  {
    seq(13, k requires 0 <= k < 13 => ReplyField(kind, k))
  }

  function ReplyField(kind: ResponseKind, k: nat): Field {
    match k
    case 0 => KindField(kind)
    case 1 => CODE_FIELD
    case 2 => GROUP_FIELD
    case 3 => ReasonField(kind)
    case 4 => MSG_KIND_FIELD
    case 5 => SEND_FIELD
    case 6 => HISTORY_FIELD
    case 7 => DONE_FIELD
    case 8 => TELECOM_FIELD
    case 9 => SESSION_ID_FIELD
    case 10 => SESSION_NO_FIELD
    case 11 => SERVICE_FIELD
    case _ => CUSTOMER_FIELD
  }

  function KindField(kind: ResponseKind): Field {
    Field(Lit("RESP_KIND"), MAX, 6, true, Enum([KindText(kind)]), Lit("FIXED:") + KindText(kind))
  }

  function ReasonField(kind: ResponseKind): Field {
    Field(Lit("REASON"), MAX, 32, true, Lit("ANY"), Lit(if kind.ACK? then "FIXED:SUCCESS" else "FIXED:DELIVERED"))
  }

  const CODE_FIELD := Field(RESULT_CODE, EXACT, 4, true, Lit("ANY"), Lit("FIXED:0000"))
  const GROUP_FIELD := Field(Lit("RESULT_GROUP_CODE"), EXACT, 2, true, Enum(GROUPS), Lit("FIXED:01"))
  const MSG_KIND_FIELD := Field(MSG_KIND, MAX, 2, true, Enum(KINDS), Lit("FIXED:S"))
  const SEND_FIELD := Field(Lit("SEND_TIME"), EXACT, 14, true, Lit("DATETIME14"), Lit("NOW14"))
  const HISTORY_FIELD := Field(HISTORY_KEY, MAX, 40, true, Lit("ANY"), Lit("SEQ:HIST,1,8"))
  const DONE_FIELD := Field(Lit("DONE_DATE"), EXACT, 14, true, Lit("DATETIME14"), Lit("NOW14"))
  const TELECOM_FIELD := Field(TELECOM_CODE, MAX, 4, true, Lit("ANY"), Lit("FIXED:" + "KT"))
  const SESSION_ID_FIELD := Field(SESSION_ID, MAX, 32, false, Lit("ANY"), Lit("SEQ:" + "SID,1,8"))
  const SESSION_NO_FIELD := Field(SESSION_NO, MAX, 32, false, Lit("ANY"), Lit("SEQ:" + "1,1,8"))
  const SERVICE_FIELD := Field(SERVICE, MAX, 15, false, Lit("ANY"), Lit("FIXED:" + "SMS"))
  const CUSTOMER_FIELD := Field(CUSTOMER, MAX, 32, false, Lit("ANY"), Lit("FIXED:" + "TEST"))

  /** ENUM: and the items separated by commas. */
  function Enum(items: seq<Text>): Text
    requires |items| >= 1
  {
    Lit("ENUM:") + JoinWith(items, COMMA_UNIT)
  }

  const GROUPS := [Lit("01"), Lit("02"), Lit("03")]
  const KINDS := [Lit("S"), Lit("L"), Lit("M"), Lit("AL"), Lit("RC")]

  /** The value is absent, or it has at most that many bytes. */
  predicate AtMost(value: Option<Text>, bytes: nat) { value.Some? ==> Utf8Length(value.value) <= bytes }

  /** What the shipped maps ask of the request's own fields. */
  predicate RequestFits(request: Entries) {
    && Get(request, HISTORY_KEY).Some? && !IsBlank(Get(request, HISTORY_KEY).value)
    && AtMost(Get(request, HISTORY_KEY), 40)
    && Get(request, MSG_KIND).Some? && Get(request, MSG_KIND).value in KINDS
    && AtMost(Get(request, TELECOM_CODE), 4) && Get(request, TELECOM_CODE) != Some([])
    && AtMost(Get(request, SERVICE), 15) && AtMost(Get(request, CUSTOMER), 32)
  }

  predicate SessionFits(request: Entries) {
    AtMost(Get(request, SESSION_ID), 32) && AtMost(Get(request, SESSION_NO), 32)
  }

  /** What they ask of the response. */
  predicate ResponseFits(response: Response) {
    Utf8Length(response.code) == 4 && response.group in GROUPS
  }

  // ------------------------------------------------------------------
  // One field at a time
  // ------------------------------------------------------------------

  lemma {:induction false} AnyField(f: Field, v: Text)
    requires f.validation == Lit("ANY")
    ensures ErrorsOf(f, Some(v)) == [] <==>
      (&& (f.required ==> v != [])
       && (if f.lengthType == EXACT then Utf8Length(v) == f.length else Utf8Length(v) <= f.length))
  {
    hide Utf8Length, ValidDateTime14;
    NoBytesIff(v);
  }

  lemma {:induction false} DateField(f: Field, d: DateTime)
    requires f.validation == Lit("DATETIME14") && f.lengthType == EXACT && f.length == 14
    requires IsDateTime(d) && d.year <= 9999
    ensures ErrorsOf(f, Some(Format14(d))) == []
  {
    hide Format14, FieldsOfDate, IsDateTime, ValidDateTime14;
    NoEnumHere();
    Now14IsValidIff(d);
    FormattedDate(d);
    Utf8LengthOfAscii(Format14(d));
  }

  lemma {:induction false} NoEnumHere()
    ensures !IsEnum(Lit("DATETIME14")) && !IsEnum(Lit("ANY"))
  {
    assert Lit("DATETIME14")[0] != Lit("ENUM:")[0];
  }

  /** Text without blanks at its ends. */
  predicate Tight(t: Text) { t != [] && t[0] > 0x20 && t[|t| - 1] > 0x20 && COMMA_UNIT !in t }

  /** The ENUM of tight items allows exactly these items. */
  lemma {:induction false} EnumAllowsItems(items: seq<Text>, v: Text)
    requires |items| >= 1 && forall i :: 0 <= i < |items| ==> Tight(items[i])
    ensures IsEnum(Enum(items)) && (EnumAllows(Enum(items), v) <==> v in items)
  {
    hide SplitOn, JoinWith;
    assert Enum(items)[..5] == Lit("ENUM:");
    assert Enum(items)[5..] == JoinWith(items, COMMA_UNIT);
    SplitOfJoin(items, COMMA_UNIT);
    assert forall i :: 0 <= i < |items| ==> Trim(items[i]) == items[i];
    assert Choices(Enum(items)) == items;
    if v in items {
      var i :| 0 <= i < |items| && items[i] == v;
      assert Trim(Choices(Enum(items))[i]) == v;
    }
  }

  lemma {:induction false} EnumField(f: Field, items: seq<Text>, v: Text)
    requires |items| >= 1 && (forall i :: 0 <= i < |items| ==> Tight(items[i])) && f.validation == Enum(items)
    ensures ErrorsOf(f, Some(v)) == [] <==>
      (&& (f.required ==> v != []) && v in items
       && (if f.lengthType == EXACT then Utf8Length(v) == f.length else Utf8Length(v) <= f.length))
  {
    hide Utf8Length, ValidDateTime14, EnumAllows, Enum;
    NoBytesIff(v);
    EnumAllowsItems(items, v);
    NoEnumHere();
  }

  // ------------------------------------------------------------------
  // What each field is offered
  // ------------------------------------------------------------------

  /** The key `n - 1` of the copied ones is offered what the request has under it. */
  lemma {:induction false} CopiedKey(values: map<Text, Text>, request: Entries, n: nat, j: nat)
    requires j < n <= |COPIED| && Lit(COPIED[j]) !in values
    ensures var all, key := Copied(values, request, n), Lit(COPIED[j]);
      if Get(request, key).Some? then key in all && Some(all[key]) == Get(request, key) else key !in all
    decreases n
  {
    hide Get;
    CopiedNamesDiffer();
    if j < n - 1 {
      CopiedKey(values, request, n - 1, j);
    } else {
      NotYetCopied(values, request, n - 1, Lit(COPIED[j]));
    }
  }

  lemma {:induction false} NotYetCopied(values: map<Text, Text>, request: Entries, n: nat, key: Text)
    requires n <= |COPIED| && key !in values && forall i :: 0 <= i < n ==> Lit(COPIED[i]) != key
    ensures key !in Copied(values, request, n)
    decreases n
  {
    hide Get;
    if n > 0 { NotYetCopied(values, request, n - 1, key); }
  }

  lemma {:induction false} CopiedNamesDiffer()
    ensures forall i, j :: 0 <= i < j < |COPIED| ==> Lit(COPIED[i]) != Lit(COPIED[j])
  {
    assert SESSION_ID[8] != SESSION_NO[8];
  }

  lemma {:induction false} BaseNamesDiffer()
    ensures Lit("RESP_KIND") !in {Lit("SEND_TIME"), Lit("DONE_DATE")} && Lit("SEND_TIME") != Lit("DONE_DATE")
    ensures RESULT_CODE != HISTORY_KEY && MSG_KIND != CUSTOMER
  {
    assert Lit("RESP_KIND")[0] == 0x52 && Lit("SEND_TIME")[0] == 0x53 && Lit("DONE_DATE")[0] == 0x44;
    assert RESULT_CODE[0] == 0x52 && HISTORY_KEY[0] == 0x48 && MSG_KIND[0] == 0x4D && CUSTOMER[0] == 0x43;
  }

  /** The eight values every reply is offered. */
  lemma {:induction false} BaseOffers(request: Entries, response: Response, m: Moment)
    requires Has(request, HISTORY_KEY)
    ensures var v := BaseValues(request, response, m);
      && Lit("RESP_KIND") in v && v[Lit("RESP_KIND")] == KindText(response.kind)
      && RESULT_CODE in v && v[RESULT_CODE] == response.code
      && Lit("RESULT_GROUP_CODE") in v && v[Lit("RESULT_GROUP_CODE")] == response.group
      && Lit("REASON") in v && v[Lit("REASON")] == ReasonText(response.reason)
      && MSG_KIND in v && v[MSG_KIND] == OrEmpty(Get(request, MSG_KIND))
      && HISTORY_KEY in v && Some(v[HISTORY_KEY]) == Get(request, HISTORY_KEY)
      && Lit("SEND_TIME") in v && v[Lit("SEND_TIME")] == Format14(m.sendTime)
      && Lit("DONE_DATE") in v && v[Lit("DONE_DATE")] == Format14(m.doneDate)
      && TELECOM_CODE !in v && SESSION_ID !in v && SESSION_NO !in v && SERVICE !in v && CUSTOMER !in v
  {
    hide Get, Has, Format14, ReasonText;
    BaseNamesDiffer();
  }

  /** The value each field of the shipped maps is offered, and which fields are left to
      their rules. */
  lemma {:induction false} Offers(request: Entries, response: Response, m: Moment)
    requires Has(request, HISTORY_KEY)
    ensures var v := OfferedValues(request, response, m);
      && Lit("RESP_KIND") in v && v[Lit("RESP_KIND")] == KindText(response.kind)
      && RESULT_CODE in v && v[RESULT_CODE] == response.code
      && Lit("RESULT_GROUP_CODE") in v && v[Lit("RESULT_GROUP_CODE")] == response.group
      && Lit("REASON") in v && v[Lit("REASON")] == ReasonText(response.reason)
      && MSG_KIND in v && v[MSG_KIND] == OrEmpty(Get(request, MSG_KIND))
      && HISTORY_KEY in v && Some(v[HISTORY_KEY]) == Get(request, HISTORY_KEY)
      && Lit("SEND_TIME") in v && v[Lit("SEND_TIME")] == Format14(m.sendTime)
      && Lit("DONE_DATE") in v && v[Lit("DONE_DATE")] == Format14(m.doneDate)
    ensures forall key <- [TELECOM_CODE, SESSION_ID, SESSION_NO, SERVICE, CUSTOMER] ::
      var v := OfferedValues(request, response, m);
      if Get(request, key).Some? then key in v && Some(v[key]) == Get(request, key) else key !in v
  {
    hide Get, Has, Format14, ReasonText, BaseValues, Copied;
    BaseOffers(request, response, m);
    BaseNamesDiffer();
    var b, n := BaseValues(request, response, m), |COPIED|;
    CopiedSpares(b, request, n, Lit("RESP_KIND"));
    CopiedSpares(b, request, n, RESULT_CODE);
    CopiedSpares(b, request, n, Lit("RESULT_GROUP_CODE"));
    CopiedSpares(b, request, n, Lit("REASON"));
    CopiedSpares(b, request, n, MSG_KIND);
    CopiedSpares(b, request, n, HISTORY_KEY);
    CopiedSpares(b, request, n, Lit("SEND_TIME"));
    CopiedSpares(b, request, n, Lit("DONE_DATE"));
    CopiedKey(b, request, n, 0);
    CopiedKey(b, request, n, 1);
    CopiedKey(b, request, n, 2);
    CopiedKey(b, request, n, 3);
    CopiedKey(b, request, n, 4);
  }

  // ------------------------------------------------------------------
  // What the rules give where nothing is offered
  // ------------------------------------------------------------------

  lemma {:induction false} FixedRule(f: Field, v: string, index: int, now: DateTime, draw: Draw)
    requires index >= 1 && f.generator == Lit("FIXED:" + v)
    ensures RuleValue(f, index, now, draw) == Made(Lit(v))
  {
    hide SequenceText, RandomTextOf, ChoiceOf, Format14;
    assert f.generator[..6] == Lit("FIXED:");
    assert f.generator[6..] == Lit(v);
  }

  lemma {:induction false} SequenceRuleOf(p: string)
    ensures RuleOf(Lit("SEQ:" + p)) == Seq(Lit(p))
  {
    var g := Lit("SEQ:" + p);
    assert g[..4] == Lit("SEQ:");
    assert g[4..] == Lit(p);
    assert g[0] == 0x53 && Lit("FIXED:")[0] == 0x46 && Lit("EMPTY")[0] == 0x45 && Lit("NOW14")[0] == 0x4E;
    assert |g| >= 6 ==> g[..6][0] == g[0];
    assert !StartsWith(g, Lit("FIXED:"));
    assert StartsWith(g, Lit("SEQ:"));
    assert g[4..] == Lit(p);
  }

  lemma {:induction false} SequenceRule(f: Field, p: string, index: int, now: DateTime, draw: Draw)
    requires index >= 1 && f.generator == Lit("SEQ:" + p)
    ensures RuleValue(f, index, now, draw) == SequenceText(Lit(p), index)
  {
    SequenceRuleOf(p);
    assert RuleOf(f.generator) == Seq(Lit(p));
    assert RuleOf(f.generator).Seq? && RuleOf(f.generator).parameters == Lit(p);
    assert RuleValue(f, index, now, draw) == SequenceText(RuleOf(f.generator).parameters, index);
  }

  /** The three parts of a SEQ rule. */
  lemma {:induction false} ThreeParts(a: Text, b: Text, c: Text)
    requires Tight(a) && Tight(b) && Tight(c)
    ensures SplitOn(JoinWith([a, b, c], COMMA_UNIT), COMMA_UNIT) == [a, b, c]
    ensures Trim(a) == a && Trim(b) == b && Trim(c) == c
  {
    SplitOfJoin([a, b, c], COMMA_UNIT);
  }

  lemma {:induction false} OneDigit(c: CodeUnit, max: int)
    requires IsDigit(c) && max >= 9
    ensures ParseDecimal([c], max) == Some(c - ZERO)
  {
    assert [c][..0] == [];
    assert Number([c]) == c - ZERO;
    assert [c][0] != 0x2D && [c][0] != 0x2B;
  }

  /** The rule SEQ:SID,1,8 never gives more than 32 bytes while the counter is a long. */
  lemma {:induction false} SidRule(index: int)
    requires 1 <= index <= LONG_MAX
    ensures SequenceText(Lit("SID,1,8"), index).Made? && Utf8Length(SequenceText(Lit("SID,1,8"), index).value) <= 32
  {
    hide SplitOn, Trim, ParseDecimal, Padded, Utf8Length;
    assert Lit("SID,1,8") == JoinWith([Lit("SID"), Lit("1"), Lit("8")], COMMA_UNIT);
    ThreeParts(Lit("SID"), Lit("1"), Lit("8"));
    OneDigit(0x31, LONG_MAX);
    OneDigit(0x38, INT_MAX);
    assert Lit("1") == [0x31] && Lit("8") == [0x38];
    assert !IsDigit(Lit("SID")[0]);
    ShortNumber(Lit("SID"), index);
  }

  lemma {:induction false} OneRule(index: int)
    requires 1 <= index <= LONG_MAX
    ensures SequenceText(Lit("1,1,8"), index).Made? && Utf8Length(SequenceText(Lit("1,1,8"), index).value) <= 32
  {
    hide SplitOn, Trim, ParseDecimal, Padded, Utf8Length;
    assert Lit("1,1,8") == JoinWith([Lit("1"), Lit("1"), Lit("8")], COMMA_UNIT);
    ThreeParts(Lit("1"), Lit("1"), Lit("8"));
    OneDigit(0x31, LONG_MAX);
    OneDigit(0x38, INT_MAX);
    assert Lit("1") == [0x31] && Lit("8") == [0x38];
    ShortNumber([], index);
  }

  lemma {:induction false} ShortNumber(prefix: Text, n: nat)
    requires n <= LONG_MAX && |prefix| <= 3 && Ascii(prefix)
    ensures Utf8Length(prefix + Padded(8, n)) <= 32
  {
    hide Padded, Decimal;
    TenToThe19();
    DecimalLength(n, 19);
    Utf8LengthOfAscii(prefix + Padded(8, n));
    PaddedIsShort(n);
  }

  lemma {:induction false} PaddedIsShort(n: nat)
    requires |Decimal(n)| <= 19
    ensures |Padded(8, n)| <= 19
  {
    hide Decimal;
  }

  lemma {:induction false} TenToThe19()
    ensures LONG_MAX < Pow10(19)
  {
    assert Pow10(4) == 10 * (10 * (10 * (10 * Pow10(0))));
    assert Pow10(8) == 10 * (10 * (10 * (10 * Pow10(4))));
    assert Pow10(12) == 10 * (10 * (10 * (10 * Pow10(8))));
    assert Pow10(16) == 10 * (10 * (10 * (10 * Pow10(12))));
    assert Pow10(19) == 10 * (10 * (10 * Pow10(16)));
  }

  // ------------------------------------------------------------------
  // When the shipped maps make a reply
  // ------------------------------------------------------------------

  lemma {:induction false} ShortReason(reason: Option<Text>)
    ensures ReasonText(reason) != [] && Utf8Length(ReasonText(reason)) <= 32
  {
    hide IsBlank;
    if reason.Some? {
      PrintablesOnly(reason.value);
    }
    var t := ReasonText(reason);
    Utf8LengthOfAscii(t);
  }

  /** Field `k` of a shipped map accepts the value it gets. */
  predicate Takes(request: Entries, response: Response, index: int, m: Moment, k: nat)
    requires index >= 1 && Has(request, HISTORY_KEY)
  {
    var f := ReplyField(response.kind, k);
    Accepts(f, SourceValue(f, OfferedValues(request, response, m), index, m.now, m.draws(k)))
  }

  lemma {:induction false} GroupsAreTight()
    ensures forall t <- GROUPS :: Tight(t) && |t| == 2 && Ascii(t)
  {
  }

  lemma {:induction false} KindsAreTight()
    ensures forall t <- KINDS :: Tight(t) && |t| <= 2 && Ascii(t)
  {
  }

  lemma {:induction false} ReplyKindIsTight(kind: ResponseKind)
    ensures Tight(KindText(kind)) && |KindText(kind)| <= 6 && Ascii(KindText(kind))
  {
    assert COMMA_UNIT !in Lit("ACK") && COMMA_UNIT !in Lit("RESULT");
  }

  /** An ENUM field with items of fitting length takes exactly its items. */
  lemma {:induction false} ItemTaken(f: Field, items: seq<Text>, v: Text)
    requires |items| >= 1 && f.validation == Enum(items) && f.length >= 0
    requires forall t <- items :: Tight(t) && Ascii(t) && (if f.lengthType == EXACT then |t| == f.length else |t| <= f.length)
    ensures ErrorsOf(f, Some(v)) == [] <==> v in items
  {
    hide ErrorsOf, Utf8Length, Enum;
    EnumField(f, items, v);
    if v in items { Utf8LengthOfAscii(v); }
  }

  lemma {:induction false} KindTaken(kind: ResponseKind)
    ensures ErrorsOf(KindField(kind), Some(KindText(kind))) == []
  {
    hide ErrorsOf, Utf8Length, Enum, Tight, KindText;
    ReplyKindIsTight(kind);
    ItemTaken(KindField(kind), [KindText(kind)], KindText(kind));
  }

  /** RESP_KIND, REASON and the two times are always accepted. */
  lemma {:induction false} AlwaysTaken(request: Entries, response: Response, index: int, m: Moment)
    requires Has(request, HISTORY_KEY) && ValidCall(Call(index, m))
    ensures Takes(request, response, index, m, 0) && Takes(request, response, index, m, 3)
    ensures Takes(request, response, index, m, 5) && Takes(request, response, index, m, 7)
  {
    hide Get, Has, OfferedValues, RuleValue, ErrorsOf, Utf8Length, Format14, ReasonText, Enum, KindText, IsDateTime;
    Offers(request, response, m);
    KindTaken(response.kind);
    ShortReason(response.reason);
    AnyField(ReasonField(response.kind), ReasonText(response.reason));
    DateField(SEND_FIELD, m.sendTime);
    DateField(DONE_FIELD, m.doneDate);
  }

  lemma {:induction false} ResponseTaken(request: Entries, response: Response, index: int, m: Moment)
    requires Has(request, HISTORY_KEY) && ValidCall(Call(index, m))
    ensures Takes(request, response, index, m, 1) && Takes(request, response, index, m, 2) <==> ResponseFits(response)
  {
    hide Get, Has, OfferedValues, RuleValue, ErrorsOf, Utf8Length, Format14, ReasonText, Enum, KindText, IsDateTime;
    Offers(request, response, m);
    AnyField(CODE_FIELD, response.code);
    NoBytesIff(response.code);
    GroupsAreTight();
    ItemTaken(GROUP_FIELD, GROUPS, response.group);
  }

  lemma {:induction false} KindOfRequestTaken(request: Entries, response: Response, index: int, m: Moment)
    requires Has(request, HISTORY_KEY) && ValidCall(Call(index, m))
    ensures Takes(request, response, index, m, 4) <==> Get(request, MSG_KIND).Some? && Get(request, MSG_KIND).value in KINDS
  {
    hide Get, Has, OfferedValues, RuleValue, ErrorsOf, Utf8Length, Format14, ReasonText, Enum, KindText, IsDateTime;
    Offers(request, response, m);
    KindsAreTight();
    ItemTaken(MSG_KIND_FIELD, KINDS, OrEmpty(Get(request, MSG_KIND)));
  }

  lemma {:induction false} HistoryTaken(request: Entries, response: Response, index: int, m: Moment)
    requires Has(request, HISTORY_KEY) && ValidCall(Call(index, m)) && !IsBlank(Get(request, HISTORY_KEY).value)
    ensures Takes(request, response, index, m, 6) <==> AtMost(Get(request, HISTORY_KEY), 40)
  {
    hide Get, Has, OfferedValues, RuleValue, ErrorsOf, Utf8Length, Format14, ReasonText, Enum, KindText, IsDateTime;
    Offers(request, response, m);
    AnyField(HISTORY_FIELD, Get(request, HISTORY_KEY).value);
    assert IsBlank([]);
  }

  lemma {:induction false} RequestTaken(request: Entries, response: Response, index: int, m: Moment)
    requires Has(request, HISTORY_KEY) && ValidCall(Call(index, m)) && !IsBlank(Get(request, HISTORY_KEY).value)
    ensures Takes(request, response, index, m, 4) && Takes(request, response, index, m, 6) <==>
      (&& Get(request, MSG_KIND).Some? && Get(request, MSG_KIND).value in KINDS
       && AtMost(Get(request, HISTORY_KEY), 40))
  {
    hide Get, Has, Takes, IsBlank, AtMost;
    KindOfRequestTaken(request, response, index, m);
    HistoryTaken(request, response, index, m);
  }

  /** A field that is offered only if the request has it. */
  lemma {:induction false} CopyTaken(f: Field, request: Entries, v: map<Text, Text>, index: int, now: DateTime, draw: Draw)
    requires index >= 1 && f.validation == Lit("ANY") && f.lengthType == MAX
    requires if Get(request, f.name).Some? then f.name in v && Some(v[f.name]) == Get(request, f.name) else f.name !in v
    requires var rule := RuleValue(f, index, now, draw);
      rule.Made? && Utf8Length(rule.value) <= f.length && (f.required ==> rule.value != [])
    ensures Accepts(f, SourceValue(f, v, index, now, draw)) <==>
      AtMost(Get(request, f.name), f.length) && (f.required ==> Get(request, f.name) != Some([]))
  {
    hide Get, RuleValue, ErrorsOf, Utf8Length;
    AnyField(f, SourceValue(f, v, index, now, draw).value);
  }

  lemma {:induction false} FixedTaken(f: Field, word: string, index: int, now: DateTime, draw: Draw)
    requires index >= 1 && f.generator == Lit("FIXED:" + word) && Ascii(Lit(word)) && 0 < |word| <= f.length
    ensures var rule := RuleValue(f, index, now, draw);
      rule.Made? && Utf8Length(rule.value) <= f.length && rule.value != []
  {
    hide RuleValue, Utf8Length;
    FixedRule(f, word, index, now, draw);
    Utf8LengthOfAscii(Lit(word));
  }

  lemma {:induction false} TelecomTaken(request: Entries, response: Response, index: int, m: Moment)
    requires Has(request, HISTORY_KEY) && ValidCall(Call(index, m))
    ensures Takes(request, response, index, m, 8) <==> AtMost(Get(request, TELECOM_CODE), 4) && Get(request, TELECOM_CODE) != Some([])
  {
    hide Get, Has, OfferedValues, RuleValue, Utf8Length, IsDateTime, SequenceText, Accepts, SourceValue;
    Offers(request, response, m);
    FixedTaken(TELECOM_FIELD, "KT", index, m.now, m.draws(8));
    CopyTaken(TELECOM_FIELD, request, OfferedValues(request, response, m), index, m.now, m.draws(8));
  }

  lemma {:induction false} SessionIdTaken(request: Entries, response: Response, index: int, m: Moment)
    requires Has(request, HISTORY_KEY) && ValidCall(Call(index, m))
    ensures Takes(request, response, index, m, 9) <==> AtMost(Get(request, SESSION_ID), 32)
  {
    hide Get, Has, OfferedValues, RuleValue, Utf8Length, IsDateTime, SequenceText, Accepts, SourceValue;
    Offers(request, response, m);
    SequenceRule(SESSION_ID_FIELD, "SID,1,8", index, m.now, m.draws(9));
    SidRule(index);
    CopyTaken(SESSION_ID_FIELD, request, OfferedValues(request, response, m), index, m.now, m.draws(9));
  }

  lemma {:induction false} SessionNoTaken(request: Entries, response: Response, index: int, m: Moment)
    requires Has(request, HISTORY_KEY) && ValidCall(Call(index, m))
    ensures Takes(request, response, index, m, 10) <==> AtMost(Get(request, SESSION_NO), 32)
  {
    hide Get, Has, OfferedValues, RuleValue, Utf8Length, IsDateTime, SequenceText, Accepts, SourceValue;
    Offers(request, response, m);
    SequenceRule(SESSION_NO_FIELD, "1,1,8", index, m.now, m.draws(10));
    OneRule(index);
    CopyTaken(SESSION_NO_FIELD, request, OfferedValues(request, response, m), index, m.now, m.draws(10));
  }

  lemma {:induction false} ServiceTaken(request: Entries, response: Response, index: int, m: Moment)
    requires Has(request, HISTORY_KEY) && ValidCall(Call(index, m))
    ensures Takes(request, response, index, m, 11) <==> AtMost(Get(request, SERVICE), 15)
  {
    hide Get, Has, OfferedValues, RuleValue, Utf8Length, IsDateTime, SequenceText, Accepts, SourceValue;
    Offers(request, response, m);
    FixedTaken(SERVICE_FIELD, "SMS", index, m.now, m.draws(11));
    CopyTaken(SERVICE_FIELD, request, OfferedValues(request, response, m), index, m.now, m.draws(11));
  }

  lemma {:induction false} CustomerTaken(request: Entries, response: Response, index: int, m: Moment)
    requires Has(request, HISTORY_KEY) && ValidCall(Call(index, m))
    ensures Takes(request, response, index, m, 12) <==> AtMost(Get(request, CUSTOMER), 32)
  {
    hide Get, Has, OfferedValues, RuleValue, Utf8Length, IsDateTime, SequenceText, Accepts, SourceValue;
    Offers(request, response, m);
    FixedTaken(CUSTOMER_FIELD, "TEST", index, m.now, m.draws(12));
    CopyTaken(CUSTOMER_FIELD, request, OfferedValues(request, response, m), index, m.now, m.draws(12));
  }

  /** A shipped map makes a reply exactly when the request's own fields, its session fields
      and the response fit, at every moment and for every counter. */
  lemma {:induction false} ShippedMakesIff(request: Entries, response: Response, index: int, m: Moment)
    requires ValidCall(Call(index, m))
    ensures Makes(ReplyMap(response.kind), request, response, index, m) <==>
      RequestFits(request) && SessionFits(request) && ResponseFits(response)
  {
    hide Get, Has, OfferedValues, RuleValue, Accepts, SourceValue, Utf8Length, ReplyMap, IsBlank, IsDateTime, ResponseFits, AtMost;
    if Has(request, HISTORY_KEY) && !IsBlank(Get(request, HISTORY_KEY).value) {
      AlwaysTaken(request, response, index, m);
      ResponseTaken(request, response, index, m);
      RequestTaken(request, response, index, m);
      TelecomTaken(request, response, index, m);
      SessionIdTaken(request, response, index, m);
      SessionNoTaken(request, response, index, m);
      ServiceTaken(request, response, index, m);
      CustomerTaken(request, response, index, m);
      MakesIsTakes(request, response, index, m);
    }
  }

  lemma {:induction false} MakesIsTakes(request: Entries, response: Response, index: int, m: Moment)
    requires index >= 1 && Has(request, HISTORY_KEY) && !IsBlank(Get(request, HISTORY_KEY).value)
    ensures Makes(ReplyMap(response.kind), request, response, index, m) <==>
      (&& Takes(request, response, index, m, 0) && Takes(request, response, index, m, 1)
       && Takes(request, response, index, m, 2) && Takes(request, response, index, m, 3)
       && Takes(request, response, index, m, 4) && Takes(request, response, index, m, 5)
       && Takes(request, response, index, m, 6) && Takes(request, response, index, m, 7)
       && Takes(request, response, index, m, 8) && Takes(request, response, index, m, 9)
       && Takes(request, response, index, m, 10) && Takes(request, response, index, m, 11)
       && Takes(request, response, index, m, 12))
  {
    hide Get, Has, OfferedValues, RuleValue, Accepts, SourceValue, IsBlank, ReplyField;
  }

  predicate GroupFits(group: Option<Text>) { OrDefault(group, "03") in GROUPS }

  /** What the shipped ACK map asks of what the telecom accepted: no group or one of the three,
      session fields of at most 32 bytes; after a failed submission the request's own. */
  predicate AcceptanceFits(request: Entries, a: Option<Acceptance>) {
    match a
    case None => SessionFits(request)
    case Some(x) => GroupFits(x.group) && AtMost(x.sessionId, 32) && AtMost(x.sessionNo, 32)
  }

  predicate DeliveryFits(d: Delivery) {
    Utf8Length(d.code) == 4 && GroupFits(d.group) && AtMost(d.sessionId, 32) && AtMost(d.sessionNo, 32)
  }

  lemma {:induction false} SessionOnly(request: Entries, id: Option<Text>, no: Option<Text>)
    ensures var r := WithSession(request, id, no);
      && (RequestFits(r) <==> RequestFits(request))
      && (SessionFits(r) <==> AtMost(id, 32) && AtMost(no, 32))
  {
    hide Get, Put, IsBlank, Utf8Length;
    assert SESSION_ID[8] != SESSION_NO[8];
    var once := Put(request, SESSION_ID, OrEmpty(id));
    forall key ensures Get(WithSession(request, id, no), key) ==
      (if key == SESSION_NO then Some(OrEmpty(no)) else if key == SESSION_ID then Some(OrEmpty(id)) else Get(request, key))
    {
      PutGet(request, SESSION_ID, OrEmpty(id), key);
      PutGet(once, SESSION_NO, OrEmpty(no), key);
    }
    NoBytesIff([]);
  }

  lemma {:induction false} OwnCodesFit(a: Option<Acceptance>)
    ensures AckResponse(a).kind == ACK
    ensures ResponseFits(AckResponse(a)) <==> (a.Some? ==> GroupFits(a.value.group))
  {
    hide Utf8Length, IsBlank;
    Utf8LengthOfAscii(Lit("9999"));
    Utf8LengthOfAscii(Lit("0000"));
  }

  /** With the shipped map the ACK of a submitted request is made, at every moment, exactly
      when the request and what the telecom accepted fit. */
  lemma {:induction false} ShippedAckIff(request: Entries, a: Option<Acceptance>, k: Call)
    requires ValidCall(k)
    ensures AckMade(ReplyMap(ACK), request, a, k) <==> RequestFits(request) && AcceptanceFits(request, a)
  {
    hide RequestFits, SessionFits, ResponseFits, Makes, ReplyMap, GroupFits, WithSession;
    OwnCodesFit(a);
    ShippedMakesIff(AckRequest(request, a), AckResponse(a), k.index, k.m);
    if a.Some? { SessionOnly(request, a.value.sessionId, a.value.sessionNo); }
  }

  /** The same for the RESULT of a report. */
  lemma {:induction false} ShippedResultIff(request: Entries, d: Delivery, k: Call)
    requires ValidCall(k)
    ensures ResultMade(ReplyMap(RESULT), request, d, k) <==> RequestFits(request) && DeliveryFits(d)
  {
    hide RequestFits, SessionFits, Makes, ReplyMap, WithSession, Utf8Length;
    ShippedMakesIff(ResultRequest(request, d), ResultResponse(d), k.index, k.m);
    SessionOnly(request, d.sessionId, d.sessionNo);
  }

  /** With the shipped map a refusal is made, at every moment, exactly when the request's own
      fields fit. */
  lemma {:induction false} ShippedRefusalIff(request: Entries, k: Call)
    requires ValidCall(k)
    ensures RefusalMade(ReplyMap(ACK), request, k) <==> RequestFits(request) && SessionFits(request)
  {
    hide RequestFits, SessionFits, Makes, ReplyMap, Utf8Length, IsBlank;
    ShippedMakesIff(request, REFUSAL, k.index, k.m);
    Utf8LengthOfAscii(Lit("9999"));
    assert Lit("03") in GROUPS;
  }

  // ------------------------------------------------------------------
  // What the shipped replies say
  // ------------------------------------------------------------------

  /** The fields of a shipped map that are always offered a value, in map order, and the two
      session fields. */
  predicate Says(es: Entries, kind: string, code: Text, group: Text, reason: Text, request: Entries, m: Moment) {
    && |es| == 13
    && es[0] == (Lit("RESP_KIND"), Lit(kind)) && es[1] == (Lit("RESULT_CODE"), code)
    && es[2] == (Lit("RESULT_GROUP_CODE"), group) && es[3] == (Lit("REASON"), reason)
    && es[4].0 == Lit("MSG_KIND") && Get(request, es[4].0) == Some(es[4].1)
    && es[5] == (Lit("SEND_TIME"), Format14(m.sendTime))
    && es[6].0 == Lit("HISTORY_KEY") && Get(request, es[6].0) == Some(es[6].1)
    && es[7] == (Lit("DONE_DATE"), Format14(m.doneDate))
  }

  /** A field that is offered a value has it in the reply. */
  lemma {:induction false} FieldSays(request: Entries, response: Response, index: int, m: Moment, k: nat)
    requires index >= 1 && Makes(ReplyMap(response.kind), request, response, index, m) && k < 13
    ensures var es := ReplyFields(ReplyMap(response.kind), request, response, index, m);
      var v, name := OfferedValues(request, response, m), ReplyField(response.kind, k).name;
      |es| == 13 && es[k].0 == name && (name in v ==> es[k].1 == v[name])
  {
    hide Get, Has, OfferedValues, RuleValue, ErrorsOf, IsBlank, ReplyField;
    assert ReplyMap(response.kind)[k] == ReplyField(response.kind, k);
  }

  lemma {:induction false} ReplySays(request: Entries, response: Response, index: int, m: Moment)
    requires index >= 1 && Makes(ReplyMap(response.kind), request, response, index, m)
    requires Get(request, MSG_KIND).Some?
    ensures Says(ReplyFields(ReplyMap(response.kind), request, response, index, m),
      if response.kind.ACK? then "ACK" else "RESULT", response.code, response.group, ReasonText(response.reason), request, m)
    ensures var es := ReplyFields(ReplyMap(response.kind), request, response, index, m);
      && (Get(request, SESSION_ID).Some? ==> es[9] == (Lit("SESSION_ID"), Get(request, SESSION_ID).value))
      && (Get(request, SESSION_NO).Some? ==> es[10] == (Lit("SESSION_NO"), Get(request, SESSION_NO).value))
  {
    hide Get, OfferedValues, Format14, ReasonText, Enum, ReplyFields, ReplyMap, AllAccepted, Lit, IsBlank, Accepts;
    assert Has(request, HISTORY_KEY);
    Offers(request, response, m);
    FieldSays(request, response, index, m, 0);
    FieldSays(request, response, index, m, 1);
    FieldSays(request, response, index, m, 2);
    FieldSays(request, response, index, m, 3);
    FieldSays(request, response, index, m, 4);
    FieldSays(request, response, index, m, 5);
    FieldSays(request, response, index, m, 6);
    FieldSays(request, response, index, m, 7);
    FieldSays(request, response, index, m, 9);
    FieldSays(request, response, index, m, 10);
  }

  /** The ACK of a submitted request says 0000 and SUCCESS exactly if the telecom answered 0000,
      and otherwise 9999 and whether it failed or was rejected; it has the telecom's group,
      or 03 where there is none, and the telecom's session. */
  lemma {:induction false} AckSays(request: Entries, a: Option<Acceptance>, k: Call)
    requires ValidCall(k) && AckMade(ReplyMap(ACK), request, a, k) && Get(request, MSG_KIND).Some?
    ensures var es := ReplyFields(ReplyMap(ACK), AckRequest(request, a), AckResponse(a), k.index, k.m);
      var success := a.Some? && a.value.code == Some(Lit("0000"));
      var hasGroup := a.Some? && a.value.group.Some? && !IsBlank(a.value.group.value);
      && Says(es, "ACK", Lit(if success then "0000" else "9999"), if hasGroup then a.value.group.value else Lit("03"),
              Lit(if success then "SUCCESS" else if a.Some? then "TELECOM_REJECTED" else "TELECOM_ERROR"), request, k.m)
      && (a.Some? ==>
            && es[9] == (Lit("SESSION_ID"), OrEmpty(a.value.sessionId))
            && es[10] == (Lit("SESSION_NO"), OrEmpty(a.value.sessionNo)))
  {
    hide Get, Makes, ReplyMap, ReplyFields, Put, IsBlank, PrintableOf, Format14;
    KeptReasons();
    if a.Some? { SessionPut(request, a.value.sessionId, a.value.sessionNo); }
    ReplySays(AckRequest(request, a), AckResponse(a), k.index, k.m);
  }

  /** The refusal of a request that fails its audit says 9999, 03 and AUDIT_ERROR. */
  lemma {:induction false} RefusalSays(request: Entries, k: Call)
    requires ValidCall(k) && RefusalMade(ReplyMap(ACK), request, k) && Get(request, MSG_KIND).Some?
    ensures Says(ReplyFields(ReplyMap(ACK), request, REFUSAL, k.index, k.m),
                 "ACK", Lit("9999"), Lit("03"), Lit("AUDIT_ERROR"), request, k.m)
  {
    hide Get, Makes, ReplyMap, ReplyFields, IsBlank, PrintableOf, Format14;
    ReasonIsKept(Lit("AUDIT_ERROR"));
    ReplySays(request, REFUSAL, k.index, k.m);
  }

  /** The RESULT of a report has the telecom's code, its group or 03, its reason or DELIVERED, and
      its session. */
  lemma {:induction false} ResultSays(request: Entries, d: Delivery, k: Call)
    requires ValidCall(k) && ResultMade(ReplyMap(RESULT), request, d, k) && Get(request, MSG_KIND).Some?
    ensures var es := ReplyFields(ReplyMap(RESULT), ResultRequest(request, d), ResultResponse(d), k.index, k.m);
      var hasGroup, hasReason := d.group.Some? && !IsBlank(d.group.value), d.reason.Some? && !IsBlank(d.reason.value);
      && Says(es, "RESULT", d.code, if hasGroup then d.group.value else Lit("03"),
              ReasonText(Some(if hasReason then d.reason.value else Lit("DELIVERED"))), request, k.m)
      && es[9] == (Lit("SESSION_ID"), OrEmpty(d.sessionId)) && es[10] == (Lit("SESSION_NO"), OrEmpty(d.sessionNo))
  {
    hide Get, Makes, ReplyMap, ReplyFields, Put, IsBlank, PrintableOf, Format14;
    SessionPut(request, d.sessionId, d.sessionNo);
    ReplySays(ResultRequest(request, d), ResultResponse(d), k.index, k.m);
  }

  /** Only the session fields are put into the request. */
  lemma {:induction false} SessionPut(request: Entries, id: Option<Text>, no: Option<Text>)
    ensures var r := WithSession(request, id, no);
      && Get(r, SESSION_ID) == Some(OrEmpty(id)) && Get(r, SESSION_NO) == Some(OrEmpty(no))
      && Get(r, MSG_KIND) == Get(request, MSG_KIND) && Get(r, HISTORY_KEY) == Get(request, HISTORY_KEY)
  {
    hide Get, Put;
    var once := Put(request, SESSION_ID, OrEmpty(id));
    assert SESSION_ID[8] != SESSION_NO[8] && MSG_KIND[0] != SESSION_ID[0] && HISTORY_KEY[0] != SESSION_ID[0];
    assert MSG_KIND[0] != SESSION_NO[0] && HISTORY_KEY[0] != SESSION_NO[0];
    forall key ensures Get(WithSession(request, id, no), key) ==
      (if key == SESSION_NO then Some(OrEmpty(no)) else if key == SESSION_ID then Some(OrEmpty(id)) else Get(request, key))
    {
      PutGet(request, SESSION_ID, OrEmpty(id), key);
      PutGet(once, SESSION_NO, OrEmpty(no), key);
    }
  }

  lemma {:induction false} KeptReasons()
    ensures ReasonText(Some(Lit("SUCCESS"))) == Lit("SUCCESS")
    ensures ReasonText(Some(Lit("TELECOM_REJECTED"))) == Lit("TELECOM_REJECTED")
    ensures ReasonText(Some(Lit("TELECOM_ERROR"))) == Lit("TELECOM_ERROR")
  {
    hide PrintableOf, IsBlank;
    ReasonIsKept(Lit("SUCCESS"));
    ReasonIsKept(Lit("TELECOM_REJECTED"));
    ReasonIsKept(Lit("TELECOM_ERROR"));
  }

  // ------------------------------------------------------------------
  // The simulated telecom
  // ------------------------------------------------------------------

  /** What SimulatedTelecom answers to its submission number `n`. */
  function SimulatedAcceptance(n: nat): Acceptance {
    var id := Lit("SIM") + Decimal(n);
    Acceptance(Some(Lit("0000")), Some(Lit("01")), Some(id), Some(id))
  }

  lemma {:induction false} SimulatedFits(request: Entries, n: nat)
    requires n <= LONG_MAX
    ensures AcceptanceFits(request, Some(SimulatedAcceptance(n)))
  {
    hide Utf8Length, Decimal;
    TenToThe19();
    DecimalLength(n, 19);
    Utf8LengthOfAscii(Lit("SIM") + Decimal(n));
    assert !IsWhitespace(Lit("01")[0]);
  }
}
