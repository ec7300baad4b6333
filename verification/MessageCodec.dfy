/** MapMessageCodec: responses built from a parsed request. */
module MessageCodec {
  import opened Wrappers
  import opened JsonString
  import opened JsonObject
  import opened TextTools
  import opened FieldMap
  import opened Generator

  const HISTORY_KEY := Lit("HISTORY_KEY")
  const MSG_KIND := Lit("MSG_KIND")
  const RESULT_CODE := Lit("RESULT_CODE")
  const COPIED := ["SERVICE", "CUSTOMER", "TELECOM_CODE", "SESSION_ID", "SESSION_NO"]

  datatype ResponseKind = ACK | RESULT

  datatype Response = Response(kind: ResponseKind, code: Text, group: Text, reason: Option<Text>)

  datatype CodecError = UnsupportedKind | NoHistoryKey | FieldErrors(errors: seq<FieldError>) | NotGenerated(error: GenerateError)

  datatype Reply = Sent(text: Text) | NotSent(error: CodecError)

  /** Character.isWhitespace */
  predicate IsWhitespace(u: CodeUnit) {
    || 0x9 <= u <= 0xD || 0x1C <= u <= 0x20 || u == 0x1680 || (0x2000 <= u <= 0x200A && u != 0x2007)
    || u == 0x2028 || u == 0x2029 || u == 0x205F || u == 0x3000
  }

  /** isBlank() */
  predicate IsBlank(t: Text) { forall i :: 0 <= i < |t| ==> IsWhitespace(t[i]) }

  predicate Printable(u: CodeUnit) { 32 <= u <= 126 }

  function PrintableOf(t: Text): Text {
    if t == [] then []
    else PrintableOf(t[..|t| - 1]) + (if Printable(t[|t| - 1]) then [t[|t| - 1]] else [])
  }

  function ReasonText(reason: Option<Text>): Text {
    if reason.None? || IsBlank(reason.value) then Lit("SUCCESS")
    else
      var kept := PrintableOf(reason.value);
      if kept == [] then Lit("AUDIT_ERROR") else if |kept| <= 32 then kept else kept[..32]
  }

  /** asciiReason(): the first 32 printable units, never empty. */
  method AsciiReason(reason: Option<Text>) returns (r: Text)
    ensures 1 <= |r| <= 32 && forall i :: 0 <= i < |r| ==> 32 <= r[i] <= 126
    ensures r == ReasonText(reason)
  {
    hide PrintableOf, IsBlank;
    if reason.None? || IsBlank(reason.value) {
      return Lit("SUCCESS");
    }
    var b: Text := [];
    var t := reason.value;
    var i := 0;
    NothingPrintable();
    while i < |t| && |b| < 32
      invariant i <= |t| && b == PrintableOf(t[..i]) && |b| <= 32
      invariant forall k :: 0 <= k < |b| ==> Printable(b[k])
    {
      PrintableSnoc(t, i);
      if Printable(t[i]) {
        b := b + [t[i]];
      }
      i := i + 1;
    }
    PrintableOfPrefix(t, i);
    assert t[..|t|] == t;
    return if b == [] then Lit("AUDIT_ERROR") else b;
  }

  lemma {:induction false} NothingPrintable()
    ensures PrintableOf([]) == []
  {
  }

  lemma {:induction false} PrintableSnoc(t: Text, i: nat)
    requires i < |t|
    ensures PrintableOf(t[..i + 1]) == PrintableOf(t[..i]) + (if Printable(t[i]) then [t[i]] else [])
  {
    assert t[..i + 1][..i] == t[..i];
  }

  lemma {:induction false} PrintableIsKept(t: Text)
    requires forall i :: 0 <= i < |t| ==> 32 <= t[i] <= 126
    ensures PrintableOf(t) == t
  {
    if t != [] {
      PrintableIsKept(t[..|t| - 1]);
      assert t == t[..|t| - 1] + [t[|t| - 1]];
    }
  }

  /** A reason of at most 32 printable ASCII units, the first of them no blank, is kept. */
  lemma {:induction false} ReasonIsKept(t: Text)
    requires 1 <= |t| <= 32 && (forall i :: 0 <= i < |t| ==> 32 <= t[i] <= 126) && t[0] > 32
    ensures ReasonText(Some(t)) == t
  {
    PrintableIsKept(t);
    assert !IsWhitespace(t[0]);
  }

  lemma {:induction false} PrintableOfPrefix(t: Text, n: nat)
    requires n <= |t|
    ensures PrintableOf(t[..n]) <= PrintableOf(t)
    decreases |t|
  {
    if n < |t| {
      PrintableOfPrefix(t[..|t| - 1], n);
      assert t[..|t| - 1][..n] == t[..n];
    } else {
      assert t[..n] == t;
    }
  }

  /** The values whose names the map has, in map order. */
  method Select(fields: seq<Field>, values: map<Text, Text>) returns (selected: Entries)
    requires forall i, j :: 0 <= i < j < |fields| ==> fields[i].name != fields[j].name
    ensures forall i :: 0 <= i < |selected| ==> selected[i].0 in values && selected[i].1 == values[selected[i].0]
    ensures forall i :: 0 <= i < |selected| ==> Names(fields, selected[i].0)
    ensures forall k :: 0 <= k < |fields| && fields[k].name in values ==> Has(selected, fields[k].name)
    ensures Distinct(selected)
  {
    selected := [];
    for k := 0 to |fields|
      invariant forall i :: 0 <= i < |selected| ==> selected[i].0 in values && selected[i].1 == values[selected[i].0]
      invariant forall i :: 0 <= i < |selected| ==> Names(fields[..k], selected[i].0)
      invariant forall j :: 0 <= j < k && fields[j].name in values ==> Has(selected, fields[j].name)
      invariant Distinct(selected)
    {
      var name := fields[k].name;
      assert !Names(fields[..k], name);
      assert fields[..k + 1] == fields[..k] + [fields[k]];
      NamesSnoc(fields[..k], fields[k]);
      if name in values {
        HasSnoc(selected, (name, values[name]));
        selected := selected + [(name, values[name])];
      }
    }
    assert fields[..|fields|] == fields;
  }

  /** If the map has the field, the record holds this value under its name. */
  predicate Carries(fields: seq<Field>, record: Text, key: Text, value: Option<Text>)
    requires ReadObject(record).Ok?
  {
    Names(fields, key) ==> Get(ReadObject(record).value, key) == value
  }

  // ------------------------------------------------------------------
  // When a reply is made
  // ------------------------------------------------------------------

  /** The clock readings and random draws of one call. */
  datatype Moment = Moment(sendTime: DateTime, doneDate: DateTime, now: DateTime, draws: nat -> Draw)

  function KindText(kind: ResponseKind): Text { Lit(if kind.ACK? then "ACK" else "RESULT") }

  function BaseValues(request: Entries, response: Response, m: Moment): map<Text, Text>
    requires Has(request, HISTORY_KEY)
  {
    var msgKind := Get(request, MSG_KIND);
    map[Lit("RESP_KIND") := KindText(response.kind),
        RESULT_CODE := response.code,
        Lit("RESULT_GROUP_CODE") := response.group,
        Lit("REASON") := ReasonText(response.reason),
        MSG_KIND := if msgKind.Some? then msgKind.value else [],
        HISTORY_KEY := Get(request, HISTORY_KEY).value,
        Lit("SEND_TIME") := Format14(m.sendTime),
        Lit("DONE_DATE") := Format14(m.doneDate)]
  }

  /** The first `n` of the keys that are copied from the request are in place. */
  function Copied(values: map<Text, Text>, request: Entries, n: nat): map<Text, Text>
    requires n <= |COPIED|
  {
    if n == 0 then values
    else
      var before := Copied(values, request, n - 1);
      match Get(request, Lit(COPIED[n - 1]))
      case Some(v) => before[Lit(COPIED[n - 1]) := v]
      case None => before
  }

  /** Every value generate() offers to the response map. */
  function OfferedValues(request: Entries, response: Response, m: Moment): map<Text, Text>
    requires Has(request, HISTORY_KEY)
  {
    Copied(BaseValues(request, response, m), request, |COPIED|)
  }

  /** The offered value of a field, or its rule's value where none is offered. */
  function SourceValue(f: Field, values: map<Text, Text>, index: int, now: DateTime, draw: Draw): Outcome<Text>
    requires index >= 1
  {
    if f.name in values then Made(values[f.name]) else RuleValue(f, index, now, draw)
  }

  /** Every field of the map accepts its source value. */
  predicate AllAccepted(fields: seq<Field>, values: map<Text, Text>, index: int, m: Moment)
    requires index >= 1
  {
    forall k :: 0 <= k < |fields| ==> Accepts(fields[k], SourceValue(fields[k], values, index, m.now, m.draws(k)))
  }

  /** The fields of the map with these values, in map order. */
  function Sources(fields: seq<Field>, values: map<Text, Text>, index: int, m: Moment): Entries
    requires index >= 1 && AllAccepted(fields, values, index, m)
  {
    seq(|fields|, k requires 0 <= k < |fields| =>
      (assert Accepts(fields[k], SourceValue(fields[k], values, index, m.now, m.draws(k)));
       (fields[k].name, SourceValue(fields[k], values, index, m.now, m.draws(k)).value)))
  }

  lemma {:induction false} SourcesFill(fields: seq<Field>, values: map<Text, Text>, index: int, m: Moment)
    requires index >= 1 && AllAccepted(fields, values, index, m)
    ensures Fills(fields, Sources(fields, values, index, m))
  {
    hide ErrorsOf, RuleValue;
  }

  lemma {:induction false} SourcesWellFormed(fields: seq<Field>, values: map<Text, Text>, index: int, m: Moment)
    requires index >= 1 && AllAccepted(fields, values, index, m) && ValidMap(fields)
    requires forall key <- values :: WellFormed(values[key])
    ensures WellFormedEntries(Sources(fields, values, index, m))
  {
    hide ErrorsOf, RuleValue, WellFormed;
    var es := Sources(fields, values, index, m);
    forall k | 0 <= k < |es| ensures WellFormed(es[k].0) && WellFormed(es[k].1) {
      assert ValidField(fields[k]);
      if fields[k].name !in values { RuleValueWellFormed(fields[k], index, m.now, m.draws(k)); }
    }
  }

  /** A field for which a value is offered has it. */
  lemma {:induction false} SourceCarries(fields: seq<Field>, values: map<Text, Text>, index: int, m: Moment, key: Text)
    requires index >= 1 && AllAccepted(fields, values, index, m)
    requires forall i, j :: 0 <= i < j < |fields| ==> fields[i].name != fields[j].name
    ensures Names(fields, key) && key in values ==> Get(Sources(fields, values, index, m), key) == Some(values[key])
    ensures !Names(fields, key) ==> Get(Sources(fields, values, index, m), key) == None
  {
    hide ErrorsOf, RuleValue;
    var es := Sources(fields, values, index, m);
    if Names(fields, key) {
      var k :| 0 <= k < |fields| && fields[k].name == key;
      assert es[k].0 == key;
      GetAt(es, k);
    }
  }

  /** HISTORY_KEY is not blank and every field of the map accepts its value. */
  predicate Makes(fields: seq<Field>, request: Entries, response: Response, index: int, m: Moment)
    requires index >= 1
  {
    && Has(request, HISTORY_KEY) && !IsBlank(Get(request, HISTORY_KEY).value)
    && forall k :: 0 <= k < |fields| ==>
         Accepts(fields[k], SourceValue(fields[k], OfferedValues(request, response, m), index, m.now, m.draws(k)))
  }

  /** The fields of a reply that is made. */
  function ReplyFields(fields: seq<Field>, request: Entries, response: Response, index: int, m: Moment): Entries
    requires index >= 1 && Makes(fields, request, response, index, m)
  {
    Sources(fields, OfferedValues(request, response, m), index, m)
  }

  predicate IsRecordOf(fields: seq<Field>, request: Entries, response: Response, index: int, m: Moment, r: Reply)
    requires index >= 1
  {
    Makes(fields, request, response, index, m) ==> r == Sent(Record(ReplyFields(fields, request, response, index, m)))
  }

  /** A reply that is made audits clean and carries HISTORY_KEY and the code. */
  lemma {:induction false} ReplyIsClean(fields: seq<Field>, request: Entries, response: Response, index: int, m: Moment)
    requires index >= 1 && ValidMap(fields) && Makes(fields, request, response, index, m)
    requires WellFormedEntries(request) && WellFormed(response.code) && WellFormed(response.group)
    ensures var text := Record(ReplyFields(fields, request, response, index, m));
      && AuditsClean(fields, text) && Carries(fields, text, HISTORY_KEY, Get(request, HISTORY_KEY))
      && Carries(fields, text, RESULT_CODE, Some(response.code))
  {
    hide WellFormed, Get, Has, IsBlank, AuditsClean, Record, ReadObject, ErrorsOf, ValidField, ObjectErrors, Names, OfferedValues,
      RuleValue, Accepts, SourceValue, Fills, Sources, WellFormedEntries;
    var values := OfferedValues(request, response, m);
    var es := Sources(fields, values, index, m);
    OfferedWellFormed(request, response, m);
    OfferedKeys(request, response, m);
    SourcesWellFormed(fields, values, index, m);
    SourcesFill(fields, values, index, m);
    FilledIsClean(fields, es);
    FilledRecordPassesAudit(fields, es);
    SourceCarries(fields, values, index, m, HISTORY_KEY);
    SourceCarries(fields, values, index, m, RESULT_CODE);
  }

  lemma {:induction false} CopiedWellFormed(values: map<Text, Text>, request: Entries, n: nat)
    requires n <= |COPIED| && WellFormedEntries(request) && forall key <- values :: WellFormed(values[key])
    ensures forall key <- Copied(values, request, n) :: WellFormed(Copied(values, request, n)[key])
  {
    hide WellFormed, Get, WellFormedEntries;
    if n > 0 {
      CopiedWellFormed(values, request, n - 1);
      GetWellFormed(request, Lit(COPIED[n - 1]));
    }
  }

  lemma {:induction false} OfferedWellFormed(request: Entries, response: Response, m: Moment)
    requires Has(request, HISTORY_KEY)
    requires WellFormedEntries(request) && WellFormed(response.code) && WellFormed(response.group)
    ensures forall key <- OfferedValues(request, response, m) :: WellFormed(OfferedValues(request, response, m)[key])
  {
    hide WellFormed, Get, Has, Format14, Copied;
    ReasonWellFormed(response.reason);
    AsciiIsWellFormed(KindText(response.kind));
    AsciiIsWellFormed([]);
    Format14WellFormed(m.sendTime);
    Format14WellFormed(m.doneDate);
    GetWellFormed(request, MSG_KIND);
    GetWellFormed(request, HISTORY_KEY);
    CopiedWellFormed(BaseValues(request, response, m), request, |COPIED|);
  }

  lemma {:induction false} ReasonWellFormed(reason: Option<Text>)
    ensures WellFormed(ReasonText(reason))
  {
    hide WellFormed;
    AsciiIsWellFormed(Lit("SUCCESS"));
    AsciiIsWellFormed(Lit("AUDIT_ERROR"));
    if reason.Some? {
      PrintablesOnly(reason.value);
      var kept := PrintableOf(reason.value);
      AsciiIsWellFormed(kept);
      if |kept| > 32 { AsciiIsWellFormed(kept[..32]); }
    }
  }

  lemma {:induction false} PrintablesOnly(t: Text)
    ensures forall i :: 0 <= i < |PrintableOf(t)| ==> Printable(PrintableOf(t)[i])
    decreases |t|
  {
    if t != [] { PrintablesOnly(t[..|t| - 1]); }
  }

  /** A key that is not copied keeps its value. */
  lemma {:induction false} CopiedSpares(values: map<Text, Text>, request: Entries, n: nat, key: Text)
    requires n <= |COPIED| && key in values && forall i :: 0 <= i < n ==> Lit(COPIED[i]) != key
    ensures key in Copied(values, request, n) && Copied(values, request, n)[key] == values[key]
    decreases n
  {
    hide Get;
    if n > 0 { CopiedSpares(values, request, n - 1, key); }
  }

  /** HISTORY_KEY comes from the request, RESULT_CODE from the response. */
  lemma {:induction false} OfferedKeys(request: Entries, response: Response, m: Moment)
    requires Has(request, HISTORY_KEY)
    ensures var values := OfferedValues(request, response, m);
      && HISTORY_KEY in values && Some(values[HISTORY_KEY]) == Get(request, HISTORY_KEY)
      && RESULT_CODE in values && values[RESULT_CODE] == response.code
  {
    hide Get, Has, Copied, Format14;
    assert HISTORY_KEY[0] != RESULT_CODE[0];
    CopiedSpares(BaseValues(request, response, m), request, |COPIED|, HISTORY_KEY);
    CopiedSpares(BaseValues(request, response, m), request, |COPIED|, RESULT_CODE);
  }

  lemma {:induction false} NamesDiffer(fields: seq<Field>)
    requires ValidMap(fields)
    ensures forall i, j :: 0 <= i < j < |fields| ==> fields[i].name != fields[j].name
  {
    hide ValidField;
  }

  class MapMessageCodec {
    const inputs: map<Text, seq<Field>>
    const ack: seq<Field>
    const result: seq<Field>
    var sequence: int

    predicate Valid()
      reads this
    {
      ValidMap(ack) && ValidMap(result) && 0 <= sequence
    }

    constructor (inputs: map<Text, seq<Field>>, ack: seq<Field>, result: seq<Field>)
      requires ValidMap(ack) && ValidMap(result)
      ensures Valid() && this.inputs == inputs && this.ack == ack && this.result == result && sequence == 0
    {
      this.inputs, this.ack, this.result := inputs, ack, result;
      sequence := 0;
    }

    /** validate(): the map of the request's MSG_KIND decides. */
    method Audit(request: Entries) returns (r: Option<CodecError>)
      ensures var kind := Get(request, MSG_KIND);
        if kind.None? || kind.value !in inputs then r == Some(UnsupportedKind)
        else r.None? <==> ObjectErrors(inputs[kind.value], request) == []
    {
      var kind := Get(request, MSG_KIND);
      if kind.None? || kind.value !in inputs {
        return Some(UnsupportedKind);
      }
      var errors := ValidateObject(inputs[kind.value], request);
      return if errors == [] then None else Some(FieldErrors(errors));
    }

    /** The values offered to the response map. */
    method Offered(request: Entries, response: Response, m: Moment) returns (values: map<Text, Text>)
      requires Has(request, HISTORY_KEY)
      ensures values == OfferedValues(request, response, m)
    {
      hide Get, Has, Format14;
      var reason := AsciiReason(response.reason);
      var msgKind := Get(request, MSG_KIND);
      values := map[
        Lit("RESP_KIND") := KindText(response.kind),
        RESULT_CODE := response.code,
        Lit("RESULT_GROUP_CODE") := response.group,
        Lit("REASON") := reason,
        MSG_KIND := if msgKind.Some? then msgKind.value else [],
        HISTORY_KEY := Get(request, HISTORY_KEY).value,
        Lit("SEND_TIME") := Format14(m.sendTime),
        Lit("DONE_DATE") := Format14(m.doneDate)];
      for i := 0 to |COPIED|
        invariant values == Copied(BaseValues(request, response, m), request, i)
      {
        var key := Lit(COPIED[i]);
        if Has(request, key) {
          values := values[key := Get(request, key).value];
        }
      }
    }

    /** generate(): a reply is made exactly when HISTORY_KEY is not blank and every field of the
        map accepts its offered value, or its rule's value where none is offered; it is a
        record of its map that parses, audits clean and carries the request's HISTORY_KEY and
        the given result code. */
    method Generate(request: Entries, response: Response, m: Moment) returns (r: Reply)
      requires Valid()
      requires WellFormedEntries(request) && WellFormed(response.code) && WellFormed(response.group)
      modifies this`sequence
      ensures Valid()
      ensures var history := Get(request, HISTORY_KEY);
        if history.None? || IsBlank(history.value) then r == NotSent(NoHistoryKey) && sequence == old(sequence)
        else sequence == old(sequence) + 1
      ensures var fields := if response.kind.ACK? then ack else result;
        r.Sent? <==> Makes(fields, request, response, old(sequence) + 1, m)
      ensures var fields := if response.kind.ACK? then ack else result;
        r.Sent? ==>
          (&& AuditsClean(fields, r.text) && Carries(fields, r.text, HISTORY_KEY, Get(request, HISTORY_KEY))
           && Carries(fields, r.text, RESULT_CODE, Some(response.code)))
      ensures IsRecordOf(if response.kind.ACK? then ack else result, request, response, old(sequence) + 1, m, r)
    {
      hide WellFormed, Get, Has, IsBlank, AuditsClean, Record, ReadObject, OfferedValues, Sources, AllAccepted, Carries, Makes,
        ReplyFields, WellFormedEntries, ValidMap;
      var fields := if response.kind.ACK? then ack else result;
      var history := Get(request, HISTORY_KEY);
      MakesIff(fields, request, response, sequence + 1, m);
      if history.None? || IsBlank(history.value) {
        return NotSent(NoHistoryKey);
      }
      NamesDiffer(fields);
      var values := Offered(request, response, m);
      sequence := sequence + 1;
      var text := Filled(fields, sequence, values, m);
      if text.Failed? {
        return NotSent(NotGenerated(text.error));
      }
      ReplyIsClean(fields, request, response, sequence, m);
      return Sent(text.value);
    }
  }

  /** Only the values that the map names are passed on as overrides. */
  method Filled(fields: seq<Field>, index: int, values: map<Text, Text>, m: Moment) returns (text: Outcome<Text>)
    requires index >= 1 && forall i, j :: 0 <= i < j < |fields| ==> fields[i].name != fields[j].name
    ensures text.Made? <==> AllAccepted(fields, values, index, m)
    ensures text.Made? ==> text.value == Record(Sources(fields, values, index, m))
  {
    hide Names, FieldValue, AllNamed, Has, Accepts, Record, AllAccepted, Sources, Fills, WellFormedEntries, ValidMap;
    var selected := Select(fields, values);
    ghost var es;
    text, es := Generator.Generate(fields, index, selected, m.now, m.draws);
    GeneratedFromSources(fields, values, index, m, selected, text, es);
  }

  lemma {:induction false} MakesIff(fields: seq<Field>, request: Entries, response: Response, index: int, m: Moment)
    requires index >= 1
    ensures Makes(fields, request, response, index, m) <==>
      (&& Has(request, HISTORY_KEY) && !IsBlank(Get(request, HISTORY_KEY).value)
       && AllAccepted(fields, OfferedValues(request, response, m), index, m))
    ensures Makes(fields, request, response, index, m) ==>
      ReplyFields(fields, request, response, index, m) == Sources(fields, OfferedValues(request, response, m), index, m)
  {
    hide Get, Has, IsBlank, OfferedValues, Accepts, SourceValue;
  }

  lemma {:induction false} HasSnoc(es: Entries, e: (Text, Text))
    ensures forall key :: Has(es + [e], key) <==> Has(es, key) || key == e.0
  {
    forall key ensures Has(es + [e], key) <==> Has(es, key) || key == e.0 {
      if Has(es, key) {
        var i :| 0 <= i < |es| && es[i].0 == key;
        assert (es + [e])[i].0 == key;
      }
      assert (es + [e])[|es|] == e;
    }
  }

  lemma {:induction false} GetWellFormed(es: Entries, key: Text)
    requires WellFormedEntries(es)
    ensures Get(es, key).Some? ==> WellFormed(Get(es, key).value)
  {
    hide WellFormed;
  }

  /** Selecting first and generating then makes the record of the source values, exactly if
      every field accepts its own. */
  lemma {:induction false} GeneratedFromSources(
    fields: seq<Field>, values: map<Text, Text>, index: int, m: Moment, selected: Entries, text: Outcome<Text>, es: Entries)
    requires index >= 1
    requires forall i :: 0 <= i < |selected| ==> selected[i].0 in values && selected[i].1 == values[selected[i].0]
    requires forall i :: 0 <= i < |selected| ==> Names(fields, selected[i].0)
    requires forall k :: 0 <= k < |fields| && fields[k].name in values ==> Has(selected, fields[k].name)
    requires text.Made? <==>
      (&& AllNamed(fields, selected)
       && forall k :: 0 <= k < |fields| ==> Accepts(fields[k], FieldValue(fields[k], index, selected, m.now, m.draws(k))))
    requires text.Made? ==> text.value == Record(es) && Fills(fields, es)
    requires text.Made? ==> forall k :: 0 <= k < |fields| ==>
      FieldValue(fields[k], index, selected, m.now, m.draws(k)) == Made(es[k].1)
    ensures text.Made? <==> AllAccepted(fields, values, index, m)
    ensures text.Made? ==> text.value == Record(Sources(fields, values, index, m))
  {
    hide Names, FieldValue, SourceValue, AllNamed, Has, Accepts, Record, ErrorsOf;
    SelectedSources(fields, values, selected, index, m);
    if text.Made? { assert es == Sources(fields, values, index, m); }
  }

  /** Selecting first and generating then uses the offered value, or the rule. */
  lemma {:induction false} SelectedSources(fields: seq<Field>, values: map<Text, Text>, selected: Entries, index: int, m: Moment)
    requires index >= 1
    requires forall i :: 0 <= i < |selected| ==> selected[i].0 in values && selected[i].1 == values[selected[i].0]
    requires forall i :: 0 <= i < |selected| ==> Names(fields, selected[i].0)
    requires forall k :: 0 <= k < |fields| && fields[k].name in values ==> Has(selected, fields[k].name)
    ensures AllNamed(fields, selected)
    ensures forall k :: 0 <= k < |fields| ==>
      FieldValue(fields[k], index, selected, m.now, m.draws(k)) == SourceValue(fields[k], values, index, m.now, m.draws(k))
  {
    hide RuleValue;
    forall k | 0 <= k < |fields|
      ensures FieldValue(fields[k], index, selected, m.now, m.draws(k)) == SourceValue(fields[k], values, index, m.now, m.draws(k))
    {
      var v := Get(selected, fields[k].name);
      assert v.Some? <==> Has(selected, fields[k].name);
    }
  }
}
