/** Flat JSON objects: the grammar of section 4 of RFC 8259 restricted to string values,
    the reader that JsonAudit implements, and their agreement. */
module JsonObject {
  import opened JsonString

  const OPEN: CodeUnit := 0x7B
  const CLOSE: CodeUnit := 0x7D
  const COLON: CodeUnit := 0x3A
  const COMMA: CodeUnit := 0x2C

  /** The fields of an object in the order of a LinkedHashMap. */
  type Entries = seq<(Text, Text)>

  predicate Has(es: Entries, key: Text) {
    exists i :: 0 <= i < |es| && es[i].0 == key
  }

  predicate Distinct(es: Entries) {
    forall i, j :: 0 <= i < j < |es| ==> es[i].0 != es[j].0
  }

  // ------------------------------------------------------------------
  // The reader
  // ------------------------------------------------------------------

  predicate IsSpace(c: CodeUnit) { c == 0x20 || c == 9 || c == 10 || c == 13 }

  /** whitespace() */
  function SkipSpace(t: Text, p: nat): (q: nat)
    requires p <= |t|
    ensures p <= q <= |t| && (q < |t| ==> !IsSpace(t[q]))
    ensures forall i :: p <= i < q ==> IsSpace(t[i])
    decreases |t| - p
  {
    if p < |t| && IsSpace(t[p]) then SkipSpace(t, p + 1) else p
  }

  /** Whether take(c) succeeds at `p`. */
  predicate Takes(t: Text, p: nat, c: CodeUnit)
    requires p <= |t|
  {
    SkipSpace(t, p) < |t| && t[SkipSpace(t, p)] == c
  }

  /** string() */
  function ReadString(t: Text, p: nat): (r: Result<(Text, nat)>)
    requires p <= |t|
    ensures r.Ok? ==> p < r.value.1 <= |t|
  {
    if Takes(t, p, QUOTE) then ReadBody(t, SkipSpace(t, p) + 1) else Error(Expected(QUOTE))
  }

  /** One key, its colon and its value. */
  function ReadMember(t: Text, p: nat): (r: Result<((Text, Text), nat)>)
    requires p <= |t|
    ensures r.Ok? ==> p < r.value.1 <= |t|
  {
    var key := ReadString(t, SkipSpace(t, p));
    if key.Error? then Error(key.kind)
    else if !Takes(t, key.value.1, COLON) then Error(Expected(COLON))
    else
      var q := SkipSpace(t, SkipSpace(t, key.value.1) + 1);
      if q >= |t| || t[q] != QUOTE then Error(NotAString)
      else
        var value := ReadString(t, q);
        if value.Error? then Error(value.kind)
        else Ok(((key.value.0, value.value.0), value.value.1))
  }

  /** The loop of object(), with the entries read so far. */
  function ReadMembers(t: Text, p: nat, es: Entries): Result<Entries>
    requires p <= |t|
    decreases |t| - p
  {
    var m := ReadMember(t, p);
    if m.Error? then Error(m.kind)
    else if Has(es, m.value.0.0) then Error(DuplicateKey)
    else
      var all := es + [m.value.0];
      var q := SkipSpace(t, m.value.1);
      if Takes(t, m.value.1, CLOSE) then
        if SkipSpace(t, q + 1) == |t| then Ok(all) else Error(TrailingData)
      else if Takes(t, m.value.1, COMMA) then ReadMembers(t, q + 1, all)
      else Error(Expected(COMMA))
  }

  /** parseObject() */
  function ReadObject(t: Text): Result<Entries> {
    var p := SkipSpace(t, 0);
    if !Takes(t, 0, OPEN) then Error(Expected(OPEN))
    else if Takes(t, p + 1, CLOSE) then
      if SkipSpace(t, SkipSpace(t, p + 1) + 1) == |t| then Ok([]) else Error(TrailingData)
    else ReadMembers(t, p + 1, [])
  }

  // ------------------------------------------------------------------
  // The grammar
  // ------------------------------------------------------------------

  /** `before` key `colon` ':' `value` value `after`, the four being white space. */
  datatype Member = Member(before: Text, key: seq<Piece>, colon: Text, space: Text, value: seq<Piece>, after: Text)

  /** `lead` '{' members '}' `trail`; `inner` is the white space of an empty object. */
  datatype Document = Document(lead: Text, inner: Text, members: seq<Member>, trail: Text)

  predicate Blank(t: Text) { forall i :: 0 <= i < |t| ==> IsSpace(t[i]) }

  predicate ValidMember(m: Member) {
    && Blank(m.before) && Blank(m.colon) && Blank(m.space) && Blank(m.after)
    && ValidPieces(m.key) && ValidPieces(m.value)
  }

  predicate ValidMembers(ms: seq<Member>) { forall i :: 0 <= i < |ms| ==> ValidMember(ms[i]) }

  predicate ValidDocument(d: Document) {
    Blank(d.lead) && Blank(d.inner) && Blank(d.trail) && ValidMembers(d.members)
  }

  function ShowMember(m: Member): Text {
    (m.before + Literal(m.key)) + ((m.colon + [COLON]) + (m.space + Literal(m.value)))
  }

  /** The text from the first member to the end. */
  function ShowMembers(ms: seq<Member>, trail: Text): Text
    requires ms != []
  {
    ShowMember(ms[0]) +
    (ms[0].after + (if |ms| == 1 then [CLOSE] + trail else [COMMA] + ShowMembers(ms[1..], trail)))
  }

  function Show(d: Document): Text {
    d.lead + ([OPEN] +
              (if d.members == [] then d.inner + ([CLOSE] + d.trail) else ShowMembers(d.members, d.trail)))
  }

  function EntryOf(m: Member): (Text, Text)
    requires ValidMember(m)
  {
    (Value(m.key), Value(m.value))
  }

  function EntriesOf(ms: seq<Member>): Entries
    requires ValidMembers(ms)
  {
    if ms == [] then [] else [EntryOf(ms[0])] + EntriesOf(ms[1..])
  }

  // ------------------------------------------------------------------
  // What stands in the text is read
  // ------------------------------------------------------------------

  predicate At(t: Text, p: nat, s: Text) { p + |s| <= |t| && t[p..p + |s|] == s }

  lemma {:induction false} AtSplit(t: Text, p: nat, a: Text, b: Text)
    ensures At(t, p, a + b) <==> At(t, p, a) && At(t, p + |a|, b)
  {
    if At(t, p, a + b) {
      Split(t, p, a, b);
    } else if At(t, p, a) && At(t, p + |a|, b) {
      Abut(t, p, p + |a|, p + |a| + |b|, a, b);
    }
  }

  lemma {:induction false} SkipsBlank(t: Text, p: nat, s: Text)
    requires At(t, p, s) && Blank(s) && (p + |s| == |t| || !IsSpace(t[p + |s|]))
    ensures SkipSpace(t, p) == p + |s|
  {
    forall i | p <= i < p + |s| ensures IsSpace(t[i]) {
      Standing(t, p, s, i - p);
    }
  }

  lemma {:induction false} TakesOver(t: Text, p: nat, s: Text, c: CodeUnit)
    requires Blank(s) && !IsSpace(c) && At(t, p, s + [c])
    ensures SkipSpace(t, p) == p + |s| && Takes(t, p, c) && p + |s| < |t|
    ensures forall d :: Takes(t, p, d) ==> d == c
  {
    AtSplit(t, p, s, [c]);
    Standing(t, p + |s|, [c], 0);
    SkipsBlank(t, p, s);
  }

  lemma {:induction false} SkipsNothing(t: Text, p: nat)
    requires p < |t| && !IsSpace(t[p])
    ensures SkipSpace(t, p) == p
  {
  }

  lemma {:induction false} ReadsString(t: Text, p: nat, s: Text, xs: seq<Piece>)
    requires Blank(s) && ValidPieces(xs) && At(t, p, s + Literal(xs))
    ensures ReadString(t, p) == Ok((Value(xs), p + |s + Literal(xs)|))
    ensures SkipSpace(t, p) == p + |s| < |t| && t[p + |s|] == QUOTE
    ensures ReadString(t, SkipSpace(t, p)) == ReadString(t, p)
  {
    hide ReadBody, Value, Render, Blank, IsSpace, SkipSpace;
    ColonIsNoSpace();
    assert s + Literal(xs) == (s + [QUOTE]) + (Render(xs) + [QUOTE]);
    AtSplit(t, p, s + [QUOTE], Render(xs) + [QUOTE]);
    TakesOver(t, p, s, QUOTE);
    var q := p + |s| + 1;
    AtSplit(t, q, Render(xs), [QUOTE]);
    Standing(t, q + |Render(xs)|, [QUOTE], 0);
    ReadsLiteral(t, q, xs);
    SkipsNothing(t, p + |s|);
  }

  lemma {:induction false} ReadsMember(t: Text, p: nat, m: Member)
    requires ValidMember(m) && At(t, p, ShowMember(m))
    ensures ReadMember(t, p) == Ok((EntryOf(m), p + |ShowMember(m)|))
  {
    hide At, ReadString, Value, Literal, SkipSpace, Blank, IsSpace;
    var a, b, c := m.before + Literal(m.key), m.colon + [COLON], m.space + Literal(m.value);
    AtSplit(t, p, a, b + c);
    AtSplit(t, p + |a|, b, c);
    ReadsString(t, p, m.before, m.key);
    ColonIsNoSpace();
    TakesOver(t, p + |a|, m.colon, COLON);
    ReadsString(t, p + |a| + |b|, m.space, m.value);
  }

  lemma {:induction false} ColonIsNoSpace()
    ensures !IsSpace(COLON) && !IsSpace(COMMA) && !IsSpace(CLOSE) && !IsSpace(OPEN) && !IsSpace(QUOTE)
  {
  }

  lemma {:induction false} ShownFirst(ms: seq<Member>, trail: Text)
    requires ms != [] && ValidMembers(ms)
    ensures ShowMembers(ms, trail) == ShowMember(ms[0]) +
      (ms[0].after + (if |ms| == 1 then [CLOSE] + trail else [COMMA] + ShowMembers(ms[1..], trail)))
    ensures EntriesOf(ms) == [EntryOf(ms[0])] + EntriesOf(ms[1..])
  {
  }

  /** One turn of the loop. */
  lemma {:induction false} OneTurn(t: Text, p: nat, es: Entries)
    requires p <= |t| && ReadMember(t, p).Ok?
    ensures var m := ReadMember(t, p).value; var q := SkipSpace(t, m.1);
      && (Has(es, m.0.0) ==> ReadMembers(t, p, es) == Error(DuplicateKey))
      && (!Has(es, m.0.0) && Takes(t, m.1, CLOSE) && SkipSpace(t, q + 1) == |t| ==> ReadMembers(t, p, es) == Ok(es + [m.0]))
      && (!Has(es, m.0.0) && !Takes(t, m.1, CLOSE) && Takes(t, m.1, COMMA) ==>
            ReadMembers(t, p, es) == ReadMembers(t, q + 1, es + [m.0]))
  {
    hide ReadMember, Has;
  }

  /** The first of the members that stand up to the end of the text, and what comes after it. */
  lemma {:induction false} FirstStands(t: Text, p: nat, ms: seq<Member>, trail: Text)
    requires ms != [] && ValidMembers(ms) && Blank(trail)
    requires p <= |t| && t[p..] == ShowMembers(ms, trail)
    ensures var q := p + |ShowMember(ms[0])|; var r := q + |ms[0].after|;
      && ReadMember(t, p) == Ok((EntryOf(ms[0]), q)) && SkipSpace(t, q) == r < |t|
      && (if |ms| == 1 then Takes(t, q, CLOSE) && SkipSpace(t, r + 1) == |t|
          else !Takes(t, q, CLOSE) && Takes(t, q, COMMA) && t[r + 1..] == ShowMembers(ms[1..], trail))
  {
    hide ReadMember, ShowMember, EntryOf, SkipSpace, Blank, IsSpace, Takes, ShowMembers, EntriesOf;
    var m := ms[0];
    var rest := if |ms| == 1 then [CLOSE] + trail else [COMMA] + ShowMembers(ms[1..], trail);
    var q := p + |ShowMember(m)|;
    ShownFirst(ms, trail);
    AtSplit(t, p, ShowMember(m), m.after + rest);
    ReadsMember(t, p, m);
    ColonIsNoSpace();
    Separator(t, q, m.after, rest);
    if |ms| == 1 { LastTail(t, q + |m.after| + 1, trail); }
  }

  /** The members standing up to the end of the text are read in order; the first
      repeated key is reported. */
  lemma {:induction false} ReadsMembers(t: Text, p: nat, ms: seq<Member>, trail: Text, es: Entries)
    requires ms != [] && ValidMembers(ms) && Blank(trail) && Distinct(es)
    requires p <= |t| && t[p..] == ShowMembers(ms, trail)
    ensures ReadMembers(t, p, es) ==
      (if Distinct(es + EntriesOf(ms)) then Ok(es + EntriesOf(ms)) else Error(DuplicateKey))
    decreases |ms|
  {
    hide ReadMember, ReadMembers, ShowMember, EntryOf, SkipSpace, Blank, Takes, Distinct, Has, ShowMembers, EntriesOf;
    var e := EntryOf(ms[0]);
    FirstStands(t, p, ms, trail);
    ShownFirst(ms, trail);
    OneTurn(t, p, es);
    AddEntry(es, e, EntriesOf(ms[1..]));
    if !Has(es, e.0) {
      if |ms| == 1 {
        NoEntries();
        assert ms[1..] == [] && es + [e] + [] == es + [e];
      } else {
        ReadsMembers(t, p + |ShowMember(ms[0])| + |ms[0].after| + 1, ms[1..], trail, es + [e]);
      }
    }
  }

  lemma {:induction false} LastTail(t: Text, p: nat, trail: Text)
    requires p <= |t| && At(t, p, trail) && p + |trail| == |t| && Blank(trail)
    ensures SkipSpace(t, p) == |t|
  {
    SkipsBlank(t, p, trail);
  }

  lemma {:induction false} Separator(t: Text, q: nat, after: Text, rest: Text)
    requires Blank(after) && rest != [] && !IsSpace(rest[0]) && At(t, q, after + rest)
    ensures SkipSpace(t, q) == q + |after| < |t| && Takes(t, q, rest[0])
    ensures forall d :: Takes(t, q, d) ==> d == rest[0]
    ensures At(t, q + |after| + 1, rest[1..])
  {
    assert after + rest == (after + [rest[0]]) + rest[1..];
    AtSplit(t, q, after + [rest[0]], rest[1..]);
    TakesOver(t, q, after, rest[0]);
  }

  lemma {:induction false} AddEntry(es: Entries, e: (Text, Text), rest: Entries)
    requires Distinct(es)
    ensures Distinct(es + [e]) <==> !Has(es, e.0)
    ensures (es + [e]) + rest == es + ([e] + rest)
    ensures Distinct(es + ([e] + rest)) ==> Distinct(es + [e])
  {
    var all := es + ([e] + rest);
    assert forall i :: 0 <= i < |es| ==> all[i] == es[i];
    assert all[|es|] == e;
    if Has(es, e.0) {
      var i :| 0 <= i < |es| && es[i].0 == e.0;
      assert (es + [e])[i].0 == (es + [e])[|es|].0;
      assert all[i].0 == all[|es|].0;
    }
  }

  /** Behind the opening brace stands its closing one, or a member. */
  lemma {:induction false} BraceStands(d: Document, rest: Text)
    requires ValidDocument(d) && Show(d) == d.lead + ([OPEN] + rest)
    ensures SkipSpace(Show(d), 0) == |d.lead| < |Show(d)| && Takes(Show(d), 0, OPEN)
    ensures Show(d)[|d.lead| + 1..] == rest
  {
    hide ShowMembers, SkipSpace, Blank, IsSpace, Takes, Show;
    var t := Show(d);
    ColonIsNoSpace();
    assert At(t, 0, d.lead + ([OPEN] + rest));
    Separator(t, 0, d.lead, [OPEN] + rest);
    assert t[|d.lead| + 1..] == rest;
  }

  lemma {:induction false} EmptyIsShown(d: Document)
    requires d.members == []
    ensures Show(d) == d.lead + ([OPEN] + (d.inner + ([CLOSE] + d.trail)))
  {
  }

  lemma {:induction false} EmptyIsParsed(d: Document)
    requires ValidDocument(d) && d.members == []
    ensures ReadObject(Show(d)) == Ok([])
  {
    hide ReadMembers, SkipSpace, Blank, IsSpace, Takes, Show;
    var t, p := Show(d), |d.lead|;
    EmptyIsShown(d);
    BraceStands(d, d.inner + ([CLOSE] + d.trail));
    ColonIsNoSpace();
    Separator(t, p + 1, d.inner, [CLOSE] + d.trail);
    var q := p + 1 + |d.inner|;
    assert t[q + 1..] == d.trail;
    SkipsBlank(t, q + 1, d.trail);
  }

  lemma {:induction false} MembersAreParsed(d: Document)
    requires ValidDocument(d) && d.members != []
    ensures ReadObject(Show(d)) ==
      (if Distinct(EntriesOf(d.members)) then Ok(EntriesOf(d.members)) else Error(DuplicateKey))
  {
    hide ReadMembers, ShowMembers, SkipSpace, Blank, IsSpace, Takes, EntriesOf;
    var t, p := Show(d), |d.lead|;
    BraceStands(d, ShowMembers(d.members, d.trail));
    StartsWithQuote(t, p + 1, d.members, d.trail);
    ReadsMembers(t, p + 1, d.members, d.trail, []);
    assert [] + EntriesOf(d.members) == EntriesOf(d.members);
  }

  /** Completeness: a text of the grammar is parsed to its entries, unless a key is repeated. */
  lemma {:induction false} DocumentIsParsed(d: Document)
    requires ValidDocument(d)
    ensures ReadObject(Show(d)) ==
      (if Distinct(EntriesOf(d.members)) then Ok(EntriesOf(d.members)) else Error(DuplicateKey))
  {
    hide ReadObject, Show;
    if d.members == [] { EmptyIsParsed(d); } else { MembersAreParsed(d); }
  }

  lemma {:induction false} StartsWithQuote(t: Text, p: nat, ms: seq<Member>, trail: Text)
    requires ms != [] && ValidMembers(ms) && p <= |t| && t[p..] == ShowMembers(ms, trail)
    ensures !Takes(t, p, CLOSE)
  {
    hide Render, SkipSpace, Takes, Blank, IsSpace;
    ColonIsNoSpace();
    var m := ms[0];
    var rest := m.after + (if |ms| == 1 then [CLOSE] + trail else [COMMA] + ShowMembers(ms[1..], trail));
    var tail := (m.colon + [COLON]) + (m.space + Literal(m.value));
    assert t[p..] == (m.before + [QUOTE]) + (((Render(m.key) + [QUOTE]) + tail) + rest);
    assert At(t, p, m.before + [QUOTE]);
    TakesOver(t, p, m.before, QUOTE);
  }

  // ------------------------------------------------------------------
  // What is read stood in the text
  // ------------------------------------------------------------------

  lemma {:induction false} SkippedIsBlank(t: Text, p: nat)
    requires p <= |t|
    ensures Blank(t[p..SkipSpace(t, p)]) && At(t, p, t[p..SkipSpace(t, p)])
  {
  }

  lemma {:induction false} TakenStood(t: Text, p: nat, c: CodeUnit)
    requires p <= |t| && Takes(t, p, c)
    ensures var s := t[p..SkipSpace(t, p)];
      Blank(s) && p + |s| == SkipSpace(t, p) && At(t, p, s + [c])
  {
    var q := SkipSpace(t, p);
    assert t[p..q + 1] == t[p..q] + [c];
  }

  lemma {:induction false} ReadStringStood(t: Text, p: nat) returns (s: Text, xs: seq<Piece>)
    requires p <= |t| && ReadString(t, p).Ok?
    ensures Blank(s) && ValidPieces(xs) && At(t, p, s + Literal(xs))
    ensures ReadString(t, p).value == (Value(xs), p + |s + Literal(xs)|)
  {
    hide Value, Render, Takes, SkipSpace, Blank, ValidPieces, ReadBody;
    var q := SkipSpace(t, p);
    s := t[p..q];
    TakenStood(t, p, QUOTE);
    xs := ReadIsLiteral(t, q + 1);
    var e := ReadBody(t, q + 1).value.1;
    Abut(t, p, q + 1, e, s + [QUOTE], Render(xs) + [QUOTE]);
    assert (s + [QUOTE]) + (Render(xs) + [QUOTE]) == s + Literal(xs);
  }

  /** The same for a string that is read after its white space was skipped. */
  lemma {:induction false} SkippedStringStood(t: Text, p: nat) returns (s: Text, xs: seq<Piece>)
    requires p <= |t| && ReadString(t, SkipSpace(t, p)).Ok?
    ensures Blank(s) && ValidPieces(xs) && At(t, p, s + Literal(xs))
    ensures ReadString(t, SkipSpace(t, p)).value == (Value(xs), p + |s + Literal(xs)|)
  {
    hide ReadString, Value, Literal, IsSpace, Takes, ValidPieces, SkipSpace;
    var q := SkipSpace(t, p);
    SkippedIsBlank(t, p);
    var s1;
    s1, xs := ReadStringStood(t, q);
    s := t[p..q] + s1;
    Abut(t, p, q, q + |s1 + Literal(xs)|, t[p..q], s1 + Literal(xs));
    assert t[p..q] + (s1 + Literal(xs)) == s + Literal(xs);
  }

  lemma {:induction false} MemberStood(t: Text, p: nat) returns (m: Member)
    requires p <= |t| && ReadMember(t, p).Ok?
    ensures ValidMember(m) && At(t, p, ShowMember(m)) && m.after == []
    ensures ReadMember(t, p).value == (EntryOf(m), p + |ShowMember(m)|)
  {
    hide At, ReadString, Value, Literal, IsSpace, Takes, SkipSpace, ValidPieces, Blank;
    var before, key := SkippedStringStood(t, p);
    var k := p + |before + Literal(key)|;
    TakenStood(t, k, COLON);
    var colon := t[k..SkipSpace(t, k)];
    var c := SkipSpace(t, k) + 1;
    var space, value := SkippedStringStood(t, c);
    m := Member(before, key, colon, space, value, []);
    NoEntries();
    AtSplit(t, k, colon + [COLON], space + Literal(value));
    AtSplit(t, p, before + Literal(key), (colon + [COLON]) + (space + Literal(value)));
  }

  lemma {:induction false} OneMore(m: Member, rest: seq<Member>)
    requires ValidMember(m) && ValidMembers(rest)
    ensures ValidMembers([m] + rest) && EntriesOf([m] + rest) == [EntryOf(m)] + EntriesOf(rest)
  {
    hide ValidMember, EntryOf;
    assert ([m] + rest)[1..] == rest;
  }

  /** What a turn of the loop that came to a good end has read. */
  lemma {:induction false} TurnStood(t: Text, p: nat, es: Entries) returns (m: Member, next: nat, last: bool)
    requires p <= |t| && ReadMembers(t, p, es).Ok? && Distinct(es)
    ensures ValidMember(m) && Distinct(es + [EntryOf(m)])
    ensures At(t, p, ShowMember(m)) && At(t, p + |ShowMember(m)|, m.after + [if last then CLOSE else COMMA])
    ensures p < next == p + |ShowMember(m)| + |m.after| + 1 <= |t|
    ensures if last then ReadMembers(t, p, es) == Ok(es + [EntryOf(m)]) && SkipSpace(t, next) == |t|
            else ReadMembers(t, p, es) == ReadMembers(t, next, es + [EntryOf(m)])
  {
    hide ReadMember, ShowMember, EntryOf, SkipSpace, Blank, IsSpace, Distinct, Has, ValidMember;
    var m0 := MemberStood(t, p);
    var q := ReadMember(t, p).value.1;
    var r := SkipSpace(t, q);
    SkippedIsBlank(t, q);
    m := m0.(after := t[q..r]);
    SameMember(m0, m);
    AddEntry(es, EntryOf(m), []);
    next := r + 1;
    last := Takes(t, q, CLOSE);
    TakenStood(t, q, if last then CLOSE else COMMA);
  }

  lemma {:induction false} MembersStood(t: Text, p: nat, es: Entries) returns (ms: seq<Member>, trail: Text)
    requires p <= |t| && ReadMembers(t, p, es).Ok? && Distinct(es)
    ensures ms != [] && ValidMembers(ms) && Blank(trail) && t[p..] == ShowMembers(ms, trail)
    ensures ReadMembers(t, p, es).value == es + EntriesOf(ms) && Distinct(es + EntriesOf(ms))
    decreases |t| - p
  {
    hide ReadMembers, ShowMember, ShowMembers, EntryOf, EntriesOf, SkipSpace, Blank, IsSpace, Distinct, ValidMember, ValidMembers;
    var m, next, last := TurnStood(t, p, es);
    NoEntries();
    if last {
      SkippedIsBlank(t, next);
      ms, trail := [m], t[next..];
      assert trail == t[next..|t|];
      OneMore(m, []);
      assert [m] + [] == [m] && [EntryOf(m)] + [] == [EntryOf(m)];
      LastShown(t, p, m, trail);
    } else {
      var rest;
      rest, trail := MembersStood(t, next, es + [EntryOf(m)]);
      ms := [m] + rest;
      OneMore(m, rest);
      assert es + ([EntryOf(m)] + EntriesOf(rest)) == es + [EntryOf(m)] + EntriesOf(rest);
      NextShown(t, p, m, rest, trail);
    }
  }

  lemma {:induction false} SameMember(m: Member, n: Member)
    requires ValidMember(m) && Blank(n.after) && n == m.(after := n.after)
    ensures ValidMember(n) && EntryOf(n) == EntryOf(m) && ShowMember(n) == ShowMember(m)
  {
  }

  lemma {:induction false} LastShown(t: Text, p: nat, m: Member, trail: Text)
    requires At(t, p, ShowMember(m)) && At(t, p + |ShowMember(m)|, m.after + [CLOSE])
    requires t[p + |ShowMember(m)| + |m.after| + 1..] == trail
    ensures t[p..] == ShowMembers([m], trail)
  {
    hide ShowMember;
    var q := p + |ShowMember(m)|;
    Abut(t, q, q + |m.after| + 1, |t|, m.after + [CLOSE], trail);
    assert (m.after + [CLOSE]) + trail == m.after + ([CLOSE] + trail);
    Abut(t, p, q, |t|, ShowMember(m), m.after + ([CLOSE] + trail));
  }

  lemma {:induction false} NextShown(t: Text, p: nat, m: Member, rest: seq<Member>, trail: Text)
    requires At(t, p, ShowMember(m)) && At(t, p + |ShowMember(m)|, m.after + [COMMA])
    requires rest != [] && t[p + |ShowMember(m)| + |m.after| + 1..] == ShowMembers(rest, trail)
    ensures t[p..] == ShowMembers([m] + rest, trail)
  {
    hide ShowMember;
    var q := p + |ShowMember(m)|;
    var s := ShowMembers(rest, trail);
    Abut(t, q, q + |m.after| + 1, |t|, m.after + [COMMA], s);
    assert (m.after + [COMMA]) + s == m.after + ([COMMA] + s);
    Abut(t, p, q, |t|, ShowMember(m), m.after + ([COMMA] + s));
    assert ([m] + rest)[1..] == rest;
  }

  lemma {:induction false} OpenedStood(t: Text, rest: Text)
    requires Takes(t, 0, OPEN) && t[SkipSpace(t, 0) + 1..] == rest
    ensures Blank(t[0..SkipSpace(t, 0)]) && t == t[0..SkipSpace(t, 0)] + ([OPEN] + rest)
  {
    hide SkipSpace, Takes, Blank;
    var p := SkipSpace(t, 0);
    TakenStood(t, 0, OPEN);
    Abut(t, 0, p + 1, |t|, t[0..p] + [OPEN], rest);
    assert (t[0..p] + [OPEN]) + rest == t[0..p] + ([OPEN] + rest);
    assert t == t[0..|t|];
  }

  lemma {:induction false} EmptyStood(t: Text, p: nat)
    requires p <= |t| && Takes(t, p, CLOSE) && SkipSpace(t, SkipSpace(t, p) + 1) == |t|
    ensures var q := SkipSpace(t, p);
      Blank(t[p..q]) && Blank(t[q + 1..]) && t[p..] == t[p..q] + ([CLOSE] + t[q + 1..])
  {
    hide SkipSpace, Takes, Blank;
    var q := SkipSpace(t, p);
    TakenStood(t, p, CLOSE);
    SkippedIsBlank(t, q + 1);
    assert t[q + 1..] == t[q + 1..|t|];
    Abut(t, p, q + 1, |t|, t[p..q] + [CLOSE], t[q + 1..]);
    assert (t[p..q] + [CLOSE]) + t[q + 1..] == t[p..q] + ([CLOSE] + t[q + 1..]);
  }

  /** Soundness: an accepted text is one of the grammar with those entries and distinct keys. */
  lemma {:induction false} ParsedIsDocument(t: Text) returns (d: Document)
    requires ReadObject(t).Ok?
    ensures ValidDocument(d) && Show(d) == t
    ensures ReadObject(t).value == EntriesOf(d.members) && Distinct(EntriesOf(d.members))
  {
    hide ReadMembers, ShowMembers, SkipSpace, Takes, Blank, IsSpace, EntriesOf;
    var p := SkipSpace(t, 0);
    NoEntries();
    TakenStood(t, 0, OPEN);
    OpenedStood(t, t[p + 1..]);
    if Takes(t, p + 1, CLOSE) {
      EmptyStood(t, p + 1);
      var q := SkipSpace(t, p + 1);
      d := Document(t[0..p], t[p + 1..q], [], t[q + 1..]);
    } else {
      var ms, trail := MembersStood(t, p + 1, []);
      d := Document(t[0..p], [], ms, trail);
      assert [] + EntriesOf(ms) == EntriesOf(ms);
    }
  }

  lemma {:induction false} NoEntries()
    ensures EntriesOf([]) == [] && ValidMembers([]) && Blank([])
  {
  }

  /** parseObject accepts exactly the flat objects of strings without a repeated key. */
  lemma {:induction false} AcceptsExactlyFlatObjects(t: Text)
    ensures ReadObject(t).Ok? <==> exists d: Document :: ValidDocument(d) && Show(d) == t && Distinct(EntriesOf(d.members))
  {
    hide ReadObject, Show, EntriesOf, Distinct;
    if ReadObject(t).Ok? {
      var d := ParsedIsDocument(t);
    }
    if d: Document :| ValidDocument(d) && Show(d) == t && Distinct(EntriesOf(d.members)) {
      DocumentIsParsed(d);
    }
  }

  // ------------------------------------------------------------------
  // Closure
  // ------------------------------------------------------------------

  predicate WellFormedEntries(es: Entries) {
    forall i :: 0 <= i < |es| ==> WellFormed(es[i].0) && WellFormed(es[i].1)
  }

  lemma {:induction false} EntriesAreWellFormed(ms: seq<Member>)
    requires ValidMembers(ms)
    ensures WellFormedEntries(EntriesOf(ms))
    decreases |ms|
  {
    hide WellFormed, Value;
    if ms != [] {
      EntriesAreWellFormed(ms[1..]);
      ValuesAreWellFormed(ms[0].key);
      ValuesAreWellFormed(ms[0].value);
    }
  }

  /** Every key and value the parser returns is well-formed UTF-16, and no key repeats. */
  lemma {:induction false} ParserClosure(t: Text)
    requires ReadObject(t).Ok?
    ensures WellFormedEntries(ReadObject(t).value) && Distinct(ReadObject(t).value)
  {
    var d := ParsedIsDocument(t);
    EntriesAreWellFormed(d.members);
  }

  // ------------------------------------------------------------------
  // Generated records
  // ------------------------------------------------------------------

  function FieldText(e: (Text, Text)): Text { Quoted(e.0) + ([COLON] + Quoted(e.1)) }

  /** The text that generate() and generateRecord() build for these fields. */
  function Record(es: Entries): Text { RecordOpen(es) + [CLOSE] }

  /** The builder after these fields. */
  function RecordOpen(es: Entries): (r: Text)
    ensures |r| > 0 && (|r| > 1 <==> es != [])
  {
    if es == [] then [OPEN]
    else
      var head := RecordOpen(es[..|es| - 1]);
      head + (if |head| > 1 then [COMMA] else []) + FieldText(es[|es| - 1])
  }

  /** The members of a generated record: no white space, the pieces quote() writes. */
  function RecordMembers(es: Entries): (ms: seq<Member>)
    requires WellFormedEntries(es)
    ensures |ms| == |es|
  {
    if es == [] then []
    else RecordMembers(es[..|es| - 1])
         + [Member([], Pieces(es[|es| - 1].0), [], [], Pieces(es[|es| - 1].1), [])]
  }

  lemma {:induction false} MembersMeanEntries(es: Entries)
    requires WellFormedEntries(es)
    ensures ValidMembers(RecordMembers(es)) && EntriesOf(RecordMembers(es)) == es
    ensures forall i :: 0 <= i < |es| ==> RecordMembers(es)[i].after == []
    decreases |es|
  {
    hide Pieces, Value, Render, WellFormed;
    if es != [] {
      var e := es[|es| - 1];
      MembersMeanEntries(es[..|es| - 1]);
      PiecesMeanText(e.0);
      PiecesMeanText(e.1);
      var m := Member([], Pieces(e.0), [], [], Pieces(e.1), []);
      assert EntryOf(m) == e;
      EntriesSnoc(RecordMembers(es[..|es| - 1]), m);
      assert es == es[..|es| - 1] + [e];
    }
  }

  lemma {:induction false} EntriesSnoc(ms: seq<Member>, m: Member)
    requires ValidMembers(ms) && ValidMember(m)
    ensures ValidMembers(ms + [m]) && EntriesOf(ms + [m]) == EntriesOf(ms) + [EntryOf(m)]
    decreases |ms|
  {
    hide ValidMember, EntryOf;
    if ms == [] {
      assert (ms + [m])[1..] == [];
    } else {
      EntriesSnoc(ms[1..], m);
      assert (ms + [m])[1..] == ms[1..] + [m];
    }
  }

  lemma {:induction false} ShowSnoc(ms: seq<Member>, m: Member, s: Text)
    requires ms != [] && ShowMembers(ms, []) == s + [CLOSE]
    requires ms[|ms| - 1].after == [] && m.after == []
    ensures ShowMembers(ms + [m], []) == s + ([COMMA] + (ShowMember(m) + [CLOSE]))
    decreases |ms|
  {
    hide ShowMember;
    var n := ms[0];
    assert (ms + [m])[1..] == ms[1..] + [m];
    if |ms| == 1 {
      assert ms[1..] + [m] == [m];
      assert s + [CLOSE] == ShowMember(n) + [CLOSE];
      assert s == (s + [CLOSE])[..|s|] == ShowMember(n);
    } else {
      var rest := ShowMembers(ms[1..], []);
      assert rest[|rest| - 1] == CLOSE by {
        assert (s + [CLOSE])[|s|] == CLOSE;
        assert |rest| > 0;
      }
      var r := rest[..|rest| - 1];
      assert rest == r + [CLOSE];
      var head := ShowMember(n) + (n.after + [COMMA]);
      assert s + [CLOSE] == (head + r) + [CLOSE];
      assert s == (s + [CLOSE])[..|s|] == head + r;
      ShowSnoc(ms[1..], m, r);
      assert head + (r + ([COMMA] + (ShowMember(m) + [CLOSE]))) == s + ([COMMA] + (ShowMember(m) + [CLOSE]));
    }
  }

  lemma {:induction false} RecordIsShown(es: Entries)
    requires WellFormedEntries(es) && es != []
    ensures [OPEN] + ShowMembers(RecordMembers(es), []) == Record(es)
    decreases |es|
  {
    hide Pieces, WellFormed, ShowMembers, FieldText;
    var init, e := es[..|es| - 1], es[|es| - 1];
    var m := Member([], Pieces(e.0), [], [], Pieces(e.1), []);
    FieldIsShown(e, m);
    if init == [] {
      OneShown(m);
      assert RecordMembers(es) == [] + [m] == [m];
      assert RecordOpen(es) == [OPEN] + FieldText(e);
    } else {
      MembersMeanEntries(init);
      RecordIsShown(init);
      OneMoreShown(RecordMembers(init), RecordOpen(init), m);
    }
  }

  lemma {:induction false} OneMoreShown(ms: seq<Member>, head: Text, m: Member)
    requires ms != [] && |head| > 0 && [OPEN] + ShowMembers(ms, []) == head + [CLOSE]
    requires ms[|ms| - 1].after == [] && m.after == []
    ensures [OPEN] + ShowMembers(ms + [m], []) == ((head + [COMMA]) + ShowMember(m)) + [CLOSE]
  {
    hide ShowMembers, ShowMember;
    var s := head[1..];
    assert head[0] == OPEN by { assert ([OPEN] + ShowMembers(ms, []))[0] == (head + [CLOSE])[0]; }
    assert head == [OPEN] + s;
    assert ShowMembers(ms, []) == ([OPEN] + ShowMembers(ms, []))[1..] == (head + [CLOSE])[1..] == s + [CLOSE];
    ShowSnoc(ms, m, s);
    assert [OPEN] + (s + ([COMMA] + (ShowMember(m) + [CLOSE]))) == (([OPEN] + s + [COMMA]) + ShowMember(m)) + [CLOSE];
  }

  lemma {:induction false} OneShown(m: Member)
    requires m.after == []
    ensures ShowMembers([m], []) == ShowMember(m) + [CLOSE]
  {
  }

  lemma {:induction false} FieldIsShown(e: (Text, Text), m: Member)
    requires WellFormed(e.0) && WellFormed(e.1) && m == Member([], Pieces(e.0), [], [], Pieces(e.1), [])
    ensures ShowMember(m) == FieldText(e)
  {
    hide Pieces, WellFormed, Value, Escape, Render, ValidPieces;
    PiecesMeanText(e.0);
    PiecesMeanText(e.1);
  }

  /** A generated record is well-formed UTF-16 itself. */
  lemma {:induction false} RecordWellFormed(es: Entries)
    requires WellFormedEntries(es)
    ensures WellFormed(RecordOpen(es)) && WellFormed(Record(es))
    decreases |es|
  {
    hide Escape, Quoted;
    AsciiText([OPEN]);
    AsciiText([COMMA]);
    AsciiText([CLOSE]);
    if es != [] {
      var head, e := RecordOpen(es[..|es| - 1]), es[|es| - 1];
      RecordWellFormed(es[..|es| - 1]);
      FieldWellFormed(e);
      WellFormedConcat(head, [COMMA]);
      WellFormedConcat(head + [COMMA], FieldText(e));
      assert head + [] == head;
      WellFormedConcat(head, FieldText(e));
    }
    WellFormedConcat(RecordOpen(es), [CLOSE]);
  }

  lemma {:induction false} FieldWellFormed(e: (Text, Text))
    requires WellFormed(e.0) && WellFormed(e.1)
    ensures WellFormed(FieldText(e))
  {
    hide Escape, Quoted;
    EscapeWellFormed(e.0);
    EscapeWellFormed(e.1);
    AsciiText([COLON]);
    WellFormedConcat([COLON], Quoted(e.1));
    WellFormedConcat(Quoted(e.0), [COLON] + Quoted(e.1));
  }

  /** A generated record reads back, in order, exactly when every name and value is
      well-formed UTF-16 and no name repeats. */
  lemma {:induction false} RecordReadsBackIff(es: Entries)
    ensures ReadObject(Record(es)) == Ok(es) <==> WellFormedEntries(es) && Distinct(es)
  {
    hide ReadObject, Record, WellFormedEntries, Distinct;
    if WellFormedEntries(es) {
      WellFormedRecordReads(es);
    }
    if ReadObject(Record(es)) == Ok(es) {
      ParserClosure(Record(es));
    }
  }

  lemma {:induction false} WellFormedRecordReads(es: Entries)
    requires WellFormedEntries(es)
    ensures ReadObject(Record(es)) == if Distinct(es) then Ok(es) else Error(DuplicateKey)
  {
    hide ReadObject, Distinct, ShowMembers, WellFormed;
    var d := Document([], [], RecordMembers(es), []);
    MembersMeanEntries(es);
    if es != [] { RecordIsShown(es); }
    assert Show(d) == Record(es);
    DocumentIsParsed(d);
  }
}
