/** The JNI agent: it audits a request, answers it, and commits the input last. `calls` is
    what it does to the queues and to the business operation, in order; the queue library
    answers freely. */
module Agent {
  import opened Wrappers
  import opened Journal
  import opened JsonString
  import opened JsonObject
  import opened TextTools
  import opened FieldMap
  import opened Generator
  import opened MessageCodec

  datatype Message = Message(seqNo: int, data: Bytes)
  datatype Queue = OUTPUT_QUEUE | ERROR_QUEUE
  datatype Answer = Accepted | Refused | Threw

  datatype Call =
    | Deliver(message: Message)                                 // deQueueXA returned a message
    | Business(ok: bool)
    | Compose(kind: ResponseKind, index: int, moment: Moment, reply: Option<Text>)  // response(); None: it threw
    | EnQueue(queue: Queue, payload: Bytes, answer: Answer)
    | Commit(seqNo: int, ok: bool)

  /** The maps in force and the two directions of the character set. */
  datatype Setup = Setup(
    inputs: map<Text, seq<Field>>, ack: seq<Field>, result: seq<Field>,
    decode: Bytes -> Text, encode: Text -> Bytes)

  /** Decoding replaces malformed bytes, so it always returns well-formed UTF-16, and it
      undoes encoding on such text. */
  ghost predicate ValidSetup(s: Setup) {
    && ValidMap(s.ack) && ValidMap(s.result) && (forall b: Bytes :: WellFormed(s.decode(b)))
    && (forall t: Text :: WellFormed(t) ==> s.decode(s.encode(t)) == t)
  }

  // ------------------------------------------------------------------
  // What a message calls for
  // ------------------------------------------------------------------

  function Request(s: Setup, m: Message): Result<Entries> { ReadObject(s.decode(m.data)) }

  predicate Health(s: Setup, m: Message) {
    Request(s, m).Ok? && Get(Request(s, m).value, MSG_KIND) == Some(Lit("HEALTH_CHECK"))
  }

  predicate Replyable(s: Setup, m: Message) {
    && Request(s, m).Ok?
    && Get(Request(s, m).value, MSG_KIND) in [Some(Lit("S")), Some(Lit("L")), Some(Lit("M"))]
    && Get(Request(s, m).value, HISTORY_KEY) !in [None, Some([])]
  }

  /** The request passes the audit of its own map. */
  predicate Clean(s: Setup, m: Message) {
    && Replyable(s, m)
    && var kind := Get(Request(s, m).value, MSG_KIND).value;
       kind in s.inputs && ObjectErrors(s.inputs[kind], Request(s, m).value) == []
  }

  /** A record of this map that audits clean and carries the request's HISTORY_KEY and the
      code, 0000 for a clean request and 9999 for a rejected one. */
  predicate Answers(s: Setup, m: Message, fields: seq<Field>, text: Text) {
    && Request(s, m).Ok? && AuditsClean(fields, text)
    && Carries(fields, text, HISTORY_KEY, Get(Request(s, m).value, HISTORY_KEY))
    && Carries(fields, text, RESULT_CODE, Some(Code(s, m)))
  }

  function Code(s: Setup, m: Message): Text { Lit(if Clean(s, m) then "0000" else "9999") }

  // ------------------------------------------------------------------
  // What response() makes of it
  // ------------------------------------------------------------------

  function MapOf(s: Setup, kind: ResponseKind): seq<Field> { if kind.ACK? then s.ack else s.result }

  function Group(s: Setup, m: Message): Text { Lit(if Clean(s, m) then "01" else "03") }

  function Reason(s: Setup, m: Message, kind: ResponseKind): Text {
    Lit(if !Clean(s, m) then "AUDIT_ERROR" else if kind.ACK? then "SUCCESS" else "DELIVERED")
  }

  function ReplyValues(s: Setup, m: Message, kind: ResponseKind, moment: Moment): map<Text, Text>
    requires Replyable(s, m)
  {
    map[MSG_KIND := Get(Request(s, m).value, MSG_KIND).value,
        RESULT_CODE := Code(s, m),
        Lit("RESULT_GROUP_CODE") := Group(s, m),
        Lit("REASON") := Reason(s, m, kind),
        Lit("SEND_TIME") := Format14(moment.sendTime),
        Lit("DONE_DATE") := Format14(moment.doneDate),
        HISTORY_KEY := Get(Request(s, m).value, HISTORY_KEY).value]
  }

  /** Every field of the response map accepts its value. */
  predicate CanCompose(s: Setup, m: Message, kind: ResponseKind, index: int, moment: Moment) {
    Replyable(s, m) && index >= 1 && AllAccepted(MapOf(s, kind), ReplyValues(s, m, kind, moment), index, moment)
  }

  function ReplyText(s: Setup, m: Message, kind: ResponseKind, index: int, moment: Moment): Text
    requires CanCompose(s, m, kind, index, moment)
  {
    Record(Sources(MapOf(s, kind), ReplyValues(s, m, kind, moment), index, moment))
  }

  /** response() makes the record exactly where it can be made. */
  predicate IsReply(s: Setup, m: Message, kind: ResponseKind, index: int, moment: Moment, reply: Option<Text>) {
    reply == if CanCompose(s, m, kind, index, moment) then Some(ReplyText(s, m, kind, index, moment)) else None
  }

  /** Whoever decodes the payload finds the ACK of the message. */
  predicate IsAck(s: Setup, m: Message, payload: Bytes) { Answers(s, m, s.ack, s.decode(payload)) }

  /** Whoever decodes the payload finds the RESULT of the message. */
  predicate IsResult(s: Setup, m: Message, payload: Bytes) { Answers(s, m, s.result, s.decode(payload)) }

  // ------------------------------------------------------------------
  // The law of a trace
  // ------------------------------------------------------------------

  /** The message whose XA is in hand. */
  ghost function Current(calls: seq<Call>): Option<Message> {
    if calls == [] then None
    else if calls[|calls| - 1].Deliver? then Some(calls[|calls| - 1].message)
    else Current(calls[..|calls| - 1])
  }

  /** The calls since it was delivered. */
  ghost function Since(calls: seq<Call>): seq<Call> {
    if calls == [] || calls[|calls| - 1].Deliver? then []
    else Since(calls[..|calls| - 1]) + [calls[|calls| - 1]]
  }

  ghost predicate NoEnQueue(cs: seq<Call>) { forall i :: 0 <= i < |cs| ==> !cs[i].EnQueue? }

  ghost predicate AckAccepted(s: Setup, m: Message, cs: seq<Call>, i: int) {
    && 0 <= i < |cs| && cs[i].EnQueue? && cs[i].queue == OUTPUT_QUEUE && cs[i].answer == Accepted
    && IsAck(s, m, cs[i].payload)
  }

  ghost predicate ResultAccepted(s: Setup, m: Message, cs: seq<Call>, j: int) {
    && 0 <= j < |cs| && cs[j].EnQueue? && cs[j].queue == OUTPUT_QUEUE && cs[j].answer == Accepted
    && IsResult(s, m, cs[j].payload)
  }

  /** The ACK, and after it the RESULT if the request was clean, are on the output queue. */
  ghost predicate Answered(s: Setup, m: Message, cs: seq<Call>) {
    exists i :: AckAccepted(s, m, cs, i) && (Clean(s, m) ==> exists j :: i < j && ResultAccepted(s, m, cs, j))
  }

  /** The last reply of this kind that was made. */
  ghost function Composed(cs: seq<Call>, kind: ResponseKind): Option<Text> {
    if cs == [] then None
    else
      var c := cs[|cs| - 1];
      if c.Compose? && c.kind == kind then c.reply else Composed(cs[..|cs| - 1], kind)
  }

  /** All replies the message calls for are made. */
  ghost predicate AllComposed(s: Setup, m: Message, cs: seq<Call>) {
    Composed(cs, ACK).Some? && (Clean(s, m) ==> Composed(cs, RESULT).Some?)
  }

  /** What the error queue is for: a message that cannot be answered, or whose business work or
      whose reply just failed. */
  ghost predicate Unanswerable(s: Setup, m: Message, cs: seq<Call>) {
    if cs == [] then !Health(s, m) && !Replyable(s, m)
    else cs[|cs| - 1] == Business(false) || (cs[|cs| - 1].Compose? && cs[|cs| - 1].reply.None?)
  }

  /** Replies are made before anything is sent: for a clean request after its business work
      the ACK and then the RESULT, for a rejected one the ACK. */
  ghost predicate MayCompose(s: Setup, m: Message, cs: seq<Call>, kind: ResponseKind) {
    if Clean(s, m) then
      || (kind == ACK && cs == [Business(true)])
      || (kind == RESULT && |cs| == 2 && cs[0] == Business(true) && cs[1].Compose? && cs[1].kind == ACK && cs[1].reply.Some?)
    else Replyable(s, m) && kind == ACK && cs == []
  }

  /** A first attempt, with everything before it settled. */
  ghost predicate MayStart(s: Setup, m: Message, cs: seq<Call>, queue: Queue, payload: Bytes) {
    || (queue == ERROR_QUEUE && payload == m.data && NoEnQueue(cs) && Unanswerable(s, m, cs))
    || (queue == OUTPUT_QUEUE && NoEnQueue(cs) && AllComposed(s, m, cs) && payload == s.encode(Composed(cs, ACK).value))
    || (&& queue == OUTPUT_QUEUE && Clean(s, m) && AllComposed(s, m, cs) && (exists i :: AckAccepted(s, m, cs, i))
        && payload == s.encode(Composed(cs, RESULT).value))
  }

  ghost predicate Settled(cs: seq<Call>) {
    cs == [] || match cs[|cs| - 1]
                case EnQueue(_, _, answer) => answer == Accepted
                case Commit(_, _) => false
                case _ => true
  }

  ghost predicate MayEnQueue(s: Setup, m: Message, cs: seq<Call>, queue: Queue, payload: Bytes) {
    || (cs != [] && cs[|cs| - 1] == EnQueue(queue, payload, Refused))
    || (Settled(cs) && MayStart(s, m, cs, queue, payload))
  }

  /** What may come next: one delivery at a time, business work only straight after it, a
      refused payload retried and nothing else, a commit only when the message is resolved. */
  ghost predicate MayFollow(s: Setup, calls: seq<Call>, c: Call) {
    match c
    case Deliver(_) => Idle(calls)
    case Business(_) => calls != [] && calls[|calls| - 1].Deliver? && Clean(s, calls[|calls| - 1].message)
    case Compose(kind, index, moment, reply) =>
      (&& Current(calls).Some? && MayCompose(s, Current(calls).value, Since(calls), kind)
       && index == Replies(calls) + 1 && IsReply(s, Current(calls).value, kind, index, moment, reply))
    case EnQueue(queue, payload, _) =>
      Current(calls).Some? && MayEnQueue(s, Current(calls).value, Since(calls), queue, payload)
    case Commit(seqNo, _) =>
      (&& Current(calls).Some? && seqNo == Current(calls).value.seqNo && Settled(Since(calls))
       && Resolved(s, Current(calls).value, Since(calls)))
  }

  /** How many replies were asked for, which is what the sequence counter counts. */
  ghost function Replies(calls: seq<Call>): nat {
    if calls == [] then 0 else Replies(calls[..|calls| - 1]) + if calls[|calls| - 1].Compose? then 1 else 0
  }

  /** No XA is in hand: the last one was committed. */
  ghost predicate Idle(calls: seq<Call>) {
    calls == [] || (calls[|calls| - 1].Commit? && calls[|calls| - 1].ok)
  }

  ghost predicate Resolved(s: Setup, m: Message, cs: seq<Call>) {
    || (Health(s, m) && cs == [])
    || (cs != [] && cs[|cs| - 1] == EnQueue(ERROR_QUEUE, m.data, Accepted))
    || Answered(s, m, cs)
  }

  ghost predicate Lawful(s: Setup, calls: seq<Call>) {
    forall k :: 0 <= k < |calls| ==> MayFollow(s, calls[..k], calls[k])
  }

  lemma {:induction false} LawfulSnoc(s: Setup, calls: seq<Call>, c: Call)
    requires Lawful(s, calls) && MayFollow(s, calls, c)
    ensures Lawful(s, calls + [c])
    ensures !c.Deliver? ==> Current(calls + [c]) == Current(calls) && Since(calls + [c]) == Since(calls) + [c]
    ensures c.Deliver? ==> Current(calls + [c]) == Some(c.message) && Since(calls + [c]) == []
    ensures Replies(calls + [c]) == Replies(calls) + if c.Compose? then 1 else 0
  {
    hide MayFollow;
    var all := calls + [c];
    assert all[..|calls|] == calls;
    forall k | 0 <= k < |all| ensures MayFollow(s, all[..k], all[k]) {
      if k < |calls| { assert all[..k] == calls[..k]; }
    }
  }

  /** Sending leaves what was made. */
  lemma {:induction false} ComposedStays(cs: seq<Call>, more: seq<Call>)
    requires cs <= more && forall i :: |cs| <= i < |more| ==> !more[i].Compose?
    ensures forall kind :: Composed(more, kind) == Composed(cs, kind)
    decreases |more|
  {
    if |cs| < |more| {
      ComposedStays(cs, more[..|more| - 1]);
    } else {
      assert more == cs;
    }
  }

  /** Each value of a reply is well-formed. */
  lemma {:induction false} ReplyValuesWellFormed(s: Setup, m: Message, kind: ResponseKind, moment: Moment)
    requires ValidSetup(s) && Replyable(s, m)
    ensures forall key <- ReplyValues(s, m, kind, moment) :: WellFormed(ReplyValues(s, m, kind, moment)[key])
  {
    hide WellFormed, Get, ReadObject, Clean, Format14, Lit;
    ParserClosure(s.decode(m.data));
    GetWellFormed(Request(s, m).value, HISTORY_KEY);
    GetWellFormed(Request(s, m).value, MSG_KIND);
    Format14WellFormed(moment.sendTime);
    Format14WellFormed(moment.doneDate);
    ConstantsAreWellFormed();
  }

  /** The names of the fields a reply is identified by are different. */
  lemma {:induction false} ReplyNames(s: Setup, m: Message, kind: ResponseKind, moment: Moment)
    requires Replyable(s, m)
    ensures var values := ReplyValues(s, m, kind, moment);
      && HISTORY_KEY in values && Some(values[HISTORY_KEY]) == Get(Request(s, m).value, HISTORY_KEY)
      && RESULT_CODE in values && values[RESULT_CODE] == Code(s, m)
  {
    hide Get, ReadObject, Clean, Format14;
    assert HISTORY_KEY[0] != RESULT_CODE[0];
  }

  /** A reply is read as its fields in map order. */
  lemma {:induction false} ReplyReads(s: Setup, m: Message, kind: ResponseKind, index: int, moment: Moment)
    requires ValidSetup(s) && CanCompose(s, m, kind, index, moment)
    ensures var fields := MapOf(s, kind); var t := ReplyText(s, m, kind, index, moment);
      && WellFormed(t) && AuditsClean(fields, t)
      && ReadObject(t) == Ok(Sources(fields, ReplyValues(s, m, kind, moment), index, moment))
  {
    hide WellFormed, Get, AuditsClean, Record, ReadObject, ErrorsOf, ValidField, ObjectErrors, Names, Clean, SourceValue,
      ReplyValues, Sources, AllAccepted, Fills, WellFormedEntries, RecordOpen;
    var fields, values := MapOf(s, kind), ReplyValues(s, m, kind, moment);
    var es := Sources(fields, values, index, moment);
    ReplyValuesWellFormed(s, m, kind, moment);
    SourcesWellFormed(fields, values, index, moment);
    SourcesFill(fields, values, index, moment);
    RecordWellFormed(es);
    FilledIsClean(fields, es);
    FilledRecordPassesAudit(fields, es);
  }

  lemma {:induction false} RecordAnswers(s: Setup, m: Message, kind: ResponseKind, index: int, moment: Moment)
    requires ValidSetup(s) && CanCompose(s, m, kind, index, moment)
    ensures Answers(s, m, MapOf(s, kind), ReplyText(s, m, kind, index, moment)) && WellFormed(ReplyText(s, m, kind, index, moment))
  {
    hide WellFormed, Get, AuditsClean, ReadObject, Names, Clean, SourceValue, ReplyValues, Sources, AllAccepted, ReplyText, ValidField;
    var fields, values := MapOf(s, kind), ReplyValues(s, m, kind, moment);
    ReplyReads(s, m, kind, index, moment);
    ReplyNames(s, m, kind, moment);
    SourceCarries(fields, values, index, moment, HISTORY_KEY);
    SourceCarries(fields, values, index, moment, RESULT_CODE);
  }

  /** What a reply says to whoever reads it, where its map has the field: the kind and key of
      the request, 0000 and 01 for a clean one and 9999 and 03 for a rejected one, the reason,
      and when it was made. */
  lemma {:induction false} ReplySays(s: Setup, m: Message, kind: ResponseKind, index: int, moment: Moment)
    requires ValidSetup(s) && CanCompose(s, m, kind, index, moment)
    ensures var t := ReplyText(s, m, kind, index, moment); var fields, request := MapOf(s, kind), Request(s, m).value;
      && ReadObject(t).Ok?
      && Carries(fields, t, MSG_KIND, Get(request, MSG_KIND)) && Carries(fields, t, HISTORY_KEY, Get(request, HISTORY_KEY))
      && Carries(fields, t, RESULT_CODE, Some(Lit(if Clean(s, m) then "0000" else "9999")))
      && Carries(fields, t, Lit("RESULT_GROUP_CODE"), Some(Lit(if Clean(s, m) then "01" else "03")))
      && Carries(fields, t, Lit("REASON"),
                 Some(Lit(if !Clean(s, m) then "AUDIT_ERROR" else if kind == ACK then "SUCCESS" else "DELIVERED")))
      && Carries(fields, t, Lit("SEND_TIME"), Some(Format14(moment.sendTime)))
      && Carries(fields, t, Lit("DONE_DATE"), Some(Format14(moment.doneDate)))
  {
    hide WellFormed, Get, AuditsClean, ReadObject, Names, Clean, SourceValue, ReplyValues, Sources, AllAccepted, ReplyText, ValidField,
      Format14;
    var fields, values := MapOf(s, kind), ReplyValues(s, m, kind, moment);
    ReplyReads(s, m, kind, index, moment);
    ReplyEntries(s, m, kind, moment);
    SourceCarries(fields, values, index, moment, MSG_KIND);
    SourceCarries(fields, values, index, moment, HISTORY_KEY);
    SourceCarries(fields, values, index, moment, RESULT_CODE);
    SourceCarries(fields, values, index, moment, Lit("RESULT_GROUP_CODE"));
    SourceCarries(fields, values, index, moment, Lit("REASON"));
    SourceCarries(fields, values, index, moment, Lit("SEND_TIME"));
    SourceCarries(fields, values, index, moment, Lit("DONE_DATE"));
  }

  lemma {:induction false} ReplyEntries(s: Setup, m: Message, kind: ResponseKind, moment: Moment)
    requires Replyable(s, m)
    ensures var values := ReplyValues(s, m, kind, moment); var request := Request(s, m).value;
      && MSG_KIND in values && Some(values[MSG_KIND]) == Get(request, MSG_KIND)
      && HISTORY_KEY in values && Some(values[HISTORY_KEY]) == Get(request, HISTORY_KEY)
      && RESULT_CODE in values && values[RESULT_CODE] == Code(s, m)
      && Lit("RESULT_GROUP_CODE") in values && values[Lit("RESULT_GROUP_CODE")] == Group(s, m)
      && Lit("REASON") in values && values[Lit("REASON")] == Reason(s, m, kind)
      && Lit("SEND_TIME") in values && values[Lit("SEND_TIME")] == Format14(moment.sendTime)
      && Lit("DONE_DATE") in values && values[Lit("DONE_DATE")] == Format14(moment.doneDate)
  {
    hide Get, ReadObject, Clean, Format14;
    assert HISTORY_KEY[0] == 0x48 && MSG_KIND[0] == 0x4D && RESULT_CODE[0] == 0x52 && Lit("SEND_TIME")[0] == 0x53;
    assert Lit("DONE_DATE")[0] == 0x44 && Lit("REASON")[0] == 0x52 && Lit("RESULT_GROUP_CODE")[0] == 0x52;
    assert |RESULT_CODE| == 11 && |Lit("REASON")| == 6 && |Lit("RESULT_GROUP_CODE")| == 17;
  }

  lemma {:induction false} ReplyIff(s: Setup, m: Message, kind: ResponseKind, index: int, moment: Moment)
    requires Replyable(s, m) && index >= 1
    ensures var fields, values := MapOf(s, kind), ReplyValues(s, m, kind, moment);
      IsReply(s, m, kind, index, moment,
        if AllAccepted(fields, values, index, moment) then Some(Record(Sources(fields, values, index, moment))) else None)
  {
    hide Replyable, AllAccepted, Sources, ReplyValues, Record;
  }

  lemma {:induction false} ReplyAnswers(s: Setup, m: Message, kind: ResponseKind, index: int, moment: Moment, reply: Option<Text>)
    requires ValidSetup(s) && IsReply(s, m, kind, index, moment, reply)
    ensures reply.Some? ==> Answers(s, m, MapOf(s, kind), reply.value) && WellFormed(reply.value)
  {
    hide ReplyText, CanCompose, Answers, WellFormed;
    if CanCompose(s, m, kind, index, moment) { RecordAnswers(s, m, kind, index, moment); }
  }

  lemma {:induction false} ComposedSnoc(cs: seq<Call>, c: Call, kind: ResponseKind)
    ensures Composed(cs + [c], kind) == if c.Compose? && c.kind == kind then c.reply else Composed(cs, kind)
  {
    assert (cs + [c])[..|cs|] == cs;
  }

  // ------------------------------------------------------------------
  // The agent
  // ------------------------------------------------------------------

  datatype Ending = Done | Stopped

  /** The last call threw or failed. */
  ghost predicate Broken(calls: seq<Call>) {
    && calls != []
    && match calls[|calls| - 1]
       case EnQueue(_, _, answer) => answer == Threw
       case Commit(_, ok) => !ok
       case _ => false
  }

  class Agent {
    const setup: Setup
    var running: bool
    var responseSequence: int
    var calls: seq<Call>
    /** How many more calls the environment answers before it asks for a shutdown. */
    var patience: nat
    /** A shutdown has been asked for. */
    ghost var asked: bool

    ghost predicate Valid()
      reads this
    {
      ValidSetup(setup) && responseSequence == Replies(calls) && Lawful(setup, calls)
    }

    /** It gives up running only when it is asked to. */
    ghost predicate Serving()
      reads this
    {
      Valid() && (running || asked || patience == 0) && (asked ==> !running)
    }

    /** What ends the agent: a shutdown, or a call that threw or failed. */
    ghost predicate MayStop()
      reads this
    {
      asked || patience == 0 || Broken(calls)
    }

    constructor (setup: Setup, patience: nat)
      requires ValidSetup(setup)
      ensures Serving() && this.setup == setup && calls == [] && this.patience == patience && !asked
    {
      this.setup := setup;
      running, responseSequence, calls, this.patience, asked := true, 0, [], patience, false;
    }

    /** One call of enQueue, answered by the library; a shutdown may arrive. */
    method CallEnQueue(queue: Queue, payload: Bytes) returns (answer: Answer)
      requires Serving() && running && patience > 0
      requires Current(calls).Some? && MayEnQueue(setup, Current(calls).value, Since(calls), queue, payload)
      modifies this`calls, this`patience, this`running, this`asked
      ensures Serving() && calls == old(calls) + [EnQueue(queue, payload, answer)] && patience < old(patience)
      ensures Current(calls) == old(Current(calls)) && Since(calls) == old(Since(calls)) + [EnQueue(queue, payload, answer)]
    {
      hide Lawful, ValidSetup, Current, Since, MayEnQueue, Replies;
      answer := *;
      LawfulSnoc(setup, calls, EnQueue(queue, payload, answer));
      calls := calls + [EnQueue(queue, payload, answer)];
      patience := patience - 1;
      var shutdown: bool := *;
      if shutdown {
        running := false;
        asked := true;
      }
    }

    /** enqueueBytesWithRetry(): the same bytes again and again until they are accepted,
        the library throws or the agent stops. */
    method EnqueueWithRetry(queue: Queue, payload: Bytes) returns (r: Ending)
      requires Serving() && Current(calls).Some? && Settled(Since(calls))
      requires MayStart(setup, Current(calls).value, Since(calls), queue, payload)
      modifies this`calls, this`patience, this`running, this`asked
      ensures Serving() && Current(calls) == old(Current(calls)) && patience <= old(patience)
      ensures old(Since(calls)) <= Since(calls)
      ensures forall i :: |old(Since(calls))| <= i < |Since(calls)| ==>
        Since(calls)[i].EnQueue? && Since(calls)[i].queue == queue && Since(calls)[i].payload == payload
      ensures r == Done ==>
        |Since(calls)| > |old(Since(calls))| && Since(calls)[|Since(calls)| - 1] == EnQueue(queue, payload, Accepted)
      ensures r == Stopped ==> MayStop()
    {
      hide Lawful, ValidSetup, Current, Since, MayStart, Replies;
      ghost var before := Since(calls);
      while running && patience > 0
        invariant Serving() && Current(calls) == old(Current(calls)) && patience <= old(patience)
        invariant before <= Since(calls)
        invariant Since(calls) == before ||
          (|Since(calls)| > |before| && Since(calls)[|Since(calls)| - 1] == EnQueue(queue, payload, Refused))
        invariant forall i :: |before| <= i < |Since(calls)| ==>
          Since(calls)[i].EnQueue? && Since(calls)[i].queue == queue && Since(calls)[i].payload == payload
        decreases patience
      {
        var answer := CallEnQueue(queue, payload);
        if answer == Threw {
          return Stopped;
        }
        if answer == Accepted {
          return Done;
        }
      }
      return Stopped;
    }

    /** commit() */
    method CallCommit(m: Message) returns (r: Ending)
      requires Serving() && Current(calls) == Some(m) && Settled(Since(calls)) && Resolved(setup, m, Since(calls))
      modifies this`calls
      ensures Serving() && Current(calls) == Some(m)
      ensures calls == old(calls) + [Commit(m.seqNo, r == Done)]
      ensures r == Stopped ==> MayStop()
    {
      hide Lawful, ValidSetup, Current, Since, Resolved, Settled, Replies;
      var ok: bool := *;
      LawfulSnoc(setup, calls, Commit(m.seqNo, ok));
      calls := calls + [Commit(m.seqNo, ok)];
      return if ok then Done else Stopped;
    }

    /** quarantine(): the exact input bytes go to the error queue before the commit. */
    method Quarantine(m: Message) returns (r: Ending)
      requires Serving() && Current(calls) == Some(m) && NoEnQueue(Since(calls)) && Settled(Since(calls))
      requires Unanswerable(setup, m, Since(calls))
      modifies this`calls, this`patience, this`running, this`asked
      ensures Serving() && patience <= old(patience)
      ensures if r == Done then calls != [] && calls[|calls| - 1] == Commit(m.seqNo, true) else MayStop()
    {
      hide Lawful, ValidSetup, Current, Since, IsAck, IsResult, Replies;
      var sent := EnqueueWithRetry(ERROR_QUEUE, m.data);
      if sent == Stopped {
        return Stopped;
      }
      r := CallCommit(m);
    }

    /** response(): a record of the map with the request's HISTORY_KEY, or nothing if it
        cannot be made. */
    method Response(m: Message, reply: ResponseKind, kind: Text, code: Text, group: Text, reason: Text)
      returns (r: Option<Text>, ghost moment: Moment)
      requires Serving() && Current(calls) == Some(m) && MayCompose(setup, m, Since(calls), reply)
      requires Replyable(setup, m) && kind == Get(Request(setup, m).value, MSG_KIND).value
      requires code == Code(setup, m) && group == Group(setup, m) && reason == Reason(setup, m, reply)
      modifies this`calls, this`responseSequence
      ensures Serving() && Current(calls) == Some(m) && responseSequence == old(responseSequence) + 1
      ensures IsReply(setup, m, reply, responseSequence, moment, r)
      ensures r.Some? ==> Answers(setup, m, MapOf(setup, reply), r.value) && WellFormed(r.value)
      ensures var c := Compose(reply, responseSequence, moment, r);
        && calls == old(calls) + [c] && Since(calls) == old(Since(calls)) + [c]
        && forall k :: Composed(Since(calls), k) == if k == reply then r else Composed(old(Since(calls)), k)
    {
      hide WellFormed, Get, AuditsClean, Record, ReadObject, ErrorsOf, ValidField, ObjectErrors, Names, Lawful, Clean,
        Accepts, FieldValue, SourceValue, RuleValue, AllNamed, RecordOpen, Current, Since, Replies, MayCompose,
        Answers, AllAccepted, Sources, ReplyValues,
        Format14, Composed, IsReply, Fills, Has;
      var fields := MapOf(setup, reply);
      var sendTime: DateTime := *;
      var doneDate: DateTime := *;
      var now: DateTime := *;
      var draws: nat -> Draw := *;
      var now14 := Moment(sendTime, doneDate, now, draws);
      moment := now14;
      var values := Offers(m, reply, kind, code, group, reason, now14);
      responseSequence := responseSequence + 1;
      var text := Filled(fields, responseSequence, values, now14);
      ReplyIff(setup, m, reply, responseSequence, moment);
      r := if text.Made? then Some(text.value) else None;
      ReplyAnswers(setup, m, reply, responseSequence, moment, r);
      ghost var before, c := Since(calls), Compose(reply, responseSequence, now14, r);
      LawfulSnoc(setup, calls, c);
      calls := calls + [Compose(reply, responseSequence, now14, r)];
      forall k ensures Composed(Since(calls), k) == if k == reply then r else Composed(before, k) {
        ComposedSnoc(before, c, k);
      }
    }

    /** The values response() puts into its map. */
    method Offers(m: Message, reply: ResponseKind, kind: Text, code: Text, group: Text, reason: Text, moment: Moment)
      returns (values: map<Text, Text>)
      requires Replyable(setup, m) && kind == Get(Request(setup, m).value, MSG_KIND).value
      requires code == Code(setup, m) && group == Group(setup, m) && reason == Reason(setup, m, reply)
      ensures values == ReplyValues(setup, m, reply, moment)
    {
      hide Format14, ReadObject, Clean;
      values := map[
        MSG_KIND := kind,
        RESULT_CODE := code,
        Lit("RESULT_GROUP_CODE") := group,
        Lit("REASON") := reason,
        Lit("SEND_TIME") := Format14(moment.sendTime),
        Lit("DONE_DATE") := Format14(moment.doneDate),
        HISTORY_KEY := Get(Request(setup, m).value, HISTORY_KEY).value];
    }

    /** process() */
    method Process(m: Message) returns (r: Ending)
      requires Serving() && Current(calls) == Some(m) && Since(calls) == [] && calls != []
      requires calls[|calls| - 1] == Deliver(m)
      modifies this`calls, this`patience, this`running, this`responseSequence, this`asked
      ensures Serving() && patience <= old(patience)
      ensures if r == Done then calls != [] && calls[|calls| - 1] == Commit(m.seqNo, true) else MayStop()
    {
      hide Lawful, Current, Since, IsAck, IsResult, Get, ReadObject, ObjectErrors, Names, WellFormed, ValidMap, Replies;
      var request := Request(setup, m);
      if request.Error? {
        r := Quarantine(m);
        return;
      }
      var kind := Get(request.value, MSG_KIND);
      if kind == Some(Lit("HEALTH_CHECK")) {
        r := CallCommit(m);
        return;
      }
      if kind !in [Some(Lit("S")), Some(Lit("L")), Some(Lit("M"))] || Get(request.value, HISTORY_KEY) in [None, Some([])] {
        r := Quarantine(m);
        return;
      }
      var errors: bool;
      if kind.value !in setup.inputs {
        errors := true;
      } else {
        var found := ValidateObject(setup.inputs[kind.value], request.value);
        errors := found != [];
      }
      if errors {
        r := Reject(m, kind.value);
      } else {
        r := Serve(m, kind.value);
      }
    }

    /** The branch of process() for a request that fails its audit: an ACK only. */
    method Reject(m: Message, kind: Text) returns (r: Ending)
      requires Serving() && Current(calls) == Some(m) && Since(calls) == []
      requires Replyable(setup, m) && !Clean(setup, m) && kind == Get(Request(setup, m).value, MSG_KIND).value
      modifies this`calls, this`patience, this`running, this`responseSequence, this`asked
      ensures Serving() && patience <= old(patience)
      ensures if r == Done then calls != [] && calls[|calls| - 1] == Commit(m.seqNo, true) else MayStop()
    {
      hide Lawful, Current, Since, Answers, Clean, WellFormed, ValidMap, Replies, Get, ReadObject, IsReply, Composed;
      var ack, _ := Response(m, ACK, kind, Lit("9999"), Lit("03"), Lit("AUDIT_ERROR"));
      if ack.None? {
        r := Quarantine(m);
        return;
      }
      var payload := setup.encode(ack.value);
      assert IsAck(setup, m, payload);
      var sent := EnqueueWithRetry(OUTPUT_QUEUE, payload);
      if sent == Stopped {
        return Stopped;
      }
      assert AckAccepted(setup, m, Since(calls), |Since(calls)| - 1);
      r := CallCommit(m);
    }

    /** The branch of process() for a clean request: business work once, ACK, RESULT. */
    method Serve(m: Message, kind: Text) returns (r: Ending)
      requires Serving() && Current(calls) == Some(m) && Since(calls) == [] && calls != []
      requires calls[|calls| - 1] == Deliver(m) && Clean(setup, m) && kind == Get(Request(setup, m).value, MSG_KIND).value
      modifies this`calls, this`patience, this`running, this`responseSequence, this`asked
      ensures Serving() && patience <= old(patience)
      ensures if r == Done then calls != [] && calls[|calls| - 1] == Commit(m.seqNo, true) else MayStop()
    {
      hide Lawful, Current, Since, Answers, Clean, WellFormed, ValidMap, Replyable, Replies, Get, ReadObject, IsReply, Composed;
      CleanIsReplyable(setup, m);
      var worked: bool := *;
      LawfulSnoc(setup, calls, Business(worked));
      calls := calls + [Business(worked)];
      if !worked {
        r := Quarantine(m);
        return;
      }
      var ack, _ := Response(m, ACK, kind, Lit("0000"), Lit("01"), Lit("SUCCESS"));
      if ack.None? {
        r := Quarantine(m);
        return;
      }
      var result, _ := Response(m, RESULT, kind, Lit("0000"), Lit("01"), Lit("DELIVERED"));
      if result.None? {
        r := Quarantine(m);
        return;
      }
      r := Reply(m, setup.encode(ack.value), setup.encode(result.value));
    }

    /** ACK, then RESULT, then commit. */
    method Reply(m: Message, ack: Bytes, result: Bytes) returns (r: Ending)
      requires Serving() && Current(calls) == Some(m) && NoEnQueue(Since(calls)) && Settled(Since(calls))
      requires Clean(setup, m) && IsAck(setup, m, ack) && IsResult(setup, m, result) && AllComposed(setup, m, Since(calls))
      requires ack == setup.encode(Composed(Since(calls), ACK).value) && result == setup.encode(Composed(Since(calls), RESULT).value)
      modifies this`calls, this`patience, this`running, this`asked
      ensures Serving() && patience <= old(patience)
      ensures if r == Done then calls != [] && calls[|calls| - 1] == Commit(m.seqNo, true) else MayStop()
    {
      hide Lawful, Current, Since, Clean, IsAck, IsResult, ValidSetup, Replies, Composed;
      ghost var before := Since(calls);
      var sent := EnqueueWithRetry(OUTPUT_QUEUE, ack);
      if sent == Stopped {
        return Stopped;
      }
      ghost var i := |Since(calls)| - 1;
      assert AckAccepted(setup, m, Since(calls), i);
      ComposedStays(before, Since(calls));
      sent := EnqueueWithRetry(OUTPUT_QUEUE, result);
      if sent == Stopped {
        return Stopped;
      }
      assert AckAccepted(setup, m, Since(calls), i);
      assert ResultAccepted(setup, m, Since(calls), |Since(calls)| - 1);
      r := CallCommit(m);
    }

    /** run(): from an empty trace to the end of the process, however long it ran. It ends when
        it is asked to, or when a call threw or failed. */
    method Run()
      requires Serving() && calls == []
      modifies this
      ensures Valid() && MayStop() && (!running || patience == 0)
      ensures forall n :: 0 <= n <= |calls| ==> Lawful(setup, calls[..n])
    {
      hide Lawful, ValidSetup, Current, Since, Replies;
      while running && patience > 0
        invariant Serving()
        invariant Idle(calls)
        decreases patience
      {
        patience := patience - 1;
        var shutdown: bool := *;
        if shutdown {
          running := false;
          asked := true;
        }
        var message: Option<Message> := *;
        if message.Some? {
          LawfulSnoc(setup, calls, Deliver(message.value));
          calls := calls + [Deliver(message.value)];
          var ending := Process(message.value);
          if ending == Stopped {
            running := false;
            break;
          }
        }
      }
      forall n | 0 <= n <= |calls| ensures Lawful(setup, calls[..n]) {
        LawfulPrefix(setup, calls, n);
      }
    }
  }

  // ------------------------------------------------------------------
  // What the law says of every run
  // ------------------------------------------------------------------

  lemma {:induction false} LawfulPrefix(s: Setup, calls: seq<Call>, n: nat)
    requires Lawful(s, calls) && n <= |calls|
    ensures Lawful(s, calls[..n])
  {
    hide MayFollow;
    forall k | 0 <= k < n ensures MayFollow(s, calls[..n][..k], calls[..n][k]) {
      assert calls[..n][..k] == calls[..k];
    }
  }

  /** The calls since the last delivery are the end of the trace. */
  lemma {:induction false} SinceIsTail(calls: seq<Call>) returns (d: nat)
    requires Current(calls).Some?
    ensures d < |calls| && calls[d] == Deliver(Current(calls).value) && calls[d + 1..] == Since(calls)
    ensures forall i :: d < i < |calls| ==> !calls[i].Deliver?
    decreases |calls|
  {
    var n := |calls| - 1;
    if calls[n].Deliver? {
      d := n;
    } else {
      d := SinceIsTail(calls[..n]);
      assert calls[d + 1..] == calls[..n][d + 1..] + [calls[n]];
    }
  }

  /** A commit comes after its message is resolved: a health check needs nothing; otherwise
      its exact bytes are on the error queue, or its ACK, and then its RESULT when the audit
      was clean, are on the output queue, all since that delivery. */
  lemma {:induction false} CommitsAfterOutput(s: Setup, calls: seq<Call>, k: nat) returns (d: nat, m: Message)
    requires Lawful(s, calls) && k < |calls| && calls[k].Commit?
    ensures d < k && calls[d] == Deliver(m) && m.seqNo == calls[k].seqNo
    ensures forall i :: d < i < k ==> !calls[i].Deliver?
    ensures || Health(s, m)
            || calls[k - 1] == EnQueue(ERROR_QUEUE, m.data, Accepted)
            || Answered(s, m, calls[d + 1..k])
  {
    hide Health, Answered, Current, Since;
    assert MayFollow(s, calls[..k], calls[k]);
    m := Current(calls[..k]).value;
    d := SinceIsTail(calls[..k]);
    assert calls[..k][d + 1..] == calls[d + 1..k];
  }

  /** After a refused enqueue only the same bytes follow, on the same queue; after an
      exception from the library, or a failed commit, nothing follows. */
  lemma {:induction false} FailuresAreNotPassedOver(s: Setup, calls: seq<Call>, k: nat)
    requires Lawful(s, calls) && k + 1 < |calls|
    ensures calls[k].EnQueue? && calls[k].answer == Refused ==>
      calls[k + 1].EnQueue? && calls[k + 1].queue == calls[k].queue && calls[k + 1].payload == calls[k].payload
    ensures !(calls[k].EnQueue? && calls[k].answer == Threw)
    ensures calls[k].Commit? ==> calls[k].ok && calls[k + 1].Deliver?
  {
    hide MayStart, Resolved;
    assert MayFollow(s, calls[..k + 1], calls[k + 1]);
    SinceLast(calls[..k + 1]);
  }

  lemma {:induction false} SinceLast(calls: seq<Call>)
    requires calls != []
    ensures var c := calls[|calls| - 1];
      if c.Deliver? then Since(calls) == [] else |Since(calls)| > 0 && Since(calls)[|Since(calls)| - 1] == c
  {
  }

  /** Business work is done at most once for a delivery, only for a clean request, and
      before anything is sent for it: whatever was sent earlier belongs to a message that
      was committed in between. */
  lemma {:induction false} BusinessAtMostOnce(s: Setup, calls: seq<Call>, k: nat)
    requires Lawful(s, calls) && k < |calls| && calls[k].Business?
    ensures k > 0 && calls[k - 1].Deliver? && Clean(s, calls[k - 1].message)
    ensures forall j :: 0 <= j < k && calls[j].Business? ==> exists d :: j < d < k && calls[d].Deliver?
    ensures forall j :: 0 <= j < k && calls[j].EnQueue? ==> exists c :: j < c < k && calls[c].Commit? && calls[c].ok
  {
    hide Clean, MayEnQueue, Resolved;
    assert MayFollow(s, calls[..k], calls[k]);
    assert MayFollow(s, calls[..k - 1], calls[k - 1]);
    forall j | 0 <= j < k && calls[j].EnQueue? ensures exists c :: j < c < k && calls[c].Commit? && calls[c].ok {
      assert calls[k - 2].Commit? && calls[k - 2].ok;
    }
  }

  /** What makes a message one for the error queue: it cannot be answered, or its business work
      failed, or a reply to it cannot be made. */
  ghost predicate Hopeless(s: Setup, m: Message, cs: seq<Call>) {
    || (!Health(s, m) && !Replyable(s, m))
    || Business(false) in cs
    || exists i :: 0 <= i < |cs| && cs[i].Compose? && !CanCompose(s, m, cs[i].kind, cs[i].index, cs[i].moment)
  }

  /** A reply in hand is the reply to this message, made after its business work if it is clean. */
  lemma {:induction false} ComposedAnswers(s: Setup, calls: seq<Call>, kind: ResponseKind)
    requires ValidSetup(s) && Lawful(s, calls) && Current(calls).Some? && Composed(Since(calls), kind).Some?
    ensures var m, t := Current(calls).value, Composed(Since(calls), kind).value;
      && Replyable(s, m) && Answers(s, m, MapOf(s, kind), t) && WellFormed(t)
      && (Clean(s, m) ==> Business(true) in Since(calls))
    decreases |calls|
  {
    hide Answers, Clean, Replyable, WellFormed, Resolved, MayEnQueue, CanCompose, ReplyText, ValidSetup;
    var before, c := calls[..|calls| - 1], calls[|calls| - 1];
    assert MayFollow(s, before, c);
    ComposedSnoc(Since(before), c, kind);
    if c.Compose? && c.kind == kind {
      ReplyableIfComposed(s, Current(calls).value, Since(before), kind, c);
      RecordAnswers(s, Current(calls).value, kind, c.index, c.moment);
    } else {
      LawfulPrefix(s, calls, |calls| - 1);
      ComposedAnswers(s, before, kind);
    }
  }

  lemma {:induction false} ReplyableIfComposed(s: Setup, m: Message, cs: seq<Call>, kind: ResponseKind, c: Call)
    requires MayCompose(s, m, cs, kind) && c.Compose?
    ensures Replyable(s, m) && (Clean(s, m) ==> Business(true) in cs + [c])
  {
    hide Health;
    if Clean(s, m) {
      CleanIsReplyable(s, m);
      assert cs[0] == Business(true) && (cs + [c])[0] == Business(true);
    }
  }

  lemma {:induction false} UnanswerableIsHopeless(s: Setup, calls: seq<Call>)
    requires Lawful(s, calls) && Current(calls).Some? && Unanswerable(s, Current(calls).value, Since(calls))
    ensures Hopeless(s, Current(calls).value, Since(calls))
  {
    hide Health, Replyable, Resolved, MayEnQueue, CanCompose, ReplyText, Answers, MayCompose;
    var cs := Since(calls);
    if cs != [] {
      SinceLast(calls);
      assert MayFollow(s, calls[..|calls| - 1], calls[|calls| - 1]);
      assert cs[|cs| - 1] in cs;
    }
  }

  ghost predicate Justified(s: Setup, m: Message, cs: seq<Call>, queue: Queue, payload: Bytes) {
    || (queue == ERROR_QUEUE && payload == m.data && Hopeless(s, m, cs))
    || (queue == OUTPUT_QUEUE && IsAck(s, m, payload) && (Clean(s, m) ==> Business(true) in cs))
    || (&& queue == OUTPUT_QUEUE && IsResult(s, m, payload) && Clean(s, m) && Business(true) in cs
        && exists i :: AckAccepted(s, m, cs, i))
  }

  lemma {:induction false} StartIsJustified(s: Setup, calls: seq<Call>, queue: Queue, payload: Bytes)
    requires ValidSetup(s) && Lawful(s, calls) && Current(calls).Some?
    requires MayStart(s, Current(calls).value, Since(calls), queue, payload)
    ensures Justified(s, Current(calls).value, Since(calls), queue, payload)
  {
    hide Clean, Health, Replyable, Unanswerable, Hopeless, Answers, WellFormed, Lawful, ValidMap;
    var m, cs := Current(calls).value, Since(calls);
    if queue == ERROR_QUEUE {
      UnanswerableIsHopeless(s, calls);
    } else {
      ComposedAnswers(s, calls, ACK);
      if Clean(s, m) { ComposedAnswers(s, calls, RESULT); }
    }
  }

  /** Retrying changes nothing in what justified the first attempt. */
  lemma {:induction false} StillJustified(s: Setup, m: Message, cs: seq<Call>, c: Call, queue: Queue, payload: Bytes)
    requires Justified(s, m, cs, queue, payload)
    ensures Justified(s, m, cs + [c], queue, payload)
  {
    hide IsAck, IsResult, Clean, Health, Replyable, CanCompose;
    if i :| AckAccepted(s, m, cs, i) {
      assert AckAccepted(s, m, cs + [c], i);
    }
    if i :| 0 <= i < |cs| && cs[i].Compose? && !CanCompose(s, m, cs[i].kind, cs[i].index, cs[i].moment) {
      assert (cs + [c])[i] == cs[i];
    }
  }

  /** Everything enqueued is justified: the exact bytes on the error queue only for a message
      that cannot be answered or whose work or reply failed; its ACK, if it is clean after
      business work that succeeded; its RESULT after its ACK was accepted. */
  lemma {:induction false} OutputsAreJustified(s: Setup, calls: seq<Call>, k: nat)
    requires ValidSetup(s) && Lawful(s, calls) && k < |calls| && calls[k].EnQueue?
    ensures Current(calls[..k]).Some?
    ensures Justified(s, Current(calls[..k]).value, Since(calls[..k]), calls[k].queue, calls[k].payload)
    decreases k
  {
    hide IsAck, IsResult, Clean, MayStart, Justified, ValidSetup, Resolved;
    assert MayFollow(s, calls[..k], calls[k]);
    var m, cs := Current(calls[..k]).value, Since(calls[..k]);
    LawfulPrefix(s, calls, k);
    if cs != [] && cs[|cs| - 1] == EnQueue(calls[k].queue, calls[k].payload, Refused) {
      SinceLast(calls[..k]);
      var before := calls[..k - 1];
      assert calls[..k][..k - 1] == before;
      assert calls[k - 1] == cs[|cs| - 1];
      OutputsAreJustified(s, calls, k - 1);
      assert Current(before) == Some(m) && cs == Since(before) + [calls[k - 1]];
      StillJustified(s, m, Since(before), calls[k - 1], calls[k].queue, calls[k].payload);
    } else {
      StartIsJustified(s, calls[..k], calls[k].queue, calls[k].payload);
    }
  }

  /** A clean request is served: once it is committed its ACK and after it its RESULT have been
      accepted, after business work that succeeded, unless the work failed or a reply could
      not be made. */
  lemma {:induction false} CleanIsServed(s: Setup, calls: seq<Call>, k: nat) returns (d: nat, m: Message)
    requires ValidSetup(s) && Lawful(s, calls) && k < |calls| && calls[k].Commit?
    ensures d < k && calls[d] == Deliver(m) && forall i :: d < i < k ==> !calls[i].Deliver?
    ensures Clean(s, m) && !Hopeless(s, m, calls[d + 1..k]) ==>
      Answered(s, m, calls[d + 1..k]) && Business(true) in calls[d + 1..k]
  {
    hide Answered, Hopeless, Clean, Health, Current, Since, Replyable, MayEnQueue, ValidSetup, Lawful, Settled;
    CommitIsResolved(s, calls, k);
    m := Current(calls[..k]).value;
    d := SinceIsTail(calls[..k]);
    var cs := calls[d + 1..k];
    assert calls[..k][d + 1..] == cs;
    if Clean(s, m) && !Hopeless(s, m, cs) {
      CleanIsNoHealthCheck(s, m);
      if cs != [] && cs[|cs| - 1] == EnQueue(ERROR_QUEUE, m.data, Accepted) {
        QuarantinedIsHopeless(s, calls, k - 1, d, m);
      } else {
        AnsweredAfterWork(s, calls, k, d, m);
      }
    }
  }

  lemma {:induction false} CommitIsResolved(s: Setup, calls: seq<Call>, k: nat)
    requires Lawful(s, calls) && k < |calls| && calls[k].Commit?
    ensures Current(calls[..k]).Some? && Resolved(s, Current(calls[..k]).value, Since(calls[..k]))
  {
    hide Resolved, Current, Since;
    assert MayFollow(s, calls[..k], calls[k]);
  }

  lemma {:induction false} CleanIsNoHealthCheck(s: Setup, m: Message)
    requires Clean(s, m)
    ensures !Health(s, m)
  {
    assert Lit("HEALTH_CHECK")[0] == 0x48 && Lit("S")[0] == 0x53 && Lit("L")[0] == 0x4C && Lit("M")[0] == 0x4D;
  }

  /** What goes to the error queue belongs there. */
  lemma {:induction false} QuarantinedIsHopeless(s: Setup, calls: seq<Call>, k: nat, d: nat, m: Message)
    requires ValidSetup(s) && Lawful(s, calls) && d < k < |calls| && calls[k].EnQueue? && calls[k].queue == ERROR_QUEUE
    requires calls[d] == Deliver(m) && forall i :: d < i <= k ==> !calls[i].Deliver?
    ensures calls[k].payload == m.data && Hopeless(s, m, calls[d + 1..k + 1])
  {
    hide Health, Replyable, CanCompose, Lawful, ValidSetup, Current, Since, IsAck, IsResult, Clean;
    OutputsAreJustified(s, calls, k);
    SinceDelivery(calls, d, k);
    var before, cs := calls[d + 1..k], calls[d + 1..k + 1];
    assert cs == before + [calls[k]];
    if i :| 0 <= i < |before| && before[i].Compose? && !CanCompose(s, m, before[i].kind, before[i].index, before[i].moment) {
      assert cs[i] == before[i];
    }
  }

  /** The ACK of a clean request comes after business work. */
  lemma {:induction false} AnsweredAfterWork(s: Setup, calls: seq<Call>, k: nat, d: nat, m: Message)
    requires ValidSetup(s) && Lawful(s, calls) && d < k < |calls| && Clean(s, m) && Answered(s, m, calls[d + 1..k])
    requires calls[d] == Deliver(m) && forall i :: d < i < k ==> !calls[i].Deliver?
    ensures Business(true) in calls[d + 1..k]
  {
    hide Clean, Health, Replyable, IsAck, IsResult, Lawful, ValidSetup, Current, Since, Hopeless;
    var cs := calls[d + 1..k];
    var i :| AckAccepted(s, m, cs, i);
    var n := d + 1 + i;
    assert calls[n] == cs[i];
    OutputsAreJustified(s, calls, n);
    SinceDelivery(calls, d, n);
    assert calls[d + 1..n] <= cs;
  }

  lemma {:induction false} SinceDelivery(calls: seq<Call>, d: nat, n: nat)
    requires d < n <= |calls| && calls[d].Deliver? && forall i :: d < i < n ==> !calls[i].Deliver?
    ensures Current(calls[..n]) == Some(calls[d].message) && Since(calls[..n]) == calls[d + 1..n]
    decreases n
  {
    assert calls[..n][..n - 1] == calls[..n - 1];
    if n > d + 1 {
      SinceDelivery(calls, d, n - 1);
      assert calls[d + 1..n] == calls[d + 1..n - 1] + [calls[n - 1]];
    }
  }

  /** A reply with code 0000 on the output queue follows business work of the same delivery that
      succeeded, where the map has the field. */
  lemma {:induction false} SuccessFollowsWork(s: Setup, calls: seq<Call>, k: nat) returns (d: nat, m: Message)
    requires ValidSetup(s) && Lawful(s, calls) && k < |calls| && calls[k].EnQueue? && calls[k].queue == OUTPUT_QUEUE
    ensures d < k && calls[d] == Deliver(m) && forall i :: d < i < k ==> !calls[i].Deliver?
    ensures var t := s.decode(calls[k].payload);
      (exists kind :: && Names(MapOf(s, kind), RESULT_CODE) && AuditsClean(MapOf(s, kind), t) && Answers(s, m, MapOf(s, kind), t)
                      && Get(ReadObject(t).value, RESULT_CODE) == Some(Lit("0000"))) ==>
        Clean(s, m) && Business(true) in calls[d + 1..k]
  {
    hide Clean, Health, Replyable, Lawful, ValidSetup, Current, Since, Hopeless, AuditsClean, Names, Get, ReadObject;
    OutputsAreJustified(s, calls, k);
    m := Current(calls[..k]).value;
    d := SinceIsTail(calls[..k]);
    assert calls[..k][d + 1..] == calls[d + 1..k];
    assert Lit("0000")[0] != Lit("9999")[0];
  }

  lemma {:induction false} ConstantsAreWellFormed()
    ensures forall s <- ["9999", "03", "AUDIT_ERROR", "0000", "01", "SUCCESS", "DELIVERED"] :: WellFormed(Lit(s))
  {
    forall s <- ["9999", "03", "AUDIT_ERROR", "0000", "01", "SUCCESS", "DELIVERED"] ensures WellFormed(Lit(s)) {
      AsciiIsWellFormed(Lit(s));
    }
  }

  lemma {:induction false} CleanIsReplyable(s: Setup, m: Message)
    requires Clean(s, m)
    ensures Replyable(s, m)
  {
  }
}
