/** The socket agent: the input thread answers a request under outputLock, the telecom
    calls back with reports at any time, and the report thread publishes them. Every
    interleaving is a run of this machine. */
module AgentSocket {
  import opened Wrappers
  import opened JsonString
  import opened JsonObject
  import opened TextTools
  import opened FieldMap
  import opened Generator
  import opened MessageCodec
  import opened SocketReplies

  /** Each delivery is a request of its own. */
  type RequestId = nat

  datatype Answer = OK | FULL | FAILED          // FAILED: refused, or the reply was lost

  /** One ENQU on the output queue. */
  datatype Write = Write(kind: ResponseKind, request: RequestId, answer: Answer)

  /** Where the input thread stands. */
  datatype Input =
    | Reading
    | Refusing(r: RequestId)                    // audit failed: about to generate the refusal, no lock held
    | Refused(r: RequestId)                     // generated, about to take outputLock in publish()
    | Entering(r: RequestId)                    // clean: about to take outputLock
    | Submitting(r: RequestId)                  // holds it, about to submit
    | Answering(r: RequestId)                   // submitted, about to generate the ACK
    | AckCheck(r: RequestId)                    // in publish(), about to test `running`
    | AckWrite(r: RequestId)                    // tested true, about to write
    | Leaving                                   // InterruptedException left the loop
    | Ended

  /** Where the report thread stands. */
  datatype Reporter =
    | Polling
    | Waiting(r: RequestId)                     // took a report, wants outputLock
    | ReportCheck(r: RequestId)
    | ReportWrite(r: RequestId)
    | Gone

  datatype Owner = Free | ByInput | ByReporter

  datatype State = State(
    running: bool, owner: Owner, input: Input, reporter: Reporter, reports: seq<RequestId>,
    requests: seq<Entries>,                     // what was delivered, in order
    accepted: map<RequestId, Option<Acceptance>>, // what submitting gave; the telecom may report on these
    threw: set<RequestId>,                      // generating their ACK threw
    sent: seq<Write>)

  /** The maps of the codec, and what the telecom may accept and report for a request. */
  datatype Setup = Setup(
    inputs: map<Text, seq<Field>>, ack: seq<Field>, result: seq<Field>,
    answers: iset<(Entries, Option<Acceptance>)>, deliveries: iset<(Entries, Delivery)>)

  /** Parsed from some text and not quarantined by process(). */
  ghost predicate Replyable(request: Entries) {
    && (exists t :: ReadObject(t) == Ok(request))
    && Get(request, MSG_KIND) in [Some(Lit("S")), Some(Lit("L")), Some(Lit("M"))]
    && Get(request, HISTORY_KEY).Some? && !IsBlank(Get(request, HISTORY_KEY).value)
  }

  /** validate() reports nothing. */
  ghost predicate Clean(c: Setup, request: Entries) {
    && Replyable(request)
    && var kind := Get(request, MSG_KIND).value;
       kind in c.inputs && ObjectErrors(c.inputs[kind], request) == []
  }

  const START := State(true, Free, Reading, Polling, [], [], map[], {}, [])

  datatype Step =
    | Receive(request: Entries)                 // DEQU returned a replyable request
    | Refuse(k: Call)                           // the refusal; if it cannot be made reading goes on
    | TakeLock                                  // input thread enters the synchronized block
    | Submit(a: Option<Acceptance>)             // accepted, refused or failed; it may report later
    | Generate(k: Call)                         // the ACK; if it cannot be made the exception frees the lock
    | CheckAck                                  // publish() tests `running`
    | WriteAck(answer: Answer)
    | Leave                                     // the finally block of run()
    | Stop                                      // stop() by the shutdown hook or another thread
    | Offer(r: RequestId, d: Delivery, k: Call) // onDeliveryReport makes a RESULT and queues it
    | Poll
    | TakeLockForReport
    | CheckReport
    | WriteReport(answer: Answer)
    | ReporterDies                              // interrupted, or an unexpected exception

  ghost predicate Enabled(c: Setup, s: State, a: Step) {
    match a
    case Receive(request) => s.input.Reading? && s.running && Replyable(request)
    case Refuse(k) => s.input.Refusing? && s.input.r < |s.requests| && ValidCall(k)
    case TakeLock => (s.input.Entering? || s.input.Refused?) && s.owner == Free
    case Submit(a) => s.input.Submitting? && s.input.r < |s.requests| && (s.requests[s.input.r], a) in c.answers
    case Generate(k) => s.input.Answering? && s.input.r < |s.requests| && s.input.r in s.accepted && ValidCall(k)
    case CheckAck => s.input.AckCheck?
    case WriteAck(_) => s.input.AckWrite?
    case Leave => s.input.Leaving? || (s.input.Reading? && !s.running)
    case Stop => true
    case Offer(r, d, k) =>
      (&& r in s.accepted && r < |s.requests| && (s.requests[r], d) in c.deliveries
       && ValidCall(k) && ResultMade(c.result, s.requests[r], d, k))
    case Poll => s.reporter.Polling? && s.reports != []
    case TakeLockForReport => s.reporter.Waiting? && s.owner == Free
    case CheckReport => s.reporter.ReportCheck?
    case WriteReport(_) => s.reporter.ReportWrite?
    case ReporterDies => !s.reporter.Gone?
  }

  ghost function Do(c: Setup, s: State, a: Step): State
    requires Enabled(c, s, a)
  {
    match a
    case Receive(request) =>
      s.(requests := s.requests + [request],
         input := if Clean(c, request) then Entering(|s.requests|) else Refusing(|s.requests|))
    case Refuse(k) =>
      s.(input := if RefusalMade(c.ack, s.requests[s.input.r], k) then Refused(s.input.r) else Reading)
    case TakeLock =>
      s.(owner := ByInput, input := if s.input.Entering? then Submitting(s.input.r) else AckCheck(s.input.r))
    case Submit(a) => s.(accepted := s.accepted[s.input.r := a], input := Answering(s.input.r))
    case Generate(k) =>
      if AckMade(c.ack, s.requests[s.input.r], s.accepted[s.input.r], k) then s.(input := AckCheck(s.input.r))
      else s.(owner := Free, input := Reading, threw := s.threw + {s.input.r})
    case CheckAck =>
      if s.running then s.(input := AckWrite(s.input.r)) else s.(owner := Free, input := Leaving)
    case WriteAck(answer) =>
      var t := s.(sent := s.sent + [Write(ACK, s.input.r, answer)]);
      if answer == OK then t.(owner := Free, input := Reading) else t.(input := AckCheck(s.input.r))
    case Leave => s.(running := false, input := Ended)
    case Stop => s.(running := false)
    case Offer(r, _, _) => s.(reports := s.reports + [r])
    case Poll => s.(reports := s.reports[1..], reporter := Waiting(s.reports[0]))
    case TakeLockForReport => s.(owner := ByReporter, reporter := ReportCheck(s.reporter.r))
    case CheckReport =>
      if s.running then s.(reporter := ReportWrite(s.reporter.r)) else s.(owner := Free, reporter := Gone)
    case WriteReport(answer) =>
      var t := s.(sent := s.sent + [Write(RESULT, s.reporter.r, answer)]);
      if answer == OK then t.(owner := Free, reporter := Polling) else t.(reporter := ReportCheck(s.reporter.r))
    case ReporterDies =>
      s.(owner := if s.reporter.ReportCheck? || s.reporter.ReportWrite? then Free else s.owner, reporter := Gone)
  }

  ghost predicate Runs(c: Setup, steps: seq<Step>)
    decreases |steps|, 0
  {
    steps == [] ||
    (Runs(c, steps[..|steps| - 1]) && Enabled(c, After(c, steps[..|steps| - 1]), steps[|steps| - 1]))
  }

  ghost function After(c: Setup, steps: seq<Step>): State
    requires Runs(c, steps)
    decreases |steps|, 1
  {
    if steps == [] then START else Do(c, After(c, steps[..|steps| - 1]), steps[|steps| - 1])
  }

  // ------------------------------------------------------------------
  // The invariant
  // ------------------------------------------------------------------

  predicate Acked(sent: seq<Write>, r: RequestId) {
    exists i :: 0 <= i < |sent| && sent[i] == Write(ACK, r, OK)
  }

  /** The input thread is between submitting `r` and its ACK, inside the lock. */
  predicate InHand(s: State, r: RequestId) {
    s.input in {Answering(r), AckCheck(r), AckWrite(r)}
  }

  predicate LockIsHeld(s: State) {
    && (s.owner == ByInput <==> s.input.Submitting? || s.input.Answering? || s.input.AckCheck? || s.input.AckWrite?)
    && (s.owner == ByReporter <==> s.reporter.ReportCheck? || s.reporter.ReportWrite?)
  }

  /** A submitted request has its ACK, or is in hand, or its ACK failed, or nothing more is sent. */
  predicate Covered(s: State) {
    && (s.input.Leaving? || s.input.Ended? ==> !s.running)
    && forall r <- s.accepted :: Acked(s.sent, r) || InHand(s, r) || r in s.threw || !s.running
  }

  predicate ReportsAreSubmitted(s: State) {
    && (forall i :: 0 <= i < |s.reports| ==> s.reports[i] in s.accepted)
    && (s.reporter.Waiting? || s.reporter.ReportCheck? || s.reporter.ReportWrite? ==> s.reporter.r in s.accepted)
    && (s.reporter.ReportWrite? ==> Acked(s.sent, s.reporter.r) || s.reporter.r in s.threw)
  }

  /** Every write of a RESULT, whatever became of it, follows a confirmed ACK of its request. */
  predicate AckFirst(sent: seq<Write>, except: set<RequestId>) {
    forall j :: 0 <= j < |sent| && sent[j].kind == RESULT ==>
      Acked(sent[..j], sent[j].request) || sent[j].request in except
  }

  /** The telecom accepted this for a clean request, and the codec cannot make the ACK. */
  ghost predicate AckFails(c: Setup, request: Entries, a: Option<Acceptance>) {
    Clean(c, request) && (request, a) in c.answers && exists k :: ValidCall(k) && !AckMade(c.ack, request, a, k)
  }

  /** It may report this, and the codec can make the RESULT. */
  ghost predicate CanReport(c: Setup, request: Entries) {
    exists d, k :: (request, d) in c.deliveries && ValidCall(k) && ResultMade(c.result, request, d, k)
  }

  /** The requests submitted are clean, an ACK threw only where it cannot be made, and a
      report waits only where a RESULT can be made. */
  ghost predicate CodecDecides(c: Setup, s: State) {
    && (s.input.Entering? || s.input.Submitting? ==> s.input.r < |s.requests| && Clean(c, s.requests[s.input.r]))
    && (s.input.Entering? || s.input.Submitting? ==> s.input.r !in s.accepted)
    && (forall r <- s.accepted ::
          r < |s.requests| && Clean(c, s.requests[r]) && (s.requests[r], s.accepted[r]) in c.answers)
    && (forall r <- s.threw :: r in s.accepted && r < |s.requests| && AckFails(c, s.requests[r], s.accepted[r]))
    && (forall i :: 0 <= i < |s.reports| ==> Reportable(c, s, s.reports[i]))
    && (s.reporter.Waiting? || s.reporter.ReportCheck? || s.reporter.ReportWrite? ==> Reportable(c, s, s.reporter.r))
    && (forall i :: 0 <= i < |s.sent| && s.sent[i].kind == RESULT ==> Reportable(c, s, s.sent[i].request))
  }

  ghost predicate Reportable(c: Setup, s: State, r: RequestId) {
    r in s.accepted && r < |s.requests| && CanReport(c, s.requests[r])
  }

  ghost predicate Inv(c: Setup, s: State) {
    LockIsHeld(s) && Covered(s) && ReportsAreSubmitted(s) && AckFirst(s.sent, s.threw) && CodecDecides(c, s)
  }

  lemma {:induction false} AckedSnoc(sent: seq<Write>, w: Write)
    ensures forall r :: Acked(sent + [w], r) <==> Acked(sent, r) || w == Write(ACK, r, OK)
  {
    forall r ensures Acked(sent + [w], r) <==> Acked(sent, r) || w == Write(ACK, r, OK) {
      if Acked(sent, r) {
        var i :| 0 <= i < |sent| && sent[i] == Write(ACK, r, OK);
        assert (sent + [w])[i] == Write(ACK, r, OK);
      }
      assert (sent + [w])[|sent|] == w;
    }
  }

  lemma {:induction false} AckFirstSnoc(sent: seq<Write>, w: Write, except: set<RequestId>)
    requires AckFirst(sent, except) && (w.kind == RESULT ==> Acked(sent, w.request) || w.request in except)
    ensures AckFirst(sent + [w], except)
  {
    hide Acked;
    var all := sent + [w];
    assert all[..|sent|] == sent;
    forall j | 0 <= j < |all| && all[j].kind == RESULT
      ensures Acked(all[..j], all[j].request) || all[j].request in except
    {
      if j < |sent| { assert all[..j] == sent[..j]; }
    }
  }

  lemma {:induction false} ExceptMore(sent: seq<Write>, a: set<RequestId>, b: set<RequestId>)
    requires AckFirst(sent, a) && a <= b
    ensures AckFirst(sent, b)
  {
    hide Acked;
  }

  /** Nothing but a write appends to what was sent. */
  lemma {:induction false} OrderKeptBetweenWrites(c: Setup, s: State, a: Step)
    requires Inv(c, s) && Enabled(c, s, a) && !a.WriteAck? && !a.WriteReport? && !a.Generate?
    ensures var t := Do(c, s, a);
      LockIsHeld(t) && Covered(t) && ReportsAreSubmitted(t) && AckFirst(t.sent, t.threw)
  {
    hide Acked, AckFirst, AckMade, RefusalMade, ResultMade, Clean, Replyable, AckFails, CanReport, ValidCall, Reportable, CodecDecides;
  }

  lemma {:induction false} OrderKeptByWrites(c: Setup, s: State, a: Step)
    requires Inv(c, s) && Enabled(c, s, a) && (a.WriteAck? || a.WriteReport? || a.Generate?)
    ensures var t := Do(c, s, a);
      LockIsHeld(t) && Covered(t) && ReportsAreSubmitted(t) && AckFirst(t.sent, t.threw)
  {
    hide Acked, AckFirst, AckMade, RefusalMade, ResultMade, Clean, Replyable, AckFails, CanReport, ValidCall, Reportable, CodecDecides;
    match a
    case WriteAck(answer) =>
      AckedSnoc(s.sent, Write(ACK, s.input.r, answer));
      AckFirstSnoc(s.sent, Write(ACK, s.input.r, answer), s.threw);
    case WriteReport(answer) =>
      AckedSnoc(s.sent, Write(RESULT, s.reporter.r, answer));
      AckFirstSnoc(s.sent, Write(RESULT, s.reporter.r, answer), s.threw);
    case Generate(k) => ExceptMore(s.sent, s.threw, s.threw + {s.input.r});
  }

  /** Every step keeps the order of writes, the lock and the reports. */
  lemma {:induction false} OrderKeeps(c: Setup, s: State, a: Step)
    requires Inv(c, s) && Enabled(c, s, a)
    ensures var t := Do(c, s, a);
      LockIsHeld(t) && Covered(t) && ReportsAreSubmitted(t) && AckFirst(t.sent, t.threw)
  {
    hide Inv, Enabled, Do, LockIsHeld, Covered, ReportsAreSubmitted, AckFirst;
    if a.WriteAck? || a.WriteReport? || a.Generate? { OrderKeptByWrites(c, s, a); } else { OrderKeptBetweenWrites(c, s, a); }
  }

  lemma {:induction false} MoreRequests(c: Setup, s: State, a: Step)
    requires CodecDecides(c, s) && Enabled(c, s, a) && (a.Receive? || a.Submit?)
    ensures CodecDecides(c, Do(c, s, a))
  {
    hide AckMade, RefusalMade, ResultMade, Clean, Replyable, AckFails, CanReport, ValidCall;
    var t := Do(c, s, a);
    forall r | Reportable(c, s, r) ensures Reportable(c, t, r) {
    }
  }

  lemma {:induction false} InputSteps(c: Setup, s: State, a: Step)
    requires CodecDecides(c, s) && Enabled(c, s, a)
    requires a.Refuse? || a.TakeLock? || a.Generate? || a.CheckAck? || a.WriteAck? || a.Leave? || a.Stop?
    ensures CodecDecides(c, Do(c, s, a))
  {
    hide AckMade, RefusalMade, ResultMade, Clean, Replyable, AckFails, CanReport, ValidCall;
    var t := Do(c, s, a);
    forall r ensures Reportable(c, t, r) <==> Reportable(c, s, r) {
    }
    if a.Generate? { AckFailed(c, s.requests[s.input.r], s.accepted[s.input.r], a.k); }
  }

  lemma {:induction false} OfferStep(c: Setup, s: State, r: RequestId, d: Delivery, k: Call)
    requires CodecDecides(c, s) && Enabled(c, s, Offer(r, d, k))
    ensures CodecDecides(c, Do(c, s, Offer(r, d, k)))
  {
    hide AckMade, RefusalMade, ResultMade, Clean, Replyable, AckFails, CanReport, ValidCall;
    var t := Do(c, s, Offer(r, d, k));
    forall q ensures Reportable(c, t, q) <==> Reportable(c, s, q) {
    }
    CanReportNow(c, s.requests[r], d, k);
  }

  lemma {:induction false} ReportSteps(c: Setup, s: State, a: Step)
    requires CodecDecides(c, s) && Enabled(c, s, a)
    requires a.Poll? || a.TakeLockForReport? || a.CheckReport? || a.WriteReport? || a.ReporterDies?
    ensures CodecDecides(c, Do(c, s, a))
  {
    hide AckMade, RefusalMade, ResultMade, Clean, Replyable, AckFails, CanReport, ValidCall;
    var t := Do(c, s, a);
    forall r ensures Reportable(c, t, r) <==> Reportable(c, s, r) {
    }
  }

  /** Every step leaves the outcome of generating to the codec. */
  lemma {:induction false} CodecKeeps(c: Setup, s: State, a: Step)
    requires CodecDecides(c, s) && Enabled(c, s, a)
    ensures CodecDecides(c, Do(c, s, a))
  {
    hide CodecDecides, Enabled, Do;
    if a.Receive? || a.Submit? {
      MoreRequests(c, s, a);
    } else if a.Refuse? || a.TakeLock? || a.Generate? || a.CheckAck? || a.WriteAck? || a.Leave? || a.Stop? {
      InputSteps(c, s, a);
    } else if a.Offer? {
      OfferStep(c, s, a.r, a.d, a.k);
    } else {
      ReportSteps(c, s, a);
    }
  }

  lemma {:induction false} AckFailed(c: Setup, request: Entries, a: Option<Acceptance>, k: Call)
    requires ValidCall(k)
    ensures Clean(c, request) && (request, a) in c.answers && !AckMade(c.ack, request, a, k) ==> AckFails(c, request, a)
  {
    hide AckMade, Clean, ValidCall;
  }

  lemma {:induction false} CanReportNow(c: Setup, request: Entries, d: Delivery, k: Call)
    requires (request, d) in c.deliveries && ValidCall(k) && ResultMade(c.result, request, d, k)
    ensures CanReport(c, request)
  {
    hide ResultMade, ValidCall;
  }

  /** Every step keeps the invariant. */
  lemma {:induction false} StepKeeps(c: Setup, s: State, a: Step)
    requires Inv(c, s) && Enabled(c, s, a)
    ensures Inv(c, Do(c, s, a))
  {
    hide Do, Enabled, Covered, LockIsHeld, ReportsAreSubmitted, AckFirst, CodecDecides;
    OrderKeeps(c, s, a);
    CodecKeeps(c, s, a);
  }

  lemma {:induction false} RunKeeps(c: Setup, steps: seq<Step>)
    requires Runs(c, steps)
    ensures Inv(c, After(c, steps))
    decreases |steps|
  {
    hide Inv, Do, Enabled;
    if steps == [] {
      StartHolds(c);
    } else {
      var n := |steps| - 1;
      RunKeeps(c, steps[..n]);
      StepKeeps(c, After(c, steps[..n]), steps[n]);
    }
  }

  lemma {:induction false} StartHolds(c: Setup)
    ensures Inv(c, START)
  {
  }

  // ------------------------------------------------------------------
  // The theorem
  // ------------------------------------------------------------------

  /** At every moment of every run a RESULT was written only after the confirmed ACK of its
      request, unless the codec cannot make the ACK of what the telecom accepted for that
      very request. */
  lemma {:induction false} AckBeforeResult(c: Setup, steps: seq<Step>, j: nat)
    requires Runs(c, steps) && j < |After(c, steps).sent| && After(c, steps).sent[j].kind == RESULT
    ensures var s := After(c, steps); var r := s.sent[j].request;
      || Acked(s.sent[..j], r)
      || (r in s.accepted && r < |s.requests| && AckFails(c, s.requests[r], s.accepted[r]) && CanReport(c, s.requests[r]))
  {
    hide Do, Enabled, Acked, Covered, LockIsHeld, AckFails, CanReport;
    RunKeeps(c, steps);
    var s := After(c, steps);
    assert Reportable(c, s, s.sent[j].request);
  }

  /** The order holds in every run exactly when there is no clean request for which the codec
      cannot make the ACK of something the telecom accepts but can make the RESULT of
      something it reports. */
  lemma {:induction false} AckBeforeResultIff(c: Setup)
    ensures (forall steps | Runs(c, steps) :: AckFirst(After(c, steps).sent, {})) <==>
      !exists request, a :: AckFails(c, request, a) && CanReport(c, request)
  {
    hide Do, Enabled, Runs, After, AckFails, CanReport;
    if exists request, a :: AckFails(c, request, a) && CanReport(c, request) {
      var request, a :| AckFails(c, request, a) && CanReport(c, request);
      var steps := ResultWithoutAck(c, request, a);
    } else {
      forall steps | Runs(c, steps) ensures AckFirst(After(c, steps).sent, {}) {
        var s := After(c, steps);
        forall j | 0 <= j < |s.sent| && s.sent[j].kind == RESULT ensures Acked(s.sent[..j], s.sent[j].request) {
          AckBeforeResult(c, steps, j);
        }
      }
    }
  }

  /** A clean request is submitted and the ACK of what was accepted cannot be made. */
  lemma {:induction false} FailedAckRun(c: Setup, request: Entries, a: Option<Acceptance>) returns (steps: seq<Step>)
    requires AckFails(c, request, a)
    ensures Runs(c, steps)
    ensures After(c, steps) == State(true, Free, Reading, Polling, [], [request], map[0 := a], {0}, [])
  {
    hide Clean, Replyable, AckMade, ResultMade, ValidCall, Runs, After;
    CleanIsReplyable(c, request);
    NothingRun(c);
    var k :| ValidCall(k) && !AckMade(c.ack, request, a, k);
    steps := [];
    var s := START;
    steps, s := Play(c, steps, s, Receive(request));
    assert s.requests == [request];
    steps, s := Play(c, steps, s, TakeLock);
    steps, s := Play(c, steps, s, Submit(a));
    steps, s := Play(c, steps, s, Generate(k));
  }

  /** The run that breaks it: the request is submitted, the ACK of what was accepted cannot
      be made, the report arrives and is published. */
  lemma {:induction false} ResultWithoutAck(c: Setup, request: Entries, a: Option<Acceptance>) returns (steps: seq<Step>)
    requires AckFails(c, request, a) && CanReport(c, request)
    ensures Runs(c, steps) && !AckFirst(After(c, steps).sent, {})
  {
    hide AckFirst, Clean, AckFails, AckMade, ResultMade, ValidCall, Runs, After;
    var d, l :| (request, d) in c.deliveries && ValidCall(l) && ResultMade(c.result, request, d, l);
    steps := FailedAckRun(c, request, a);
    var s := After(c, steps);
    steps, s := Play(c, steps, s, Offer(0, d, l));
    steps := ReportRun(c, steps, request, a);
    NoAck(After(c, steps).sent);
  }

  /** The report of a request is published. */
  lemma {:induction false} ReportRun(c: Setup, before: seq<Step>, request: Entries, a: Option<Acceptance>) returns (steps: seq<Step>)
    requires Runs(c, before)
    requires After(c, before) == State(true, Free, Reading, Polling, [0], [request], map[0 := a], {0}, [])
    ensures Runs(c, steps)
    ensures After(c, steps) == State(true, Free, Reading, Polling, [], [request], map[0 := a], {0}, [Write(RESULT, 0, OK)])
  {
    hide Runs, After;
    var s := After(c, before);
    steps, s := Play(c, before, s, Poll);
    steps, s := Play(c, steps, s, TakeLockForReport);
    steps, s := Play(c, steps, s, CheckReport);
    steps, s := Play(c, steps, s, WriteReport(OK));
  }

  lemma {:induction false} NothingRun(c: Setup)
    ensures Runs(c, []) && After(c, []) == START
  {
  }

  lemma {:induction false} CleanIsReplyable(c: Setup, request: Entries)
    requires Clean(c, request)
    ensures Replyable(request)
  {
  }

  lemma {:induction false} Play(c: Setup, steps: seq<Step>, s: State, a: Step) returns (more: seq<Step>, t: State)
    requires Runs(c, steps) && After(c, steps) == s && Enabled(c, s, a)
    ensures Runs(c, more) && After(c, more) == t == Do(c, s, a)
  {
    hide Do, Enabled;
    more, t := steps + [a], Do(c, s, a);
    assert more[..|steps|] == steps;
  }

  lemma {:induction false} NoAck(sent: seq<Write>)
    requires sent == [Write(RESULT, 0, OK)]
    ensures !AckFirst(sent, {})
  {
    assert !Acked(sent[..0], sent[0].request);
  }

  /** With the shipped response maps the order holds in every run exactly when, for each clean
      request that can be answered at all and reported on, everything the telecom accepts has
      no group or 01, 02 or 03, and session fields of at most 32 bytes. */
  lemma {:induction false} ShippedOrderIff(c: Setup)
    requires c.ack == ReplyMap(MessageCodec.ACK) && c.result == ReplyMap(MessageCodec.RESULT)
    ensures (forall steps | Runs(c, steps) :: AckFirst(After(c, steps).sent, {})) <==>
      forall request, a, d | (request, a) in c.answers && (request, d) in c.deliveries ::
        Clean(c, request) && RequestFits(request) && DeliveryFits(d) ==> AcceptanceFits(request, a)
  {
    hide Do, Enabled, Runs, After, AckFirst, Clean, RequestFits, DeliveryFits, AcceptanceFits, AckMade, ResultMade, ReplyMap, ValidCall;
    AckBeforeResultIff(c);
    var k := SomeCall();
    forall request, a | (request, a) in c.answers
      ensures AckFails(c, request, a) <==> Clean(c, request) && !(RequestFits(request) && AcceptanceFits(request, a))
    {
      forall l | ValidCall(l)
        ensures AckMade(c.ack, request, a, l) <==> RequestFits(request) && AcceptanceFits(request, a)
      {
        ShippedAckIff(request, a, l);
      }
    }
    forall request
      ensures CanReport(c, request) <==> RequestFits(request) && exists d :: (request, d) in c.deliveries && DeliveryFits(d)
    {
      forall d, l | ValidCall(l) ensures ResultMade(c.result, request, d, l) <==> RequestFits(request) && DeliveryFits(d) {
        ShippedResultIff(request, d, l);
      }
    }
  }

  /** The answers of the simulated telecom, the only one the repository has. */
  ghost predicate IsSimulated(c: Setup) {
    forall request, a | (request, a) in c.answers ::
      exists n: nat :: 1 <= n <= LONG_MAX && a == Some(SimulatedAcceptance(n))
  }

  /** With the shipped maps and the simulated telecom the order holds in every run. */
  lemma {:induction false} SimulatedTelecomKeepsTheOrder(c: Setup, steps: seq<Step>)
    requires c.ack == ReplyMap(MessageCodec.ACK) && c.result == ReplyMap(MessageCodec.RESULT) && IsSimulated(c)
    requires Runs(c, steps)
    ensures AckFirst(After(c, steps).sent, {})
  {
    hide Runs, After, AckFirst, Clean, RequestFits, DeliveryFits, AcceptanceFits, ReplyMap, SimulatedAcceptance;
    forall request, a | (request, a) in c.answers ensures AcceptanceFits(request, a) {
      var n: nat :| 1 <= n <= LONG_MAX && a == Some(SimulatedAcceptance(n));
      SimulatedFits(request, n);
    }
    ShippedOrderIff(c);
  }

  lemma {:induction false} SomeCall() returns (k: Call)
    ensures ValidCall(k)
  {
    var noon := DateTime(2026, 1, 1, 12, 0, 0);
    k := Call(1, Moment(noon, noon, noon, i => j => 0));
  }

  // ------------------------------------------------------------------
  // A concrete case
  // ------------------------------------------------------------------

  const REQUEST: Entries := [(MSG_KIND, Lit("S")), (HISTORY_KEY, Lit("H1"))]
  const ODD_GROUP := Acceptance(Some(Lit("0000")), Some(Lit("09")), None, None)
  const DELIVERED := Delivery(Lit("0000"), Some(Lit("01")), None, None, None)

  /** The shipped response maps, one request, an acceptance with group 09, a report with group 01. */
  ghost function OddSetup(): Setup {
    Setup(map[Lit("S") := [HISTORY_FIELD, MSG_KIND_FIELD]], ReplyMap(MessageCodec.ACK), ReplyMap(MessageCodec.RESULT),
          iset{(REQUEST, Some(ODD_GROUP))}, iset{(REQUEST, DELIVERED)})
  }

  /** Its report is published and its ACK never: an input that shows the order fail. */
  lemma {:induction false} OddGroupBreaksTheOrder() returns (steps: seq<Step>)
    ensures Runs(OddSetup(), steps) && !AckFirst(After(OddSetup(), steps).sent, {})
  {
    hide Runs, After, AckFirst, AckFails, CanReport, ReplyMap, AcceptanceFits, RequestFits, DeliveryFits, AckMade, ResultMade, ValidCall;
    var c := OddSetup();
    OddRequest();
    OddAnswer();
    var k := SomeCall();
    ShippedAckIff(REQUEST, Some(ODD_GROUP), k);
    AckFailed(c, REQUEST, Some(ODD_GROUP), k);
    ShippedResultIff(REQUEST, DELIVERED, k);
    CanReportNow(c, REQUEST, DELIVERED, k);
    steps := ResultWithoutAck(c, REQUEST, Some(ODD_GROUP));
  }

  lemma {:induction false} OddAnswer()
    ensures !AcceptanceFits(REQUEST, Some(ODD_GROUP)) && DeliveryFits(DELIVERED)
  {
    hide Utf8Length;
    Utf8LengthOfAscii(Lit("0000"));
    assert Lit("09")[1] == 0x39 && Lit("01")[1] == 0x31 && Lit("02")[1] == 0x32 && Lit("03")[1] == 0x33;
    assert !IsWhitespace(Lit("09")[0]) && !IsWhitespace(Lit("01")[0]);
  }

  lemma {:induction false} OddRequest()
    ensures Clean(OddSetup(), REQUEST) && RequestFits(REQUEST)
  {
    hide Utf8Length, ErrorsOf, Get, ReadObject, ObjectErrors, Record, ReplyMap;
    OddLookups();
    OddAudit();
    OddIsParsed();
    Utf8LengthOfAscii(Lit("H1"));
    assert !IsWhitespace(Lit("H1")[0]);
  }

  lemma {:induction false} OddIsParsed()
    ensures ReadObject(Record(REQUEST)) == Ok(REQUEST)
  {
    hide ReadObject, Record, WellFormed;
    assert MSG_KIND[0] == 0x4D && HISTORY_KEY[0] == 0x48;
    AsciiIsWellFormed(MSG_KIND);
    AsciiIsWellFormed(HISTORY_KEY);
    AsciiIsWellFormed(Lit("S"));
    AsciiIsWellFormed(Lit("H1"));
    RecordReadsBackIff(REQUEST);
  }

  lemma {:induction false} OddAudit()
    ensures ObjectErrors([HISTORY_FIELD, MSG_KIND_FIELD], REQUEST) == []
  {
    hide Utf8Length, ErrorsOf, Get;
    OddLookups();
    OddFields();
    var fields := [HISTORY_FIELD, MSG_KIND_FIELD];
    assert fields[..1] == [HISTORY_FIELD] && fields[..1][..0] == [];
    assert ObjectErrors(fields[..1], REQUEST) == [];
  }

  lemma {:induction false} OddFields()
    ensures ErrorsOf(HISTORY_FIELD, Some(Lit("H1"))) == [] && ErrorsOf(MSG_KIND_FIELD, Some(Lit("S"))) == []
  {
    hide Utf8Length, ErrorsOf, Tight;
    Utf8LengthOfAscii(Lit("H1"));
    AnyField(HISTORY_FIELD, Lit("H1"));
    KindsAreTight();
    ItemTaken(MSG_KIND_FIELD, KINDS, Lit("S"));
  }

  lemma {:induction false} OddLookups()
    ensures Get(REQUEST, MSG_KIND) == Some(Lit("S")) && Get(REQUEST, HISTORY_KEY) == Some(Lit("H1"))
    ensures forall key <- [TELECOM_CODE, SERVICE, CUSTOMER] :: Get(REQUEST, key) == None
  {
    assert MSG_KIND[0] == 0x4D && CUSTOMER[0] == 0x43;
    assert REQUEST[..1] == [(MSG_KIND, Lit("S"))] && REQUEST[..1][..0] == [];
  }

  /** At most one ENQU on the output queue is in progress. */
  lemma {:induction false} OneWriterAtATime(c: Setup, steps: seq<Step>)
    requires Runs(c, steps)
    ensures !(After(c, steps).input.AckWrite? && After(c, steps).reporter.ReportWrite?)
  {
    hide Do, Enabled, AckFirst, Covered, Acked, CodecDecides;
    RunKeeps(c, steps);
  }
}
