/** In the socket agent no request goes unanswered and no report is lost or sent twice. */
module AgentSocketAnswers {
  import opened Wrappers
  import opened JsonString
  import opened JsonObject
  import opened MessageCodec
  import opened SocketReplies
  import opened AgentSocket

  /** The request the input thread has in hand. */
  predicate HasInHand(i: Input, r: RequestId) {
    match i
    case Reading => false
    case Leaving => false
    case Ended => false
    case Refusing(q) => q == r
    case Refused(q) => q == r
    case Entering(q) => q == r
    case Submitting(q) => q == r
    case Answering(q) => q == r
    case AckCheck(q) => q == r
    case AckWrite(q) => q == r
  }

  /** The codec cannot make the refusal. */
  ghost predicate RefusalFails(c: Setup, request: Entries) {
    exists k :: ValidCall(k) && !RefusalMade(c.ack, request, k)
  }

  /** The request has its ACK, or is in hand, or its ACK cannot be made, or the agent stops. */
  ghost predicate Settled(c: Setup, s: State, r: RequestId)
    requires r < |s.requests|
  {
    || Acked(s.sent, r) || HasInHand(s.input, r) || r in s.threw || !s.running
    || (!Clean(c, s.requests[r]) && RefusalFails(c, s.requests[r]))
  }

  ghost predicate AllSettled(c: Setup, s: State) {
    && (s.input.Leaving? || s.input.Ended? ==> !s.running)
    && (s.input.Refusing? ==> s.input.r < |s.requests| && !Clean(c, s.requests[s.input.r]))
    && forall r | 0 <= r < |s.requests| :: Settled(c, s, r)
  }

  lemma {:induction false} StepSettles(c: Setup, s: State, a: Step)
    requires AllSettled(c, s) && Enabled(c, s, a)
    ensures AllSettled(c, Do(c, s, a))
  {
    hide Clean, Replyable, AckMade, RefusalMade, ResultMade, ValidCall, Acked, RefusalFails;
    var t := Do(c, s, a);
    if a.WriteAck? { AckedSnoc(s.sent, Write(ACK, s.input.r, a.answer)); }
    if a.WriteReport? { AckedSnoc(s.sent, Write(RESULT, s.reporter.r, a.answer)); }
    if a.Refuse? { RefusalFailed(c, s.requests[s.input.r], a.k); }
    forall r | 0 <= r < |t.requests| ensures Settled(c, t, r) {
      assert r < |s.requests| ==> Settled(c, s, r);
    }
  }

  lemma {:induction false} RefusalFailed(c: Setup, request: Entries, k: Call)
    requires ValidCall(k)
    ensures !RefusalMade(c.ack, request, k) ==> RefusalFails(c, request)
  {
    hide RefusalMade, ValidCall;
  }

  lemma {:induction false} RunSettles(c: Setup, steps: seq<Step>)
    requires Runs(c, steps)
    ensures AllSettled(c, After(c, steps))
    decreases |steps|
  {
    hide Do, Enabled, AllSettled;
    if steps == [] {
      StartIsSettled(c);
    } else {
      var n := |steps| - 1;
      RunSettles(c, steps[..n]);
      StepSettles(c, After(c, steps[..n]), steps[n]);
    }
  }

  lemma {:induction false} StartIsSettled(c: Setup)
    ensures AllSettled(c, START)
  {
  }

  /** While the agent runs, each request delivered to it has a confirmed ACK, or is the one the
      input thread has in hand, or the codec cannot make its ACK. */
  lemma {:induction false} EveryRequestIsAnswered(c: Setup, steps: seq<Step>, r: RequestId)
    requires Runs(c, steps) && After(c, steps).running && r < |After(c, steps).requests|
    ensures var s := After(c, steps);
      || Acked(s.sent, r) || HasInHand(s.input, r)
      || (r in s.accepted && AckFails(c, s.requests[r], s.accepted[r]))
      || (!Clean(c, s.requests[r]) && RefusalFails(c, s.requests[r]))
  {
    hide Runs, After, Acked, AckFails, RefusalFails, Clean, Covered, LockIsHeld, ReportsAreSubmitted, AckFirst;
    RunSettles(c, steps);
    RunKeeps(c, steps);
    assert Settled(c, After(c, steps), r);
  }

  // ------------------------------------------------------------------
  // Reports
  // ------------------------------------------------------------------

  /** How many reports on `r` were made. */
  function Offered(steps: seq<Step>, r: RequestId): nat {
    if steps == [] then 0
    else
      var a := steps[|steps| - 1];
      Offered(steps[..|steps| - 1], r) + if a.Offer? && a.r == r then 1 else 0
  }

  /** How many RESULTs for it the queue has confirmed. */
  function Confirmed(sent: seq<Write>, r: RequestId): nat {
    if sent == [] then 0
    else Confirmed(sent[..|sent| - 1], r) + if sent[|sent| - 1] == Write(RESULT, r, OK) then 1 else 0
  }

  function Queued(reports: seq<RequestId>, r: RequestId): nat {
    if reports == [] then 0 else (if reports[0] == r then 1 else 0) + Queued(reports[1..], r)
  }

  function WithReporter(p: Reporter, r: RequestId): nat {
    match p
    case Polling => 0
    case Gone => 0
    case Waiting(q) => if q == r then 1 else 0
    case ReportCheck(q) => if q == r then 1 else 0
    case ReportWrite(q) => if q == r then 1 else 0
  }

  predicate Balanced(steps: seq<Step>, s: State, r: RequestId) {
    !s.reporter.Gone? ==> Offered(steps, r) == Confirmed(s.sent, r) + WithReporter(s.reporter, r) + Queued(s.reports, r)
  }

  lemma {:induction false} ConfirmedSnoc(sent: seq<Write>, w: Write, r: RequestId)
    ensures Confirmed(sent + [w], r) == Confirmed(sent, r) + if w == Write(RESULT, r, OK) then 1 else 0
  {
    assert (sent + [w])[..|sent|] == sent;
  }

  lemma {:induction false} QueuedSnoc(reports: seq<RequestId>, q: RequestId, r: RequestId)
    ensures Queued(reports + [q], r) == Queued(reports, r) + if q == r then 1 else 0
    decreases |reports|
  {
    if reports == [] {
      assert (reports + [q])[1..] == [];
    } else {
      QueuedSnoc(reports[1..], q, r);
      assert (reports + [q])[1..] == reports[1..] + [q];
    }
  }

  lemma {:induction false} OfferedSnoc(steps: seq<Step>, a: Step, r: RequestId)
    ensures Offered(steps + [a], r) == Offered(steps, r) + if a.Offer? && a.r == r then 1 else 0
  {
    assert (steps + [a])[..|steps|] == steps;
  }

  lemma {:induction false} StepBalances(c: Setup, steps: seq<Step>, s: State, a: Step, r: RequestId)
    requires Balanced(steps, s, r) && Enabled(c, s, a)
    ensures Balanced(steps + [a], Do(c, s, a), r)
  {
    hide Offered, Confirmed, Clean, Replyable, AckMade, RefusalMade, ResultMade, ValidCall;
    OfferedSnoc(steps, a, r);
    match a
    case Offer(q, _, _) => QueuedSnoc(s.reports, q, r);
    case WriteAck(answer) => ConfirmedSnoc(s.sent, Write(ACK, s.input.r, answer), r);
    case WriteReport(answer) => ConfirmedSnoc(s.sent, Write(RESULT, s.reporter.r, answer), r);
    case _ =>
  }

  /** No report is lost and none is sent twice: as long as the report thread lives, for each
      request as many RESULTs are confirmed, in its hands or queued as reports were made. */
  lemma {:induction false} ReportsAreConserved(c: Setup, steps: seq<Step>, r: RequestId)
    requires Runs(c, steps)
    ensures Balanced(steps, After(c, steps), r)
    decreases |steps|
  {
    hide Do, Enabled, Balanced;
    if steps == [] {
      NothingOffered(r);
    } else {
      var n := |steps| - 1;
      ReportsAreConserved(c, steps[..n], r);
      StepBalances(c, steps[..n], After(c, steps[..n]), steps[n], r);
      assert steps == steps[..n] + [steps[n]];
    }
  }

  lemma {:induction false} NothingOffered(r: RequestId)
    ensures Balanced([], START, r)
  {
  }
}
