/** The language of one message's journal events, written out as a sequence of
    phases, and its equality with the step-by-step legality of Journal. */
module Lifecycle {
  import opened Wrappers
  import opened Journal

  /** One message's whole history:
      (STAGE DISCARD)* STAGE READY (PROCESSING | RETRY)* RESULT PUBLISHED(1..n) DONE,
      or any beginning of it. */
  datatype Life = Life(
    abandoned: seq<Bytes>,      // STAGE DISCARD pairs
    staged: Option<Bytes>,      // the STAGE that was kept
    ready: bool,
    work: seq<Event>,           // PROCESSING and RETRY events
    result: Option<Batch>,
    published: nat,             // PUBLISHED 1, 2, .., published
    done: bool)

  function Abandoned(id: MsgId, datas: seq<Bytes>): seq<Event> {
    if datas == [] then [] else Abandoned(id, datas[..|datas| - 1]) + [Stage(id, datas[|datas| - 1]), Discard(id)]
  }

  function Checkpoints(id: MsgId, n: nat): seq<Event> {
    if n == 0 then [] else Checkpoints(id, n - 1) + [Published(id, n)]
  }

  /** Number of RETRY events in a piece of work. */
  function Retries(work: seq<Event>): nat {
    if work == [] then 0
    else Retries(work[..|work| - 1]) + if work[|work| - 1].Retry? then 1 else 0
  }

  /** PROCESSING events, each followed by at most one RETRY; RETRYs count 1, 2, 3, .. */
  predicate IsWork(id: MsgId, work: seq<Event>) {
    work == [] ||
    var before := work[..|work| - 1];
    var e := work[|work| - 1];
    && IsWork(id, before)
    && (|| e == SetState(id, PROCESSING)
        || (before != [] && before[|before| - 1] == SetState(id, PROCESSING)
            && e == Retry(id, Retries(before) + 1)))
  }

  predicate WellFormed(id: MsgId, l: Life) {
    && (l.ready ==> l.staged.Some?)
    && (l.work != [] ==> l.ready)
    && IsWork(id, l.work)
    && (l.result.Some? ==> l.work != [] && l.work[|l.work| - 1] == SetState(id, PROCESSING))
    && (l.published > 0 ==> l.result.Some? && l.published <= |l.result.value|)
    && (l.done ==> l.result.Some? && l.published == |l.result.value|)
  }

  function Front(id: MsgId, l: Life): seq<Event> {
    Abandoned(id, l.abandoned)
    + (if l.staged.Some? then [Stage(id, l.staged.value)] else [])
    + (if l.ready then [SetState(id, READY)] else [])
  }

  function Back(id: MsgId, l: Life): seq<Event> {
    (if l.result.Some? then [Result(id, l.result.value)] else [])
    + Checkpoints(id, l.published)
    + (if l.done then [SetState(id, DONE)] else [])
  }

  function Render(id: MsgId, l: Life): seq<Event> {
    Front(id, l) + l.work + Back(id, l)
  }

  /** What a history amounts to. */
  function Outcome(l: Life): Option<StoredMessage> {
    if l.staged.None? then None
    else
      var state :=
        if l.done then DONE
        else if l.result.Some? then RESULT_PENDING
        else if l.work != [] then (if l.work[|l.work| - 1].Retry? then RETRY_WAIT else PROCESSING)
        else if l.ready then READY
        else COMMITTING;
      Some(StoredMessage(l.staged.value, state, Retries(l.work), l.result, l.published))
  }

  /** The events of one message. */
  function Project(log: seq<Event>, id: MsgId): seq<Event> {
    if log == [] then []
    else Project(log[..|log| - 1], id) + if log[|log| - 1].id == id then [log[|log| - 1]] else []
  }

  /** A history grows by one legal event. */
  function Extend(l: Life, e: Event): Life {
    match e
    case Stage(_, d) => l.(staged := Some(d))
    case Discard(_) => if l.staged.Some? then l.(staged := None, abandoned := l.abandoned + [l.staged.value]) else l
    case SetState(_, READY) => l.(ready := true)
    case SetState(_, PROCESSING) => l.(work := l.work + [e])
    case Retry(_, _) => l.(work := l.work + [e])
    case Result(_, r) => l.(result := Some(r))
    case Published(_, c) => l.(published := c)
    case SetState(_, DONE) => l.(done := true)
    case _ => l
  }

  lemma {:induction false} ExtendWork(id: MsgId, l: Life, e: Event)
    requires WellFormed(id, l) && l.ready && l.result.None?
    requires e == SetState(id, PROCESSING) || (l.work != [] && l.work[|l.work| - 1] == SetState(id, PROCESSING) && e == Retry(id, Retries(l.work) + 1))
    ensures WellFormed(id, l.(work := l.work + [e]))
    ensures Outcome(l.(work := l.work + [e])) == Apply(Outcome(l), e)
    ensures Render(id, l.(work := l.work + [e])) == Render(id, l) + [e]
  {
    var w := l.work + [e];
    assert w[..|w| - 1] == l.work;
  }

  lemma {:induction false} LastOfWork(id: MsgId, work: seq<Event>)
    requires IsWork(id, work) && work != []
    ensures work[|work| - 1].Retry? || work[|work| - 1] == SetState(id, PROCESSING)
  {
  }

  lemma {:induction false} ExtendFront(id: MsgId, l: Life, e: Event)
    requires WellFormed(id, l) && e.id == id && LegalEvent(Outcome(l), e)
    requires e.Stage? || e.Discard? || e == SetState(id, READY)
    ensures WellFormed(id, Extend(l, e))
    ensures Outcome(Extend(l, e)) == Apply(Outcome(l), e)
    ensures Render(id, Extend(l, e)) == Render(id, l) + [e]
  {
    if e.Discard? {
      var d := l.abandoned + [l.staged.value];
      assert d[..|d| - 1] == l.abandoned;
    }
  }

  lemma {:induction false} ExtendBack(id: MsgId, l: Life, e: Event)
    requires WellFormed(id, l) && e.id == id && LegalEvent(Outcome(l), e)
    requires e.Result? || e.Published? || e == SetState(id, DONE)
    ensures WellFormed(id, Extend(l, e))
    ensures Outcome(Extend(l, e)) == Apply(Outcome(l), e)
    ensures Render(id, Extend(l, e)) == Render(id, l) + [e]
  {
    if l.work != [] {
      LastOfWork(id, l.work);
    }
    var l' := Extend(l, e);
    assert Front(id, l') == Front(id, l) && l'.work == l.work;
    assert Back(id, l') == Back(id, l) + [e];
  }

  lemma {:induction false} ExtendKeeps(id: MsgId, l: Life, e: Event)
    requires WellFormed(id, l) && e.id == id && LegalEvent(Outcome(l), e)
    ensures WellFormed(id, Extend(l, e))
    ensures Outcome(Extend(l, e)) == Apply(Outcome(l), e)
    ensures Render(id, Extend(l, e)) == Render(id, l) + [e]
  {
    if e.Stage? || e.Discard? || e == SetState(id, READY) {
      ExtendFront(id, l, e);
    } else if e.Result? || e.Published? || e == SetState(id, DONE) {
      ExtendBack(id, l, e);
    } else {
      if l.work != [] {
        LastOfWork(id, l.work);
      }
      ExtendWork(id, l, e);
    }
  }

  /** In a legal journal the events of every message spell out one history,
      and replay yields what that history amounts to. */
  lemma {:induction false} LegalMeansLifecycle(log: seq<Event>, id: MsgId) returns (l: Life)
    requires Legal(log)
    ensures WellFormed(id, l)
    ensures Project(log, id) == Render(id, l)
    ensures View(log, id) == Outcome(l)
  {
    if log == [] {
      l := Life([], None, false, [], None, 0, false);
    } else {
      var before := log[..|log| - 1];
      var e := log[|log| - 1];
      l := LegalMeansLifecycle(before, id);
      if e.id == id {
        ExtendKeeps(id, l, e);
        l := Extend(l, e);
      }
    }
  }

  // ------------------------------------------------------------------
  // The converse: every history is legal
  // ------------------------------------------------------------------

  /** Events of one message only, legal one after the other. */
  lemma {:induction false} OwnEventsOnly(log: seq<Event>, id: MsgId, other: MsgId)
    requires forall e :: e in log ==> e.id == id
    requires other != id
    ensures View(log, other) == None
  {
    if log != [] {
      forall e | e in log[..|log| - 1] ensures e.id == id { assert e in log; }
      OwnEventsOnly(log[..|log| - 1], id, other);
    }
  }

  /** The last event of a history, and the history before it. */
  function Shorten(l: Life): Life {
    if l.done then l.(done := false)
    else if l.published > 0 then l.(published := l.published - 1)
    else if l.result.Some? then l.(result := None)
    else if l.work != [] then l.(work := l.work[..|l.work| - 1])
    else if l.ready then l.(ready := false)
    else if l.staged.Some? then l.(staged := None)
    else if l.abandoned != [] then
      l.(abandoned := l.abandoned[..|l.abandoned| - 1], staged := Some(l.abandoned[|l.abandoned| - 1]))
    else l
  }

  function LastEvent(id: MsgId, l: Life): Event {
    if l.done then SetState(id, DONE)
    else if l.published > 0 then Published(id, l.published)
    else if l.result.Some? then Result(id, l.result.value)
    else if l.work != [] then l.work[|l.work| - 1]
    else if l.ready then SetState(id, READY)
    else if l.staged.Some? then Stage(id, l.staged.value)
    else Discard(id)
  }

  function Size(l: Life): nat {
    2 * |l.abandoned| + (if l.staged.Some? then 1 else 0) + (if l.ready then 1 else 0) + |l.work|
    + (if l.result.Some? then 1 else 0) + l.published + (if l.done then 1 else 0)
  }

  lemma {:induction false} ShortenWork(id: MsgId, l: Life)
    requires WellFormed(id, l) && l.work != [] && l.result.None?
    ensures WellFormed(id, Shorten(l))
    ensures LegalEvent(Outcome(Shorten(l)), LastEvent(id, l)) && LastEvent(id, l).id == id
    ensures Extend(Shorten(l), LastEvent(id, l)) == l
    ensures Size(Shorten(l)) == Size(l) - 1
  {
    LastOfWork(id, l.work);
    assert l.work[..|l.work| - 1] + [l.work[|l.work| - 1]] == l.work;
    if |l.work| > 1 {
      LastOfWork(id, l.work[..|l.work| - 1]);
    }
  }

  lemma {:induction false} ShortenStep(id: MsgId, l: Life)
    requires WellFormed(id, l) && Size(l) > 0
    ensures WellFormed(id, Shorten(l))
    ensures LegalEvent(Outcome(Shorten(l)), LastEvent(id, l)) && LastEvent(id, l).id == id
    ensures Extend(Shorten(l), LastEvent(id, l)) == l
    ensures Size(Shorten(l)) == Size(l) - 1
  {
    if l.work != [] {
      LastOfWork(id, l.work);
    }
    if l.work != [] && l.result.None? {
      ShortenWork(id, l);
    } else if l.abandoned != [] {
      assert l.abandoned[..|l.abandoned| - 1] + [l.abandoned[|l.abandoned| - 1]] == l.abandoned;
    }
  }

  lemma {:induction false} EmptyHistory(id: MsgId, l: Life)
    requires Size(l) == 0
    ensures Render(id, l) == [] && Outcome(l) == None
  {
  }

  /** A message may be staged behind the events of itself alone. */
  lemma {:induction false} AloneIsQuiet(log: seq<Event>, id: MsgId)
    requires forall e :: e in log ==> e.id == id
    requires View(log, id) == None
    ensures Quiet(log)
  {
    forall other ensures !IsCommitting(View(log, other)) {
      if other != id { OwnEventsOnly(log, id, other); }
    }
  }

  lemma {:induction false} LifecycleMeansLegal(id: MsgId, l: Life)
    requires WellFormed(id, l)
    ensures Legal(Render(id, l))
    ensures View(Render(id, l), id) == Outcome(l)
    ensures forall e :: e in Render(id, l) ==> e.id == id
    decreases Size(l)
  {
    hide Render, Outcome, WellFormed, Shorten, LastEvent, Extend, Apply, Quiet, Size;
    if Size(l) == 0 {
      EmptyHistory(id, l);
    } else {
      var s := Shorten(l);
      var e := LastEvent(id, l);
      ShortenStep(id, l);
      LifecycleMeansLegal(id, s);
      ExtendKeeps(id, s, e);
      if e.Stage? { AloneIsQuiet(Render(id, s), id); }
      LegalSnoc(Render(id, s), e);
      ViewSnoc(Render(id, s), e, id);
    }
  }

  // ------------------------------------------------------------------
  // An interrupted worker
  // ------------------------------------------------------------------

  /** What a worker leaves that is interrupted while it waits for its RESULT: its handler
      enqueues a RETRY behind it, or on the last attempt the error result. */
  function Interrupted(log: seq<Event>, id: MsgId, r: Batch, handler: Event): seq<Event> {
    log + [Result(id, r)] + [handler]
  }

  predicate FromHandler(m: StoredMessage, id: MsgId, handler: Event) {
    handler == Retry(id, m.retryCount + 1) || (handler.Result? && handler.id == id)
  }

  /** Whatever part of it reaches the file, the journal replays; it keeps to the lifecycle
      exactly if the handler's line is cut off. With that line no history of the language
      accounts for the message's events. Behind a RETRY the message is then unfinished again, so
      that a restart repeats the work although its result is durable; behind a second RESULT it
      is as if the first had never been, and the error is published in its place. */
  lemma {:induction false} InterruptedResultIff(log: seq<Event>, id: MsgId, r: Batch, handler: Event, k: nat)
    requires Legal(log) && View(log, id).Some? && View(log, id).value.state == PROCESSING
    requires FromHandler(View(log, id).value, id, handler)
    requires |log| <= k <= |log| + 2
    ensures var all := Interrupted(log, id, r, handler);
      && Replay(all[..k]).Some?
      && (Legal(all[..k]) <==> k < |log| + 2)
      && forall l :: WellFormed(id, l) ==> Render(id, l) != Project(all, id)
    ensures var m := View(log, id).value; var all := Interrupted(log, id, r, handler);
      if handler.Retry? then
        && View(all, id) ==
           Some(m.(result := Some(r), publishedCount := 0, state := RETRY_WAIT, retryCount := m.retryCount + 1))
        && Unfinished(View(all, id))
      else
        && View(all, id) == Some(m.(result := Some(handler.result), publishedCount := 0, state := RESULT_PENDING))
        && View(all, id) == View(log + [handler], id) && Legal(log + [handler])
  {
    var all := Interrupted(log, id, r, handler);
    var resolved := log + [Result(id, r)];
    ViewSnoc(log, Result(id, r), id);
    ViewSnoc(resolved, handler, id);
    LegalSnoc(log, Result(id, r));
    assert all[..|log| + 2] == all && all[..|log| + 1] == resolved && all[..|log|] == log;
    LegalReplays(resolved);
    ReplayIsView(resolved);
    if handler.Result? {
      ViewSnoc(log, handler, id);
      LegalSnoc(log, handler);
    }
    forall l | WellFormed(id, l) ensures Render(id, l) != Project(all, id) {
      NoHistory(log, id, r, handler, l);
    }
  }

  lemma {:induction false} NoHistory(log: seq<Event>, id: MsgId, r: Batch, handler: Event, l: Life)
    requires WellFormed(id, l) && handler.id == id && (handler.Retry? || handler.Result?)
    ensures Render(id, l) != Project(Interrupted(log, id, r, handler), id)
  {
    hide Render, WellFormed;
    LifecycleMeansLegal(id, l);
    var all := Interrupted(log, id, r, handler);
    var resolved := log + [Result(id, r)];
    assert all[..|all| - 1] == resolved && resolved[..|log|] == log;
    var p := Project(log, id);
    assert Project(all, id) == p + [Result(id, r)] + [handler];
    ViewSnoc(p, Result(id, r), id);
    assert (p + [Result(id, r)] + [handler])[..|p| + 1] == p + [Result(id, r)];
  }
}
