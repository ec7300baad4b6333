/** What holds after every run of the pipeline, with any number of crashes. */
module PipelineTheorems {
  import opened Wrappers
  import opened Journal
  import opened Lifecycle
  import opened StoreProtocol
  import opened Pipeline
  import opened History
  import opened PipelineInvariant
  import opened PipelineJournal
  import opened PipelineSteps
  import opened PipelineAcks
  import opened PipelineGlobal
  import PipelineWitness

  lemma {:induction false} ReaderStepInv(cfg: Config, s: Sys, step: Step)
    requires s in Invariant(cfg) && Enabled(cfg, s, step)
    requires step.Dequeue? || step.HealthCheck? || step.Commit? || step.FlushBundle? || step.FinishStartup? || step.BeginDiscard?
    ensures Do(cfg, s, step) in Invariant(cfg)
  {
    match step
    case BeginDiscard(id) => BeginDiscardInv(cfg, s, id);
    case FinishStartup(order) => FinishStartupInv(cfg, s, order);
    case Dequeue(id, data) => DequeueInv(cfg, s, id, data);
    case HealthCheck(rc) => StopReaderInv(cfg, s);
    case Commit(rc, effective) => CommitInv(cfg, s, rc, effective);
    case FlushBundle => FlushInv(cfg, s);
  }

  lemma {:induction false} WorkStepInv(cfg: Config, s: Sys, step: Step)
    requires s in Invariant(cfg) && Enabled(cfg, s, step)
    requires step.BeginAttempt? || step.WorkReturns? || step.WorkThrows? || step.PickResult? || step.EnqueueItem? || step.FinishPublishing?
    ensures Do(cfg, s, step) in Invariant(cfg)
  {
    match step
    case BeginAttempt(id) => BeginAttemptInv(cfg, s, id);
    case WorkReturns(id, r) => WorkReturnsInv(cfg, s, id, r);
    case WorkThrows(id, text) => WorkThrowsInv(cfg, s, id, text);
    case PickResult(id) => PickResultInv(cfg, s, id);
    case EnqueueItem => EnqueueItemInv(cfg, s);
    case FinishPublishing => FinishPublishingInv(cfg, s);
  }

  lemma {:induction false} WokenStepInv(cfg: Config, s: Sys, step: Step)
    requires s in Invariant(cfg) && Enabled(cfg, s, step) && (step.AckOp? || step.FailOp?)
    ensures Do(cfg, s, step) in Invariant(cfg)
  {
    hide Invariant, EnabledUp, DoAck, DoFailOp;
    match step
    case AckOp(id) => AckOpInv(cfg, s, id);
    case FailOp(id) => FailOpInv(cfg, s, id);
  }

  lemma {:induction false} StoreStepInv(cfg: Config, s: Sys, step: Step)
    requires s in Invariant(cfg) && Enabled(cfg, s, step)
    requires step.JournalWrite? || step.JournalForce? || step.JournalFails? || step.CloseStore? || step.StopRunning?
    ensures Do(cfg, s, step) in Invariant(cfg)
  {
    hide Invariant, EnabledUp, Write, Force, Fail, Close;
    match step
    case JournalWrite => WriteStep(cfg, s);
    case JournalForce => ForceStep(cfg, s);
    case JournalFails => FailStep(cfg, s);
    case CloseStore => CloseStep(cfg, s);
    case StopRunning => StopStep(cfg, s);
  }

  lemma {:induction false} CrashStepInv(cfg: Config, s: Sys, step: Step)
    requires s in Invariant(cfg) && Enabled(cfg, s, step) && (step.Start? || step.ProcessCrash? || step.PowerLoss?)
    ensures Do(cfg, s, step) in Invariant(cfg)
  {
    hide Invariant, EnabledUp, Dead, DoStart;
    match step
    case Start => StartInv(cfg, s);
    case ProcessCrash(torn) => CrashInv(cfg, s, torn);
    case PowerLoss(keep, torn) => PowerLossInv(cfg, s, keep, torn);
  }

  lemma {:induction false} StepInv(cfg: Config, s: Sys, step: Step)
    requires s in Invariant(cfg) && Enabled(cfg, s, step)
    ensures Do(cfg, s, step) in Invariant(cfg)
  {
    hide Do, Enabled, Invariant;
    if step.BeginDiscard? || step.FinishStartup? || step.Dequeue? || step.HealthCheck? || step.Commit? || step.FlushBundle? {
      ReaderStepInv(cfg, s, step);
    } else if step.BeginAttempt? || step.WorkReturns? || step.WorkThrows? || step.PickResult? || step.EnqueueItem?
              || step.FinishPublishing? {
      WorkStepInv(cfg, s, step);
    } else if step.AckOp? || step.FailOp? {
      WokenStepInv(cfg, s, step);
    } else if step.Start? || step.ProcessCrash? || step.PowerLoss? {
      CrashStepInv(cfg, s, step);
    } else {
      StoreStepInv(cfg, s, step);
    }
  }

  lemma {:induction false} InitInv(cfg: Config)
    ensures Init() in Invariant(cfg)
  {
  }

  lemma {:induction false} RunInv(cfg: Config, s: Sys, steps: seq<Step>)
    requires s in Invariant(cfg) && Runs(cfg, s, steps)
    ensures After(cfg, s, steps) in Invariant(cfg)
    decreases |steps|
  {
    if steps != [] {
      StepInv(cfg, s, steps[0]);
      RunInv(cfg, Do(cfg, s, steps[0]), steps[1..]);
    }
  }

  /** Every reachable state satisfies the invariant. */
  lemma {:induction false} ReachableInv(cfg: Config, steps: seq<Step>)
    requires Runs(cfg, Init(), steps)
    ensures Inv(cfg, After(cfg, Init(), steps))
  {
    InitInv(cfg);
    RunInv(cfg, Init(), steps);
  }

  // ------------------------------------------------------------------
  // The journal
  // ------------------------------------------------------------------

  /** Whatever prefix of the file a crash leaves, replaying it never meets an
      unknown message, each message's events spell out one lifecycle, and at most
      one message is COMMITTING. */
  lemma {:induction false} EveryJournalReplays(cfg: Config, steps: seq<Step>, k: nat, id: MsgId, other: MsgId) returns (l: Life)
    requires Runs(cfg, Init(), steps) && k <= |After(cfg, Init(), steps).st.log|
    ensures var log := After(cfg, Init(), steps).st.log[..k];
      && Replay(log).Some?
      && WellFormed(id, l) && Project(log, id) == Render(id, l)
      && Lookup(Replay(log).value, id) == Outcome(l)
      && (IsCommitting(Outcome(l)) && IsCommitting(Lookup(Replay(log).value, other)) ==> id == other)
  {
    ReachableInv(cfg, steps);
    var all := After(cfg, Init(), steps).st.log;
    LegalPrefix(all, k);
    LegalReplays(all[..k]);
    ReplayIsView(all[..k]);
    l := LegalMeansLifecycle(all[..k], id);
    if IsCommitting(View(all[..k], id)) && IsCommitting(View(all[..k], other)) {
      AtMostOneCommitting(all[..k], id, other);
    }
  }

  /** The store's own checks never fail: an event a step submits names a known
      message, and a checkpoint is the next one. */
  lemma {:induction false} SubmittedEventsPassTheGuard(cfg: Config, steps: seq<Step>, step: Step, e: Event)
    requires Runs(cfg, Init(), steps) && Enabled(cfg, After(cfg, Init(), steps), step)
    requires var s := After(cfg, Init(), steps);
      s.up && Do(cfg, s, step).up && Do(cfg, s, step).st == Submit(s.st, e)
    ensures Guard(Lookup(After(cfg, Init(), steps).st.mem, e.id), e)
  {
    var s := After(cfg, Init(), steps);
    ReachableInv(cfg, steps);
    StepInv(cfg, s, step);
    var t := Do(cfg, s, step).st;
    assert t.log[..|s.st.log|] == s.st.log;
    assert PendOK(t, e.id);
    LegalIsGuarded(View(s.st.log, e.id), e);
  }

  /** Memory equals replay wherever no operation is in flight; at the other
      messages, also after a journal failure, it is behind by one event. */
  lemma {:induction false} MemoryFollowsTheJournal(cfg: Config, steps: seq<Step>, id: MsgId)
    requires Runs(cfg, Init(), steps) && After(cfg, Init(), steps).up
    ensures var st := After(cfg, Init(), steps).st;
      && Replay(st.log).Some?
      && (id !in st.pend ==> Lookup(st.mem, id) == Lookup(Replay(st.log).value, id))
      && (id in st.pend ==>
            && st.pend[id] < |st.log| && st.log[st.pend[id]].id == id
            && Lookup(Replay(st.log).value, id) == Apply(Lookup(st.mem, id), st.log[st.pend[id]]))
  {
    ReachableInv(cfg, steps);
    MemoryRefinesReplay(After(cfg, Init(), steps).st, id);
  }

  /** `b` keeps the durable part of `a`. */
  predicate KeepsDurable(a: Store, b: Store) {
    a.durable <= |a.log| && a.durable <= b.durable <= |b.log| && b.log[..a.durable] == a.log[..a.durable]
  }

  lemma {:induction false} AppendKeeps(a: Store, e: Event)
    requires a.durable <= |a.log|
    ensures KeepsDurable(a, Submit(a, e)) && KeepsDurable(a, a)
  {
    assert (a.log + [e])[..a.durable] == a.log[..a.durable];
  }

  lemma {:induction false} ReaderStepKeeps(cfg: Config, s: Sys, step: Step)
    requires s.up && Enabled(cfg, s, step) && s.st.durable <= |s.st.log|
    requires step.BeginDiscard? || step.FinishStartup? || step.FlushBundle? || step.Dequeue? || step.HealthCheck? || step.Commit?
    ensures KeepsDurable(s.st, Do(cfg, s, step).st)
  {
    hide KeepsDurable, Submit;
    match step
    case BeginDiscard(id) => AppendKeeps(s.st, Discard(id));
    case Dequeue(id, data) => AppendKeeps(s.st, Stage(id, data));
    case Commit(_, _) => AppendKeeps(s.st, SetState(s.reader.id, READY));
    case _ => AppendKeeps(s.st, Discard(MsgId(0, 0)));
  }

  lemma {:induction false} WorkStepKeeps(cfg: Config, s: Sys, step: Step)
    requires s.up && Enabled(cfg, s, step) && s.st.durable <= |s.st.log|
    requires step.BeginAttempt? || step.WorkReturns? || step.WorkThrows?
    ensures KeepsDurable(s.st, Do(cfg, s, step).st)
  {
    hide KeepsDurable, Submit;
    match step
    case BeginAttempt(id) => AppendKeeps(s.st, SetState(id, PROCESSING));
    case WorkReturns(id, r) => AppendKeeps(s.st, Result(id, r));
    case WorkThrows(id, text) =>
      AppendKeeps(s.st, Result(id, ErrorResult(text)));
      AppendKeeps(s.st, Retry(id, s.st.mem[id].retryCount + 1));
  }

  lemma {:induction false} PublisherStepKeeps(cfg: Config, s: Sys, step: Step)
    requires s.up && Enabled(cfg, s, step) && s.st.durable <= |s.st.log|
    requires step.PickResult? || step.EnqueueItem? || step.FinishPublishing?
    ensures KeepsDurable(s.st, Do(cfg, s, step).st)
  {
    hide KeepsDurable, Submit;
    match step
    case EnqueueItem => AppendKeeps(s.st, Published(s.publisher.value, s.phase[s.publisher.value].index + 1));
    case FinishPublishing => AppendKeeps(s.st, SetState(s.publisher.value, DONE));
    case PickResult(id) => AppendKeeps(s.st, SetState(id, DONE));
  }

  lemma {:induction false} AckLeavesJournal(s: Sys, id: MsgId)
    requires id in s.phase && id in s.st.pend && s.st.pend[id] < |s.st.log|
    ensures DoAck(s, id).st == Ack(s.st, id)
  {
    hide Ack;
  }

  lemma {:induction false} FailureLeavesStore(s: Sys, id: MsgId)
    requires id in s.phase
    ensures DoFailOp(s, id).st == s.st
  {
  }

  lemma {:induction false} WokenStepKeeps(cfg: Config, s: Sys, step: Step)
    requires s.up && Enabled(cfg, s, step) && s.st.durable <= |s.st.log|
    requires step.AckOp? || step.FailOp? || step.CloseStore? || step.StopRunning?
    ensures KeepsDurable(s.st, Do(cfg, s, step).st)
  {
    hide DoAck, DoFailOp;
    if step.AckOp? { AckLeavesJournal(s, step.id); }
    if step.FailOp? { FailureLeavesStore(s, step.id); }
  }

  /** The journal writer and a crash cut or force, but leave what is forced. */
  lemma {:induction false} WriterStepKeeps(cfg: Config, s: Sys, step: Step)
    requires Enabled(cfg, s, step) && s.st.durable <= s.st.written <= |s.st.log|
    requires step.JournalWrite? || step.JournalForce? || step.JournalFails? || step.ProcessCrash? || step.PowerLoss? || step.Start?
    ensures KeepsDurable(s.st, Do(cfg, s, step).st)
  {
    match step
    case ProcessCrash(_) => assert s.st.log[..s.st.written][..s.st.durable] == s.st.log[..s.st.durable];
    case JournalFails => assert s.st.log[..s.st.written][..s.st.durable] == s.st.log[..s.st.durable];
    case PowerLoss(keep, _) => assert s.st.log[..keep][..s.st.durable] == s.st.log[..s.st.durable];
    case _ =>
  }

  lemma {:induction false} DurableStepStays(cfg: Config, s: Sys, step: Step)
    requires s.st.durable <= s.st.written <= |s.st.log| && Enabled(cfg, s, step)
    ensures KeepsDurable(s.st, Do(cfg, s, step).st)
  {
    hide EnabledUp, Do, KeepsDurable;
    if step.BeginDiscard? || step.FinishStartup? || step.FlushBundle? || step.Dequeue? || step.HealthCheck? || step.Commit? {
      ReaderStepKeeps(cfg, s, step);
    } else if step.BeginAttempt? || step.WorkReturns? || step.WorkThrows? {
      WorkStepKeeps(cfg, s, step);
    } else if step.PickResult? || step.EnqueueItem? || step.FinishPublishing? {
      PublisherStepKeeps(cfg, s, step);
    } else if step.AckOp? || step.FailOp? || step.CloseStore? || step.StopRunning? {
      WokenStepKeeps(cfg, s, step);
    } else {
      WriterStepKeeps(cfg, s, step);
    }
  }

  /** An acknowledged event is below `durable`, and that part of the journal
      survives every later step: crashes, failures, restarts. */
  lemma {:induction false} AcknowledgedEventsSurvive(cfg: Config, s: Sys, steps: seq<Step>)
    requires s in Invariant(cfg) && Runs(cfg, s, steps)
    ensures KeepsDurable(s.st, After(cfg, s, steps).st)
    decreases |steps|
  {
    hide Do, Enabled;
    InvBounds(cfg, s);
    if steps != [] {
      var u := Do(cfg, s, steps[0]);
      StepInv(cfg, s, steps[0]);
      DurableStepStays(cfg, s, steps[0]);
      AcknowledgedEventsSurvive(cfg, u, steps[1..]);
      var t := After(cfg, s, steps).st;
      assert t.log[..s.st.durable] == t.log[..u.st.durable][..s.st.durable];
      assert u.st.log[..s.st.durable] == u.st.log[..u.st.durable][..s.st.durable];
    }
  }

  lemma {:induction false} InvBounds(cfg: Config, s: Sys)
    requires s in Invariant(cfg)
    ensures s.st.durable <= s.st.written <= |s.st.log|
  {
  }

  // ------------------------------------------------------------------
  // Loss
  // ------------------------------------------------------------------

  /** Each XA commit that took effect: either every journal a crash can leave has
      the message, or startup discarded it later, after a restart and without READY
      ever having been acknowledged. */
  lemma {:induction false} CommittedIsLiveOrDiscarded(cfg: Config, steps: seq<Step>, a: nat)
    requires Runs(cfg, Init(), steps)
    requires var h := After(cfg, Init(), steps).hist; a < |h| && h[a].Committed?
    ensures var s := After(cfg, Init(), steps);
      || Secured(s.st.log, s.st.durable, s.hist[a].id, Live)
      || (exists b :: a < b < |s.hist| && s.hist[b] == Discarded(s.hist[a].id)
            && (exists k :: a < k < b && s.hist[k].Started?)
            && ReadyAcked(s.hist[a].id) !in s.hist[..b])
  {
    var s := After(cfg, Init(), steps);
    ReachableInv(cfg, steps);
    if b :| a < b < |s.hist| && s.hist[b] == Discarded(s.hist[a].id) {
      DiscardsAreBounded(s.hist, a, b);
      GoodAt(s.hist, b);
    } else {
      StillCommitted(s.hist, a);
    }
  }

  /** A message whose READY was acknowledged is never lost, whatever crashes follow. */
  lemma {:induction false} ReadyIsNeverLost(cfg: Config, steps: seq<Step>, id: MsgId)
    requires Runs(cfg, Init(), steps) && ReadyAcked(id) in After(cfg, Init(), steps).hist
    ensures var s := After(cfg, Init(), steps); Secured(s.st.log, s.st.durable, id, AtLeastReady)
    ensures var h := After(cfg, Init(), steps).hist;
      forall a, b :: 0 <= a < b < |h| && h[a] == ReadyAcked(id) ==> h[b] != Discarded(id)
  {
    ReachableInv(cfg, steps);
    var h := After(cfg, Init(), steps).hist;
    forall a, b | 0 <= a < b < |h| && h[a] == ReadyAcked(id) ensures h[b] != Discarded(id) {
      if h[b] == Discarded(id) {
        DiscardsAreBounded(h, a, b);
      }
    }
  }

  /** At most one message is discarded per start of the process. */
  lemma {:induction false} AtMostOneLossPerStart(cfg: Config, steps: seq<Step>)
    requires Runs(cfg, Init(), steps)
    ensures Count(After(cfg, Init(), steps).hist, true) <= Count(After(cfg, Init(), steps).hist, false)
  {
    ReachableInv(cfg, steps);
    LossIsBounded(After(cfg, Init(), steps).hist);
  }

  // ------------------------------------------------------------------
  // Dispatch and work
  // ------------------------------------------------------------------

  /** Between two dispatches of a message the process was restarted; in one bundle
      no message occurs twice. */
  lemma {:induction false} UniqueDispatch(cfg: Config, steps: seq<Step>, a: nat, b: nat, id: MsgId)
    requires Runs(cfg, Init(), steps)
    requires var h := After(cfg, Init(), steps).hist;
      a <= b < |h| && h[a].Bundled? && h[b].Bundled? && id in h[a].ids && id in h[b].ids
    ensures var h := After(cfg, Init(), steps).hist;
      if a == b then NoDuplicates(h[a].ids) else exists k :: a < k < b && h[k].Started?
  {
    ReachableInv(cfg, steps);
    var h := After(cfg, Init(), steps).hist;
    if a == b {
      GoodAt(h, a);
    } else {
      DispatchedOncePerStart(h, a, b, id);
    }
  }

  /** No unfinished message is forgotten: once startup is over, each one is with
      the workers or in the reader's bundle; a thread gives one up only when the store
      accepts nothing any more, so that the next start finds it. */
  lemma {:induction false} NothingIsForgotten(cfg: Config, steps: seq<Step>, id: MsgId)
    requires Runs(cfg, Init(), steps)
    requires var s := After(cfg, Init(), steps); s.up && !s.starting && Unfinished(Lookup(s.st.mem, id))
    ensures var s := After(cfg, Init(), steps);
      id in s.bundle || (id in s.phase && Dispatched(s.phase[id]) && (s.phase[id] == Broken ==> Refuses(s.st)))
  {
    ReachableInv(cfg, steps);
    assert MessageOK(After(cfg, Init(), steps), id);
  }

  /** After setResultPending has returned: no more work, and no other result is
      ever published or read back from a journal. */
  lemma {:induction false} ResultNeverChanges(cfg: Config, steps: seq<Step>, a: nat, b: nat)
    requires Runs(cfg, Init(), steps)
    requires var h := After(cfg, Init(), steps).hist; a < b < |h| && h[a].ResultAcked?
    ensures var s := After(cfg, Init(), steps); var id := s.hist[a].id;
      && s.hist[b] != Worked(id)
      && (s.hist[b].Enqueued? && s.hist[b].id == id ==> s.hist[b].r == s.hist[a].r)
      && Secured(s.st.log, s.st.durable, id, ResultIs(s.hist[a].r))
  {
    ReachableInv(cfg, steps);
    var s := After(cfg, Init(), steps);
    ResultIsFinal(s.hist, a, b);
    assert ResultAcked(s.hist[a].id, s.hist[a].r) in s.hist;
  }

  // ------------------------------------------------------------------
  // Publication
  // ------------------------------------------------------------------

  /** At least once, without gaps: an item is enqueued only after all earlier items
      of the same result; extra copies are matched by a restart or a failed checkpoint. */
  lemma {:induction false} PublishedAtLeastOnce(cfg: Config, steps: seq<Step>, b: nat)
    requires Runs(cfg, Init(), steps)
    requires var h := After(cfg, Init(), steps).hist; b < |h| && h[b].Enqueued?
    ensures var h := After(cfg, Init(), steps).hist;
      && h[b].index < |h[b].r|
      && (forall j: nat :: j < h[b].index ==> Enqueued(h[b].id, h[b].r, j) in h[..b])
      && (forall a :: 0 <= a < b && h[a].Enqueued? && h[a].id == h[b].id && h[a].index == h[b].index ==>
            exists k :: a < k < b && (h[k].Started? || h[k] == CheckpointFailed(h[b].id)))
  {
    ReachableInv(cfg, steps);
    var h := After(cfg, Init(), steps).hist;
    GoodAt(h, b);
    forall j: nat | j < h[b].index ensures Enqueued(h[b].id, h[b].r, j) in h[..b] {
      var a := NoGaps(h, b, j);
      assert h[..b][a] == h[a];
    }
    forall a | 0 <= a < b && h[a].Enqueued? && h[a].id == h[b].id && h[a].index == h[b].index
      ensures exists k :: a < k < b && (h[k].Started? || h[k] == CheckpointFailed(h[b].id))
    {
      CopiesAreMatched(h, a, b);
    }
  }

  lemma {:induction false} DoneCounts(log: seq<Event>, id: MsgId)
    requires Legal(log) && View(log, id).Some? && View(log, id).value.state == DONE
    ensures View(log, id).value.result.Some? && View(log, id).value.publishedCount == |View(log, id).value.result.value|
  {
    var before := log[..|log| - 1];
    if log[|log| - 1].id != id { DoneCounts(before, id); }
  }

  /** DONE means every item was enqueued. */
  lemma {:induction false} DoneMeansPublished(cfg: Config, steps: seq<Step>, id: MsgId, j: nat)
    requires Runs(cfg, Init(), steps)
    requires var m := View(After(cfg, Init(), steps).st.log, id); m.Some? && m.value.state == DONE
    ensures var s := After(cfg, Init(), steps); var m := View(s.st.log, id).value;
      m.result.Some? && (j < |m.result.value| ==> Enqueued(id, m.result.value, j) in s.hist)
  {
    ReachableInv(cfg, steps);
    var s := After(cfg, Init(), steps);
    DoneCounts(s.st.log, id);
    if j < |View(s.st.log, id).value.result.value| {
      CountedWereEnqueued(s.st.log, s.hist, id, j);
    }
  }

  /** Publication never goes back if, and only if, a power loss never takes back
      lines a restart has read. */
  lemma {:induction false} PublishedInOrderIff(cfg: Config)
    ensures (forall steps :: Runs(cfg, Init(), steps) ==> InOrder(After(cfg, Init(), steps).hist)) <==> cfg.safeTail
  {
    if cfg.safeTail {
      forall steps | Runs(cfg, Init(), steps) ensures InOrder(After(cfg, Init(), steps).hist) {
        ReachableInv(cfg, steps);
      }
    } else {
      var steps := PipelineWitness.ReorderingIsPossible(cfg);
      assert Runs(cfg, Init(), steps) && !InOrder(After(cfg, Init(), steps).hist);
    }
  }

  /** Every power loss of the run leaves the lines the last restart had read. */
  ghost predicate TailsAreKept(s: Sys, steps: seq<Step>)
    requires Runs(Config(false), s, steps)
    decreases |steps|
  {
    steps == [] ||
    (&& (steps[0].PowerLoss? ==> s.st.recovered <= steps[0].keep)
     && TailsAreKept(Do(Config(false), s, steps[0]), steps[1..]))
  }

  lemma {:induction false} SafeStep(s: Sys, step: Step)
    requires Enabled(Config(false), s, step) && (step.PowerLoss? ==> s.st.recovered <= step.keep)
    ensures Enabled(Config(true), s, step) && Do(Config(true), s, step) == Do(Config(false), s, step)
  {
  }

  lemma {:induction false} SafeRun(s: Sys, steps: seq<Step>)
    requires Runs(Config(false), s, steps) && TailsAreKept(s, steps)
    ensures Runs(Config(true), s, steps) && After(Config(true), s, steps) == After(Config(false), s, steps)
    decreases |steps|
  {
    hide Do, Enabled;
    if steps != [] {
      SafeStep(s, steps[0]);
      SafeRun(Do(Config(false), s, steps[0]), steps[1..]);
    }
  }

  /** Run by run: wherever power losses fail to take back what a restart has read, publication
      never goes back, whatever they could have done. */
  lemma {:induction false} PublishedInOrderPerRun(steps: seq<Step>)
    requires Runs(Config(false), Init(), steps) && TailsAreKept(Init(), steps)
    ensures InOrder(After(Config(false), Init(), steps).hist)
  {
    hide Runs, After, TailsAreKept, Do, Enabled;
    SafeRun(Init(), steps);
    PublishedInOrderIff(Config(true));
  }
}
