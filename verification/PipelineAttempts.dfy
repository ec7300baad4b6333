/** How often the business work on a message is tried, and what a failure leads to. */
module PipelineAttempts {
  import opened Wrappers
  import opened Journal
  import opened StoreProtocol
  import opened Pipeline
  import opened History
  import opened PipelineInvariant
  import opened PipelineSteps
  import opened PipelineTheorems

  /** How often the work on `id` was called since `id` was last put on bundleQueue. */
  function Tries(h: seq<Obs>, id: MsgId): nat {
    if h == [] then 0
    else
      var o := h[|h| - 1];
      if o.Bundled? && id in o.ids then 0 else Tries(h[..|h| - 1], id) + if o == Worked(id) then 1 else 0
  }

  /** How often it threw since then. */
  function Failures(h: seq<Obs>, id: MsgId): nat {
    if h == [] then 0
    else
      var o := h[|h| - 1];
      if o.Bundled? && id in o.ids then 0 else Failures(h[..|h| - 1], id) + if o == Failed(id) then 1 else 0
  }

  /** At most four tries, each but the last of them failed. */
  predicate FewTries(h: seq<Obs>, id: MsgId) {
    Failures(h, id) <= Tries(h, id) <= Failures(h, id) + 1 && Tries(h, id) <= 4
  }

  /** So it was all the time, and every try came after a dispatch since the last start. */
  predicate Tried(h: seq<Obs>, id: MsgId) {
    && (forall n :: 0 <= n <= |h| ==> FewTries(h[..n], id))
    && (forall n :: 0 <= n < |h| && h[n] == Worked(id) ==> BundledSince(h[..n], id))
  }

  predicate WithWorker(ph: Phase) { ph.Queued? || ph.Starting? || ph.Working? || ph.Retrying? || ph.RetryDue? }

  /** What the worker's own count says of the history. */
  predicate Counted(ph: Phase, h: seq<Obs>, id: MsgId) {
    && (WithWorker(ph) ==> BundledSince(h, id))
    && match ph
       case Queued => Tries(h, id) == Failures(h, id) == 0
       case Starting(a) => Tries(h, id) == Failures(h, id) == a <= 3
       case Working(a) => Tries(h, id) == a + 1 <= 4 && Failures(h, id) == a
       case Retrying(a) => Tries(h, id) == Failures(h, id) == a + 1 <= 3
       case RetryDue(a) => Tries(h, id) == Failures(h, id) == a <= 3
       case _ => true
  }

  ghost predicate AttemptsOK(s: Sys, id: MsgId) {
    Tried(s.hist, id) && (s.up && id in s.phase ==> Counted(s.phase[id], s.hist, id))
  }

  lemma {:induction false} CountSnoc(h: seq<Obs>, o: Obs, id: MsgId)
    ensures Tries(h + [o], id) == if o.Bundled? && id in o.ids then 0 else Tries(h, id) + if o == Worked(id) then 1 else 0
    ensures Failures(h + [o], id) == if o.Bundled? && id in o.ids then 0 else Failures(h, id) + if o == Failed(id) then 1 else 0
  {
    assert (h + [o])[..|h|] == h;
  }

  lemma {:induction false} TriedNow(h: seq<Obs>, id: MsgId)
    requires Tried(h, id)
    ensures FewTries(h, id)
  {
    assert h[..|h|] == h;
  }

  lemma {:induction false} TriedSnoc(h: seq<Obs>, o: Obs, id: MsgId)
    requires Tried(h, id)
    requires o == Worked(id) ==> Tries(h, id) == Failures(h, id) <= 3 && BundledSince(h, id)
    requires o == Failed(id) ==> Tries(h, id) == Failures(h, id) + 1
    ensures Tried(h + [o], id)
  {
    hide Tries, Failures, BundledSince;
    var all := h + [o];
    TriedNow(h, id);
    CountSnoc(h, o, id);
    forall n | 0 <= n <= |all| ensures FewTries(all[..n], id) {
      if n <= |h| { assert all[..n] == h[..n]; } else { assert all[..n] == all; }
    }
    forall n | 0 <= n < |all| && all[n] == Worked(id) ensures BundledSince(all[..n], id) {
      assert all[..n] == h[..n];
    }
  }

  // ------------------------------------------------------------------
  // Each step
  // ------------------------------------------------------------------

  predicate Concerns(o: Obs, id: MsgId) {
    o.Started? || o == Worked(id) || o == Failed(id) || (o.Bundled? && id in o.ids)
  }

  /** The step adds `os` and leaves the attempts on `id` as they were. */
  ghost predicate Calm(s: Sys, t: Sys, os: seq<Obs>, id: MsgId) {
    && t.hist == s.hist + os && (forall o <- os :: !Concerns(o, id))
    && (t.up && id in t.phase ==> !WithWorker(t.phase[id]) || (s.up && id in s.phase && s.phase[id] == t.phase[id]))
  }

  lemma {:induction false} CalmHistory(h: seq<Obs>, os: seq<Obs>, id: MsgId)
    requires Tried(h, id) && forall o <- os :: !Concerns(o, id)
    ensures Tried(h + os, id) && Tries(h + os, id) == Tries(h, id) && Failures(h + os, id) == Failures(h, id)
    ensures BundledSince(h + os, id) == BundledSince(h, id)
    decreases |os|
  {
    hide Tried, Tries, Failures;
    if os == [] {
      assert h + os == h;
    } else {
      var init, o := os[..|os| - 1], os[|os| - 1];
      assert o in os && !Concerns(o, id);
      CalmHistory(h, init, id);
      assert h + os == (h + init) + [o];
      CountSnoc(h + init, o, id);
      TriedSnoc(h + init, o, id);
      SinceSnoc(h + init, o);
    }
  }

  lemma {:induction false} CalmKeeps(s: Sys, t: Sys, os: seq<Obs>, id: MsgId)
    requires AttemptsOK(s, id) && Calm(s, t, os, id)
    ensures AttemptsOK(t, id)
  {
    hide Tried, Tries, Failures, BundledSince;
    CalmHistory(s.hist, os, id);
  }

  lemma {:induction false} ReaderIsCalm(cfg: Config, s: Sys, step: Step, id: MsgId) returns (os: seq<Obs>)
    requires s.up && EnabledUp(s, step)
    requires step.Dequeue? || step.HealthCheck? || step.Commit? || step.BeginDiscard?
    ensures Calm(s, Do(cfg, s, step), os, id)
  {
    hide Submit, Refuses;
    os := if step.BeginDiscard? then [Discarded(step.id)]
          else if step.Commit? && step.effective then [Committed(s.reader.id)] else [];
  }

  lemma {:induction false} PublisherIsCalm(cfg: Config, s: Sys, step: Step, id: MsgId) returns (os: seq<Obs>)
    requires s.up && EnabledUp(s, step) && (step.PickResult? || step.EnqueueItem? || step.FinishPublishing?)
    ensures Calm(s, Do(cfg, s, step), os, id)
  {
    hide Submit;
    os := if !step.EnqueueItem? then []
          else [NextEnqueue(s)] + if Refuses(s.st) then [CheckpointFailed(s.publisher.value)] else [];
  }

  lemma {:induction false} FailureIsCalm(s: Sys, woken: MsgId, id: MsgId) returns (os: seq<Obs>)
    requires s.up && woken in s.phase
    ensures Calm(s, DoFailOp(s, woken), os, id)
  {
    os := if s.phase[woken].Checkpointing? then [CheckpointFailed(woken)] else [];
  }

  lemma {:induction false} StoreIsCalm(cfg: Config, s: Sys, step: Step, id: MsgId) returns (os: seq<Obs>)
    requires Enabled(cfg, s, step)
    requires step.JournalWrite? || step.JournalForce? || step.JournalFails? || step.CloseStore? || step.StopRunning?
             || step.ProcessCrash? || step.PowerLoss?
    requires step.PowerLoss? ==> step.keep <= |s.st.log|
    ensures Calm(s, Do(cfg, s, step), os, id)
  {
    os := if step.ProcessCrash? || step.PowerLoss? then [Halted] else [];
  }

  /** Handing bundles over begins the count anew for their messages. */
  lemma {:induction false} BundlesCount(s: Sys, t: Sys, ids: seq<MsgId>, id: MsgId)
    requires AttemptsOK(s, id) && s.up
    requires t.phase == QueueAll(s.phase, ids) && t.hist == s.hist + [Bundled(ids)]
    ensures AttemptsOK(t, id)
  {
    hide Tried, Tries, Failures, BundledSince;
    CountSnoc(s.hist, Bundled(ids), id);
    TriedSnoc(s.hist, Bundled(ids), id);
    SinceSnoc(s.hist, Bundled(ids));
  }

  lemma {:induction false} StartCounts(s: Sys, id: MsgId)
    requires AttemptsOK(s, id)
    ensures AttemptsOK(DoStart(s), id)
  {
    hide Tried, Tries, Failures, BundledSince;
    TriedSnoc(s.hist, Started, id);
  }

  lemma {:induction false} AttemptCounts(s: Sys, one: MsgId, id: MsgId)
    requires AttemptsOK(s, id) && s.up && EnabledUp(s, BeginAttempt(one))
    ensures AttemptsOK(DoBeginAttempt(s, one), id)
  {
    hide Tried, Tries, Failures, BundledSince, Submit;
  }

  lemma {:induction false} ReturnCounts(cfg: Config, s: Sys, one: MsgId, r: Batch, id: MsgId)
    requires AttemptsOK(s, id) && s.up && EnabledUp(s, WorkReturns(one, r))
    ensures AttemptsOK(Do(cfg, s, WorkReturns(one, r)), id)
  {
    hide Tried, Submit;
    CalmKeeps(s, Do(cfg, s, WorkReturns(one, r)), [], id);
  }

  /** The failure of an attempt is counted, and what the worker goes on with fits it. */
  lemma {:induction false} OwnThrowCounts(s: Sys, id: MsgId, text: Bytes)
    requires AttemptsOK(s, id) && s.up && EnabledUp(s, WorkThrows(id, text))
    ensures AttemptsOK(DoWorkThrows(s, id, text), id)
  {
    hide Tried, Tries, Failures, BundledSince, Submit, Refuses;
    TriedNow(s.hist, id);
    CountSnoc(s.hist, Failed(id), id);
    TriedSnoc(s.hist, Failed(id), id);
    SinceSnoc(s.hist, Failed(id));
  }

  lemma {:induction false} ThrowCounts(s: Sys, one: MsgId, text: Bytes, id: MsgId)
    requires AttemptsOK(s, id) && s.up && EnabledUp(s, WorkThrows(one, text))
    ensures AttemptsOK(DoWorkThrows(s, one, text), id)
  {
    if one == id {
      OwnThrowCounts(s, id, text);
    } else {
      hide Submit, Refuses, AttemptsOK;
      CalmKeeps(s, DoWorkThrows(s, one, text), [Failed(one)], id);
    }
  }

  lemma {:induction false} AckCounts(s: Sys, one: MsgId, id: MsgId)
    requires AttemptsOK(s, id) && s.up && one in s.phase && one in s.st.pend && s.st.pend[one] < |s.st.log|
    ensures AttemptsOK(DoAck(s, one), id)
  {
    hide Tried, Tries, Failures, BundledSince, Ack;
    if one == id && s.phase[one].Starting? {
      CountSnoc(s.hist, Worked(id), id);
      TriedSnoc(s.hist, Worked(id), id);
      SinceSnoc(s.hist, Worked(id));
    } else if !(one == id && s.phase[one].Retrying?) {
      var os := AckIsCalm(s, one, id);
      CalmKeeps(s, DoAck(s, one), os, id);
    }
  }

  lemma {:induction false} AckIsCalm(s: Sys, one: MsgId, id: MsgId) returns (os: seq<Obs>)
    requires s.up && one in s.phase && one in s.st.pend && s.st.pend[one] < |s.st.log|
    requires one == id ==> !s.phase[one].Starting? && !s.phase[one].Retrying?
    ensures Calm(s, DoAck(s, one), os, id)
  {
    hide Ack;
    var e := s.st.log[s.st.pend[one]];
    os := match s.phase[one]
      case Readying => [ReadyAcked(one)]
      case Starting(_) => [Worked(one)]
      case Finishing => [ResultAcked(one, if e.Result? then e.result else [])]
      case _ => [];
  }

  lemma {:induction false} WorkerStepCounts(cfg: Config, s: Sys, step: Step, id: MsgId)
    requires AttemptsOK(s, id) && s.up && Enabled(cfg, s, step)
    requires step.BeginAttempt? || step.WorkReturns? || step.WorkThrows?
    ensures AttemptsOK(Do(cfg, s, step), id)
  {
    hide AttemptsOK, DoBeginAttempt, DoWorkThrows;
    match step
    case BeginAttempt(one) => AttemptCounts(s, one, id);
    case WorkReturns(one, r) => ReturnCounts(cfg, s, one, r, id);
    case WorkThrows(one, text) => ThrowCounts(s, one, text, id);
  }

  lemma {:induction false} StartAndBundleCount(cfg: Config, s: Sys, step: Step, id: MsgId)
    requires AttemptsOK(s, id) && Enabled(cfg, s, step) && (step.Start? || step.FinishStartup? || step.FlushBundle?)
    ensures AttemptsOK(Do(cfg, s, step), id)
  {
    hide AttemptsOK, DoStart, QueueAll;
    match step
    case Start => StartCounts(s, id);
    case FinishStartup(order) => BundlesCount(s, Do(cfg, s, step), order, id);
    case FlushBundle => BundlesCount(s, Do(cfg, s, step), s.bundle, id);
  }

  lemma {:induction false} WokenCounts(cfg: Config, s: Sys, step: Step, id: MsgId)
    requires AttemptsOK(s, id) && s.up && Enabled(cfg, s, step) && (step.AckOp? || step.FailOp?)
    ensures AttemptsOK(Do(cfg, s, step), id)
  {
    hide AttemptsOK, DoAck, DoFailOp, Calm;
    match step
    case AckOp(one) => AckCounts(s, one, id);
    case FailOp(one) =>
      var os := FailureIsCalm(s, one, id);
      CalmKeeps(s, DoFailOp(s, one), os, id);
  }

  lemma {:induction false} StepCounts(cfg: Config, s: Sys, step: Step, id: MsgId)
    requires AttemptsOK(s, id) && Enabled(cfg, s, step) && s.st.written <= |s.st.log|
    ensures AttemptsOK(Do(cfg, s, step), id)
  {
    hide AttemptsOK, Do, Calm;
    var os: seq<Obs>;
    if step.BeginAttempt? || step.WorkReturns? || step.WorkThrows? {
      WorkerStepCounts(cfg, s, step, id);
    } else if step.Start? || step.FinishStartup? || step.FlushBundle? {
      StartAndBundleCount(cfg, s, step, id);
    } else if step.AckOp? || step.FailOp? {
      WokenCounts(cfg, s, step, id);
    } else {
      if step.Dequeue? || step.HealthCheck? || step.Commit? || step.BeginDiscard? {
        os := ReaderIsCalm(cfg, s, step, id);
      } else if step.PickResult? || step.EnqueueItem? || step.FinishPublishing? {
        os := PublisherIsCalm(cfg, s, step, id);
      } else {
        os := StoreIsCalm(cfg, s, step, id);
      }
      CalmKeeps(s, Do(cfg, s, step), os, id);
    }
  }

  lemma {:induction false} RunCounts(cfg: Config, s: Sys, steps: seq<Step>, id: MsgId)
    requires s in Invariant(cfg) && AttemptsOK(s, id) && Runs(cfg, s, steps)
    ensures AttemptsOK(After(cfg, s, steps), id)
    decreases |steps|
  {
    hide AttemptsOK, Do, Enabled, Invariant;
    if steps != [] {
      InvBounds(cfg, s);
      StepInv(cfg, s, steps[0]);
      StepCounts(cfg, s, steps[0], id);
      RunCounts(cfg, Do(cfg, s, steps[0]), steps[1..], id);
    }
  }

  lemma {:induction false} ReachableCounts(cfg: Config, steps: seq<Step>, id: MsgId)
    requires Runs(cfg, Init(), steps)
    ensures AttemptsOK(After(cfg, Init(), steps), id)
  {
    hide Runs, After, Invariant;
    InitInv(cfg);
    RunCounts(cfg, Init(), steps, id);
  }

  // ------------------------------------------------------------------
  // What holds of every run
  // ------------------------------------------------------------------

  lemma {:induction false} DispatchBefore(h: seq<Obs>, id: MsgId) returns (a: nat)
    requires BundledSince(h, id)
    ensures a < |h| && h[a].Bundled? && id in h[a].ids && forall k :: a < k < |h| ==> !h[k].Started?
  {
    var o := h[|h| - 1];
    if o.Bundled? && id in o.ids {
      a := |h| - 1;
    } else {
      a := DispatchBefore(h[..|h| - 1], id);
    }
  }

  /** Business work on a message runs at most four times per dispatch: the k-th time comes
      after the dispatch and exactly k - 1 failures, all without a restart. */
  lemma {:induction false} AtMostFourTries(cfg: Config, steps: seq<Step>, b: nat) returns (a: nat)
    requires Runs(cfg, Init(), steps)
    requires var h := After(cfg, Init(), steps).hist; b < |h| && h[b].Worked?
    ensures var h := After(cfg, Init(), steps).hist; var id := h[b].id;
      && a < b && h[a].Bundled? && id in h[a].ids && (forall k :: a < k < b ==> !h[k].Started?)
      && 1 <= Tries(h[..b + 1], id) <= 4 && Failures(h[..b + 1], id) == Tries(h[..b + 1], id) - 1
  {
    hide Runs, After, BundledSince;
    var h := After(cfg, Init(), steps).hist;
    var id := h[b].id;
    ReachableCounts(cfg, steps, id);
    assert FewTries(h[..b], id) && FewTries(h[..b + 1], id);
    assert h[..b + 1] == h[..b] + [h[b]];
    CountSnoc(h[..b], h[b], id);
    a := DispatchBefore(h[..b], id);
    assert h[..b][a] == h[a];
  }

  lemma {:induction false} RetriesSoFar(cfg: Config, s: Sys, id: MsgId)
    requires s in Invariant(cfg) && s.up && id in s.phase && s.phase[id].Working? && id in s.st.mem && !Refuses(s.st)
    ensures View(s.st.log, id) == Some(s.st.mem[id])
  {
    hide Invariant;
    Opened(cfg, s, id);
    NotPending(s, id);
    CurrentView(s.st, id);
  }

  /** What the failure of a try comes to while the store accepts events. */
  ghost predicate LeadsOn(s: Sys, t: Sys, id: MsgId, text: Bytes) {
    var f := Failures(t.hist, id);
    && 1 <= f <= 4 && f == Tries(t.hist, id) && f == Failures(s.hist, id) + 1
    && View(s.st.log, id).Some?
    && t.st == Submit(s.st, if f <= 3 then Retry(id, View(s.st.log, id).value.retryCount + 1) else Result(id, [Item(ERROR, text)]))
    && (f <= 3 ==> id in t.phase && t.phase[id] == Retrying(f - 1))
  }

  lemma {:induction false} FailureLeadsOn(s: Sys, id: MsgId, text: Bytes)
    requires s.up && EnabledUp(s, WorkThrows(id, text)) && !Refuses(s.st) && AttemptsOK(s, id)
    requires View(s.st.log, id) == Some(s.st.mem[id])
    ensures LeadsOn(s, DoWorkThrows(s, id, text), id, text)
  {
    hide Submit, Tried, BundledSince, Tries, Failures, View;
    CountSnoc(s.hist, Failed(id), id);
  }

  /** A try that fails is counted, and while the store accepts events its number decides: the
      first three failures since the dispatch are followed by a RETRY that counts on, and the
      work is due again; the fourth by the error result. */
  lemma {:induction false} WhatAFailureLeadsTo(cfg: Config, steps: seq<Step>, id: MsgId, text: Bytes)
    requires Runs(cfg, Init(), steps) && Enabled(cfg, After(cfg, Init(), steps), WorkThrows(id, text))
    requires !Refuses(After(cfg, Init(), steps).st)
    ensures var s := After(cfg, Init(), steps); LeadsOn(s, Do(cfg, s, WorkThrows(id, text)), id, text)
  {
    hide Runs, After, Invariant, LeadsOn, AttemptsOK, DoWorkThrows;
    var s := After(cfg, Init(), steps);
    InitInv(cfg);
    RunInv(cfg, Init(), steps);
    ReachableCounts(cfg, steps, id);
    RetriesSoFar(cfg, s, id);
    FailureLeadsOn(s, id, text);
  }

  /** A message that is queued, or due again after a failure, is worked on: its PROCESSING is
      submitted, and once that is durable the business code is called. */
  lemma {:induction false} WorkBegins(cfg: Config, steps: seq<Step>, id: MsgId)
    requires Runs(cfg, Init(), steps)
    requires var s := After(cfg, Init(), steps);
      s.up && !Refuses(s.st) && id in s.phase && (s.phase[id].Queued? || s.phase[id].RetryDue?)
    ensures var s := After(cfg, Init(), steps);
      && Enabled(cfg, s, BeginAttempt(id))
      && var t := Do(cfg, s, BeginAttempt(id));
         t.st == Submit(s.st, SetState(id, PROCESSING)) && t.phase[id] == Starting(Failures(s.hist, id))
  {
    hide Runs, After, Invariant, Submit, Tried, BundledSince;
    var s := After(cfg, Init(), steps);
    InitInv(cfg);
    RunInv(cfg, Init(), steps);
    ReachableCounts(cfg, steps, id);
    Opened(cfg, s, id);
  }
}
