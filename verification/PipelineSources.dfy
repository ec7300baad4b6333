/** Where the events of the journal come from. */
module PipelineSources {
  import opened Wrappers
  import opened Journal
  import opened StoreProtocol
  import opened Pipeline
  import opened PipelineInvariant
  import opened PipelineTheorems
  import opened PipelineAttempts

  /** The step from which an event may come, with the bytes and the batch it was given. */
  predicate Source(step: Step, e: Event) {
    match e
    case Stage(id, data) => step == Dequeue(id, data)
    case SetState(id, READY) => step == Commit(0, true)
    case SetState(id, PROCESSING) => step == BeginAttempt(id)
    case SetState(id, DONE) => step == FinishPublishing
    case Retry(id, _) => step.WorkThrows? && step.id == id
    case Result(id, r) => step == WorkReturns(id, r) || (step.WorkThrows? && step.id == id && r == [Item(ERROR, step.text)])
    case Published(_, _) => step == EnqueueItem
    case Discard(id) => step == BeginDiscard(id)
    case _ => false
  }

  /** What is in the journal after the step and was not before has this source. */
  ghost predicate Sourced(s: Sys, t: Sys, step: Step) {
    forall e :: e in t.st.log && e !in s.st.log ==> Source(step, e)
  }

  lemma {:induction false} AppendIsSourced(s: Sys, t: Sys, step: Step, e: Event)
    requires t.st.log == s.st.log || (t.st.log == s.st.log + [e] && Source(step, e))
    ensures Sourced(s, t, step)
  {
  }

  lemma {:induction false} ReaderIsSourced(cfg: Config, s: Sys, step: Step)
    requires s.up && Enabled(cfg, s, step)
    requires step.BeginDiscard? || step.FinishStartup? || step.FlushBundle? || step.Dequeue? || step.HealthCheck? || step.Commit?
    ensures Sourced(s, Do(cfg, s, step), step)
  {
    hide Sourced, QueueAll;
    var t := Do(cfg, s, step);
    match step
    case BeginDiscard(id) => AppendIsSourced(s, t, step, Discard(id));
    case Dequeue(id, data) => AppendIsSourced(s, t, step, Stage(id, data));
    case Commit(_, _) => AppendIsSourced(s, t, step, SetState(s.reader.id, READY));
    case _ => AppendIsSourced(s, t, step, Discard(MsgId(0, 0)));
  }

  lemma {:induction false} WorkIsSourced(cfg: Config, s: Sys, step: Step)
    requires s.up && Enabled(cfg, s, step) && (step.BeginAttempt? || step.WorkReturns? || step.WorkThrows?)
    ensures Sourced(s, Do(cfg, s, step), step)
  {
    hide Sourced;
    var t := Do(cfg, s, step);
    match step
    case BeginAttempt(id) => AppendIsSourced(s, t, step, SetState(id, PROCESSING));
    case WorkReturns(id, r) => AppendIsSourced(s, t, step, Result(id, r));
    case WorkThrows(id, text) =>
      AppendIsSourced(s, t, step,
        if s.phase[id].attempt == MAX_RETRIES then Result(id, ErrorResult(text)) else Retry(id, s.st.mem[id].retryCount + 1));
  }

  lemma {:induction false} PublisherIsSourced(cfg: Config, s: Sys, step: Step)
    requires s.up && Enabled(cfg, s, step) && (step.PickResult? || step.EnqueueItem? || step.FinishPublishing?)
    ensures Sourced(s, Do(cfg, s, step), step)
  {
    hide Sourced;
    var t := Do(cfg, s, step);
    match step
    case EnqueueItem => AppendIsSourced(s, t, step, Published(s.publisher.value, s.phase[s.publisher.value].index + 1));
    case FinishPublishing => AppendIsSourced(s, t, step, SetState(s.publisher.value, DONE));
    case PickResult(id) => AppendIsSourced(s, t, step, SetState(id, DONE));
  }

  lemma {:induction false} WokenIsSourced(cfg: Config, s: Sys, step: Step)
    requires s.up && Enabled(cfg, s, step) && (step.AckOp? || step.FailOp? || step.CloseStore? || step.StopRunning?)
    ensures Sourced(s, Do(cfg, s, step), step)
  {
    hide DoAck, DoFailOp;
    if step.AckOp? { AckLeavesJournal(s, step.id); }
    if step.FailOp? { FailureLeavesStore(s, step.id); }
  }

  lemma {:induction false} CutIsSourced(cfg: Config, s: Sys, step: Step)
    requires Enabled(cfg, s, step)
    requires step.JournalWrite? || step.JournalForce? || step.JournalFails? || step.ProcessCrash? || step.PowerLoss? || step.Start?
    ensures Sourced(s, Do(cfg, s, step), step)
  {
    hide Source;
    assert Do(cfg, s, step).st.log <= s.st.log;
  }

  lemma {:induction false} StepIsSourced(cfg: Config, s: Sys, step: Step)
    requires Enabled(cfg, s, step)
    ensures Sourced(s, Do(cfg, s, step), step)
  {
    hide EnabledUp, Do, Sourced;
    if step.BeginDiscard? || step.FinishStartup? || step.FlushBundle? || step.Dequeue? || step.HealthCheck? || step.Commit? {
      ReaderIsSourced(cfg, s, step);
    } else if step.BeginAttempt? || step.WorkReturns? || step.WorkThrows? {
      WorkIsSourced(cfg, s, step);
    } else if step.PickResult? || step.EnqueueItem? || step.FinishPublishing? {
      PublisherIsSourced(cfg, s, step);
    } else if step.AckOp? || step.FailOp? || step.CloseStore? || step.StopRunning? {
      WokenIsSourced(cfg, s, step);
    } else {
      CutIsSourced(cfg, s, step);
    }
  }

  /** A run up to its step `k`. */
  lemma {:induction false} RunsSplit(cfg: Config, s: Sys, steps: seq<Step>, k: nat)
    requires Runs(cfg, s, steps) && k < |steps|
    ensures Runs(cfg, s, steps[..k]) && Enabled(cfg, After(cfg, s, steps[..k]), steps[k])
    ensures Runs(cfg, s, steps[..k + 1])
    ensures After(cfg, s, steps[..k + 1]) == Do(cfg, After(cfg, s, steps[..k]), steps[k])
    decreases k
  {
    hide Do, Enabled;
    if k == 0 {
      assert steps[..1][1..] == [];
      assert Runs(cfg, Do(cfg, s, steps[0]), steps[..1][1..]);
    } else {
      RunsSplit(cfg, Do(cfg, s, steps[0]), steps[1..], k - 1);
      assert steps[..k][1..] == steps[1..][..k - 1];
      assert steps[..k + 1][1..] == steps[1..][..k];
    }
  }

  /** The step with which an event entered the journal that is there now. */
  lemma {:induction false} EntersAt(cfg: Config, steps: seq<Step>, e: Event, n: nat) returns (k: nat)
    requires Runs(cfg, Init(), steps) && n <= |steps| && Runs(cfg, Init(), steps[..n])
    requires e in After(cfg, Init(), steps[..n]).st.log
    ensures k < n && Runs(cfg, Init(), steps[..k]) && Runs(cfg, Init(), steps[..k + 1])
    ensures Enabled(cfg, After(cfg, Init(), steps[..k]), steps[k])
    ensures After(cfg, Init(), steps[..k + 1]) == Do(cfg, After(cfg, Init(), steps[..k]), steps[k])
    ensures e !in After(cfg, Init(), steps[..k]).st.log && e in After(cfg, Init(), steps[..k + 1]).st.log
    decreases n
  {
    hide Do, Enabled;
    assert steps[..0] == [];
    if n > 0 {
      RunsSplit(cfg, Init(), steps, n - 1);
      if e in After(cfg, Init(), steps[..n - 1]).st.log {
        k := EntersAt(cfg, steps, e, n - 1);
      } else {
        k := n - 1;
      }
    }
  }

  /** Nothing in the journal is made up: each event came from the step that may submit it.
      STAGE has the bytes that were dequeued; RESULT the batch that the work returned, or the
      error item of a try that was the fourth to fail since the dispatch. */
  lemma {:induction false} EveryEventHasASource(cfg: Config, steps: seq<Step>, e: Event) returns (k: nat)
    requires Runs(cfg, Init(), steps) && e in After(cfg, Init(), steps).st.log
    ensures k < |steps| && Source(steps[k], e)
    ensures Runs(cfg, Init(), steps[..k]) && Enabled(cfg, After(cfg, Init(), steps[..k]), steps[k])
    ensures e.Result? && steps[k].WorkThrows? ==>
      Failures(Do(cfg, After(cfg, Init(), steps[..k]), steps[k]).hist, e.id) == 4
    ensures e.Retry? ==> Failures(Do(cfg, After(cfg, Init(), steps[..k]), steps[k]).hist, e.id) <= 3
  {
    hide Do, Enabled, Runs, After, Failures, Tries;
    assert steps[..|steps|] == steps;
    k := EntersAt(cfg, steps, e, |steps|);
    var s := After(cfg, Init(), steps[..k]);
    StepIsSourced(cfg, s, steps[k]);
    if steps[k].WorkThrows? {
      if Refuses(s.st) {
        RefusedAppendsNothing(cfg, s, steps[k].id, steps[k].text);
      } else {
        WhatAFailureLeadsTo(cfg, steps[..k], steps[k].id, steps[k].text);
      }
    }
  }

  lemma {:induction false} RefusedAppendsNothing(cfg: Config, s: Sys, id: MsgId, text: Bytes)
    requires Enabled(cfg, s, WorkThrows(id, text)) && Refuses(s.st)
    ensures Do(cfg, s, WorkThrows(id, text)).st == s.st
  {
  }
}
