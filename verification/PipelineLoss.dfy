/** Exactly which messages a start of the process discards. */
module PipelineLoss {
  import opened Wrappers
  import opened Journal
  import opened StoreProtocol
  import opened Pipeline
  import opened History
  import opened PipelineInvariant
  import opened PipelineTheorems

  /** The steps of one life of the process: no crash, no other start. */
  predicate InLife(step: Step) { !step.Start? && !step.ProcessCrash? && !step.PowerLoss? }

  predicate OneLife(steps: seq<Step>) { forall i :: 0 <= i < |steps| ==> InLife(steps[i]) }

  /** `t` has discarded `id` since its history was `h`. */
  predicate DiscardedAfter(h: seq<Obs>, t: Sys, id: MsgId) {
    |h| <= |t.hist| && Discarded(id) in t.hist[|h|..]
  }

  /** In the life that started when the history was `h`: the message is due to be discarded
      exactly if it has been, or still waits for it while startup goes on. */
  predicate Tracks(h: seq<Obs>, t: Sys, id: MsgId, due: bool) {
    && |h| <= |t.hist| && t.up
    && (due <==> DiscardedAfter(h, t, id) || (t.starting && At(t, id, Leftover)))
  }

  /** What a step other than BeginDiscard leaves alone; only FinishStartup ends startup. */
  ghost predicate Spares(s: Sys, step: Step, t: Sys, id: MsgId) {
    && t.up && s.hist <= t.hist && Discarded(id) !in t.hist[|s.hist|..]
    && (t.starting ==> s.starting) && (t.starting != s.starting ==> step.FinishStartup?)
    && (s.starting ==> (At(t, id, Leftover) <==> At(s, id, Leftover)))
  }

  /** A leftover is never in the reader's bundle. */
  lemma {:induction false} LeftoverIsApart(cfg: Config, s: Sys, id: MsgId)
    requires s in Invariant(cfg) && s.up && At(s, id, Leftover)
    ensures id !in s.bundle
  {
    assert MessageOK(s, id);
  }

  lemma {:induction false} StartupSpares(cfg: Config, s: Sys, step: Step, id: MsgId)
    requires s in Invariant(cfg) && s.up && EnabledUp(s, step)
    requires step.FinishStartup? || step.FlushBundle?
    ensures Spares(s, step, Do(cfg, s, step), id)
  {
    hide Invariant;
    if At(s, id, Leftover) { LeftoverIsApart(cfg, s, id); }
  }

  lemma {:induction false} CommitSpares(s: Sys, rc: int, effective: bool, id: MsgId)
    requires s.up && EnabledUp(s, Commit(rc, effective))
    ensures Spares(s, Commit(rc, effective), DoCommit(s, rc, effective), id)
  {
    hide Submit, Refuses;
    var t := DoCommit(s, rc, effective);
    assert t.hist[|s.hist|..] == if effective then [Committed(s.reader.id)] else [];
    assert At(t, id, Leftover) <==> At(s, id, Leftover);
  }

  lemma {:induction false} ReaderSpares(cfg: Config, s: Sys, step: Step, id: MsgId)
    requires s.up && EnabledUp(s, step)
    requires step.Dequeue? || step.HealthCheck? || step.Commit?
    ensures Spares(s, step, Do(cfg, s, step), id)
  {
    hide DoCommit, Submit, Refuses;
    if step.Commit? { CommitSpares(s, step.rc, step.effective, id); }
  }

  lemma {:induction false} ThrowSpares(s: Sys, one: MsgId, text: Bytes, id: MsgId)
    requires s.up && EnabledUp(s, WorkThrows(one, text))
    ensures Spares(s, WorkThrows(one, text), DoWorkThrows(s, one, text), id)
  {
    hide Submit, Refuses;
    var t := DoWorkThrows(s, one, text);
    assert t.hist == s.hist + [Failed(one)];
    assert At(t, id, Leftover) <==> At(s, id, Leftover);
  }

  lemma {:induction false} WorkerSpares(cfg: Config, s: Sys, step: Step, id: MsgId)
    requires s.up && EnabledUp(s, step)
    requires step.BeginAttempt? || step.WorkReturns? || step.WorkThrows?
    ensures Spares(s, step, Do(cfg, s, step), id)
  {
    hide Submit, Refuses, DoWorkThrows;
    if step.WorkThrows? { ThrowSpares(s, step.id, step.text, id); }
  }

  lemma {:induction false} EnqueueSpares(s: Sys, id: MsgId)
    requires s.up && PublisherAt(s)
    ensures Spares(s, EnqueueItem, DoEnqueueItem(s), id)
  {
    hide Submit;
    var t := DoEnqueueItem(s);
    assert t.hist == s.hist + [NextEnqueue(s)] + if Refuses(s.st) then [CheckpointFailed(s.publisher.value)] else [];
    assert At(t, id, Leftover) <==> At(s, id, Leftover);
  }

  lemma {:induction false} PublisherSpares(cfg: Config, s: Sys, step: Step, id: MsgId)
    requires s.up && EnabledUp(s, step)
    requires step.PickResult? || step.EnqueueItem? || step.FinishPublishing?
    ensures Spares(s, step, Do(cfg, s, step), id)
  {
    hide Submit, Refuses, DoEnqueueItem;
    if step.EnqueueItem? { EnqueueSpares(s, id); }
  }

  lemma {:induction false} AckSpares(s: Sys, id: MsgId, woken: MsgId)
    requires s.up && woken in s.phase && Waiting(s.phase[woken]) && woken in s.st.pend && s.st.pend[woken] < |s.st.log|
    ensures Spares(s, AckOp(woken), DoAck(s, woken), id)
  {
    hide Ack;
    var t, e := DoAck(s, woken), s.st.log[s.st.pend[woken]];
    assert t.hist == s.hist +
      match s.phase[woken]
      case Readying => [ReadyAcked(woken)]
      case Starting(_) => [Worked(woken)]
      case Finishing => [ResultAcked(woken, if e.Result? then e.result else [])]
      case _ => [];
    assert At(t, id, Leftover) <==> At(s, id, Leftover);
  }

  lemma {:induction false} FailureSpares(s: Sys, id: MsgId, woken: MsgId)
    requires s.up && woken in s.phase && Waiting(s.phase[woken])
    ensures Spares(s, FailOp(woken), DoFailOp(s, woken), id)
  {
    var t := DoFailOp(s, woken);
    assert |t.hist| <= |s.hist| + 1;
    assert At(t, id, Leftover) <==> At(s, id, Leftover);
  }

  lemma {:induction false} WokenSpares(cfg: Config, s: Sys, step: Step, id: MsgId)
    requires s.up && EnabledUp(s, step) && (step.AckOp? || step.FailOp?)
    ensures Spares(s, step, Do(cfg, s, step), id)
  {
    hide DoAck, DoFailOp, Spares;
    if step.AckOp? { AckSpares(s, id, step.id); } else { FailureSpares(s, id, step.id); }
  }

  lemma {:induction false} StoreSpares(cfg: Config, s: Sys, step: Step, id: MsgId)
    requires s.up && EnabledUp(s, step)
    requires step.JournalWrite? || step.JournalForce? || step.JournalFails? || step.CloseStore? || step.StopRunning?
    ensures Spares(s, step, Do(cfg, s, step), id)
  {
  }

  lemma {:induction false} OthersSpare(cfg: Config, s: Sys, step: Step, id: MsgId)
    requires s in Invariant(cfg) && s.up && EnabledUp(s, step) && InLife(step) && !step.BeginDiscard?
    ensures Spares(s, step, Do(cfg, s, step), id)
  {
    hide Invariant, EnabledUp, Do, Spares;
    if step.FinishStartup? || step.FlushBundle? {
      StartupSpares(cfg, s, step, id);
    } else if step.Dequeue? || step.HealthCheck? || step.Commit? {
      ReaderSpares(cfg, s, step, id);
    } else if step.BeginAttempt? || step.WorkReturns? || step.WorkThrows? {
      WorkerSpares(cfg, s, step, id);
    } else if step.PickResult? || step.EnqueueItem? || step.FinishPublishing? {
      PublisherSpares(cfg, s, step, id);
    } else if step.AckOp? || step.FailOp? {
      WokenSpares(cfg, s, step, id);
    } else {
      StoreSpares(cfg, s, step, id);
    }
  }

  /** Startup ends only when no leftover is waiting. */
  lemma {:induction false} EndsWithoutLeftover(s: Sys, order: seq<MsgId>, id: MsgId)
    requires s.up && EnabledUp(s, FinishStartup(order))
    ensures !At(s, id, Leftover)
  {
  }

  lemma {:induction false} SparedTracks(cfg: Config, h: seq<Obs>, s: Sys, step: Step, id: MsgId, due: bool)
    requires s in Invariant(cfg) && s.up && EnabledUp(s, step) && InLife(step) && !step.BeginDiscard?
    requires Tracks(h, s, id, due)
    ensures Tracks(h, Do(cfg, s, step), id, due)
  {
    hide Invariant, EnabledUp, Do;
    var t := Do(cfg, s, step);
    OthersSpare(cfg, s, step, id);
    assert t.hist[|h|..] == s.hist[|h|..] + t.hist[|s.hist|..];
    if step.FinishStartup? { EndsWithoutLeftover(s, step.order, id); }
  }

  lemma {:induction false} DiscardTracks(cfg: Config, h: seq<Obs>, s: Sys, one: MsgId, id: MsgId, due: bool)
    requires s.up && EnabledUp(s, BeginDiscard(one)) && Tracks(h, s, id, due)
    ensures Tracks(h, Do(cfg, s, BeginDiscard(one)), id, due)
  {
    var t := Do(cfg, s, BeginDiscard(one));
    assert t.hist[|h|..] == s.hist[|h|..] + [Discarded(one)];
  }

  lemma {:induction false} LifeTracks(cfg: Config, h: seq<Obs>, s: Sys, life: seq<Step>, id: MsgId, due: bool)
    requires s in Invariant(cfg) && Tracks(h, s, id, due) && Runs(cfg, s, life) && OneLife(life)
    ensures Tracks(h, After(cfg, s, life), id, due)
    decreases |life|
  {
    hide Invariant, EnabledUp, Do, Tracks;
    if life != [] {
      TracksMeansUp(h, s, id, due);
      StepInv(cfg, s, life[0]);
      StepIsUp(cfg, s, life[0]);
      if life[0].BeginDiscard? {
        DiscardTracks(cfg, h, s, life[0].id, id, due);
      } else {
        SparedTracks(cfg, h, s, life[0], id, due);
      }
      LifeTracks(cfg, h, Do(cfg, s, life[0]), life[1..], id, due);
    }
  }

  lemma {:induction false} TracksMeansUp(h: seq<Obs>, t: Sys, id: MsgId, due: bool)
    requires Tracks(h, t, id, due)
    ensures t.up
  {
  }

  lemma {:induction false} StepIsUp(cfg: Config, s: Sys, step: Step)
    requires s.up && Enabled(cfg, s, step) && InLife(step)
    ensures EnabledUp(s, step)
  {
    hide EnabledUp;
  }

  /** A start finds as leftovers exactly what the journal it reads has as COMMITTING. */
  lemma {:induction false} StartTracks(cfg: Config, s: Sys, id: MsgId)
    requires s in Invariant(cfg) && !s.up
    ensures Tracks(s.hist, DoStart(s), id, IsCommitting(View(s.st.log, id)))
  {
    LegalReplays(s.st.log);
    ReplayIsView(s.st.log);
    assert DoStart(s).hist[|s.hist|..] == [Started];
  }

  lemma {:induction false} StartHappens(cfg: Config, s: Sys)
    requires !s.up
    ensures Enabled(cfg, s, Start) && Do(cfg, s, Start) == DoStart(s)
  {
  }

  /** After every run that left the process down, a start that gets to the end of startup has
      discarded exactly the messages that are COMMITTING in the journal it read, and nothing
      is discarded later in that life. So a committed message is lost if and only if a start
      reads a journal without its READY. */
  lemma {:induction false} DiscardsExactlyTheCommitting(cfg: Config, steps: seq<Step>, life: seq<Step>, id: MsgId)
    requires Runs(cfg, Init(), steps) && !After(cfg, Init(), steps).up
    requires Runs(cfg, DoStart(After(cfg, Init(), steps)), life) && OneLife(life)
    requires !After(cfg, DoStart(After(cfg, Init(), steps)), life).starting
    ensures var s := After(cfg, Init(), steps); var t := After(cfg, DoStart(s), life);
      && Enabled(cfg, s, Start) && Do(cfg, s, Start) == DoStart(s) && |s.hist| <= |t.hist|
      && (Discarded(id) in t.hist[|s.hist|..] <==> IsCommitting(View(s.st.log, id)))
  {
    hide Invariant, Inv, Do, Enabled, DoStart, Runs, After, View;
    var s := After(cfg, Init(), steps);
    InitInv(cfg);
    RunInv(cfg, Init(), steps);
    StartHappens(cfg, s);
    StepInv(cfg, s, Start);
    StartTracks(cfg, s, id);
    LifeTracks(cfg, s.hist, DoStart(s), life, id, IsCommitting(View(s.st.log, id)));
  }
}
