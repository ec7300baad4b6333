/** No message gets stuck: while the agent runs and its journal works, each message can still
    be brought to DONE. */
module PipelineProgress {
  import opened Wrappers
  import opened Journal
  import opened StoreProtocol
  import opened Pipeline
  import opened History
  import opened PipelineInvariant
  import opened PipelineSteps
  import opened PipelineTheorems
  import PipelineWitness

  /** The agent is past startup and running, its reader has not stopped, its store accepts events. */
  ghost predicate Open(cfg: Config, s: Sys) {
    s in Invariant(cfg) && s.up && !s.starting && s.running && !Refuses(s.st) && s.reader != Stopped
  }

  /** Nothing goes wrong: no crash, no failure of the journal, of the work or of a commit, no shutdown. */
  predicate IsSmooth(step: Step) {
    || step.Commit? || step.FlushBundle? || step.BeginAttempt? || step.WorkReturns? || step.PickResult? || step.EnqueueItem?
    || step.FinishPublishing? || step.AckOp? || step.JournalWrite? || step.JournalForce?
  }

  predicate Smooth(steps: seq<Step>) { forall i :: 0 <= i < |steps| ==> IsSmooth(steps[i]) }

  /** `steps` lead smoothly from `s` to `t`. */
  ghost predicate Leads(cfg: Config, s: Sys, steps: seq<Step>, t: Sys) {
    Runs(cfg, s, steps) && After(cfg, s, steps) == t && Smooth(steps)
  }

  lemma {:induction false} Stay(cfg: Config, s: Sys)
    ensures Leads(cfg, s, [], s)
  {
  }

  lemma {:induction false} Then(cfg: Config, s: Sys, steps: seq<Step>, t: Sys, more: seq<Step>, u: Sys)
    requires Leads(cfg, s, steps, t) && Leads(cfg, t, more, u)
    ensures Leads(cfg, s, steps + more, u)
  {
    hide Runs, After;
    PipelineWitness.RunsOn(cfg, s, steps, more);
  }

  lemma {:induction false} One(cfg: Config, s: Sys, step: Step)
    requires Enabled(cfg, s, step) && IsSmooth(step)
    ensures Leads(cfg, s, [step], Do(cfg, s, step))
  {
    hide Do, Enabled;
    assert [step][0] == step && [step][1..] == [];
    PipelineWitness.NoSteps(cfg, Do(cfg, s, step));
  }

  lemma {:induction false} LedInvariant(cfg: Config, s: Sys, steps: seq<Step>, t: Sys)
    requires s in Invariant(cfg) && Leads(cfg, s, steps, t)
    ensures t in Invariant(cfg)
  {
    hide Invariant, Runs, After;
    RunInv(cfg, s, steps);
  }

  // ------------------------------------------------------------------
  // An operation in flight completes
  // ------------------------------------------------------------------

  /** Everything accepted is on the disk. */
  function Flushed(s: Sys): Sys { s.(st := s.st.(written := |s.st.log|, durable := |s.st.log|)) }

  lemma {:induction false} Writes(cfg: Config, s: Sys) returns (steps: seq<Step>)
    requires s.up && !s.st.failed && s.st.written <= |s.st.log|
    ensures Leads(cfg, s, steps, s.(st := s.st.(written := |s.st.log|)))
    decreases |s.st.log| - s.st.written
  {
    hide Leads;
    if s.st.written == |s.st.log| {
      Stay(cfg, s);
      steps := [];
    } else {
      WriteOne(cfg, s);
      var t := s.(st := Write(s.st));
      var rest := Writes(cfg, t);
      Then(cfg, s, [JournalWrite], t, rest, s.(st := s.st.(written := |s.st.log|)));
      steps := [JournalWrite] + rest;
    }
  }

  lemma {:induction false} WriteOne(cfg: Config, s: Sys)
    requires s.up && !s.st.failed && s.st.written < |s.st.log|
    ensures Leads(cfg, s, [JournalWrite], s.(st := Write(s.st)))
  {
    One(cfg, s, JournalWrite);
  }

  lemma {:induction false} ForceOne(cfg: Config, s: Sys)
    requires s.up && !s.st.failed
    ensures Leads(cfg, s, [JournalForce], s.(st := Force(s.st)))
  {
    One(cfg, s, JournalForce);
  }

  lemma {:induction false} WakeOne(cfg: Config, s: Sys, id: MsgId)
    requires s.up && id in s.phase && Waiting(s.phase[id]) && Covered(s.st, id) && s.st.durable <= |s.st.log|
    ensures Leads(cfg, s, [AckOp(id)], DoAck(s, id))
  {
    hide DoAck;
    One(cfg, s, AckOp(id));
  }

  lemma {:induction false} InFlight(cfg: Config, s: Sys, id: MsgId)
    requires Open(cfg, s) && id in s.phase && Waiting(s.phase[id])
    ensures id in s.st.pend && s.st.pend[id] < |s.st.log| && Awaits(s.phase[id], s.st.log[s.st.pend[id]])
    ensures s.st.written <= |s.st.log| && !s.st.failed
  {
    hide Invariant;
    InvBounds(cfg, s);
    Opened(cfg, s, id);
  }

  /** The journal thread writes and forces, and the caller wakes up. */
  lemma {:induction false} Completes(cfg: Config, s: Sys, id: MsgId) returns (steps: seq<Step>)
    requires Open(cfg, s) && id in s.phase && Waiting(s.phase[id])
    ensures id in s.st.pend && s.st.pend[id] < |s.st.log| && Awaits(s.phase[id], s.st.log[s.st.pend[id]])
    ensures Leads(cfg, s, steps, DoAck(Flushed(s), id)) && Open(cfg, DoAck(Flushed(s), id))
  {
    hide Leads, Invariant, Ack;
    InFlight(cfg, s, id);
    var w := s.(st := s.st.(written := |s.st.log|));
    var f := Flushed(s);
    steps := Writes(cfg, s);
    ForceOne(cfg, w);
    Then(cfg, s, steps, w, [JournalForce], f);
    steps := steps + [JournalForce];
    WakeOne(cfg, f, id);
    Then(cfg, s, steps, f, [AckOp(id)], DoAck(f, id));
    steps := steps + [AckOp(id)];
    LedInvariant(cfg, s, steps, DoAck(f, id));
    AckStaysOpen(f, id);
  }

  lemma {:induction false} AckStaysOpen(s: Sys, id: MsgId)
    requires id in s.phase && id in s.st.pend && s.st.pend[id] < |s.st.log|
    ensures var t := DoAck(s, id);
      && t.up == s.up && t.starting == s.starting && t.running == s.running && Refuses(t.st) == Refuses(s.st)
      && (s.reader != Stopped ==> t.reader != Stopped)
  {
    hide Ack, Refuses;
    AckLeavesJournal(s, id);
    AckRefuses(s.st, id);
  }

  lemma {:induction false} AckRefuses(st: Store, id: MsgId)
    requires id in st.pend && st.pend[id] < |st.log|
    ensures Refuses(Ack(st, id)) == Refuses(st)
  {
  }

  // ------------------------------------------------------------------
  // Each phase moves on
  // ------------------------------------------------------------------

  lemma {:induction false} OneStaysOpen(cfg: Config, s: Sys, step: Step)
    requires Open(cfg, s) && Enabled(cfg, s, step) && IsSmooth(step)
    requires var t := Do(cfg, s, step);
      t.up && !t.starting && t.running && !Refuses(t.st) && t.reader != Stopped
    ensures Leads(cfg, s, [step], Do(cfg, s, step)) && Open(cfg, Do(cfg, s, step))
  {
    hide Invariant, Do, Enabled, Leads;
    One(cfg, s, step);
    LedInvariant(cfg, s, [step], Do(cfg, s, step));
  }

  /** The XA commit succeeds and takes effect. */
  lemma {:induction false} Commits(cfg: Config, s: Sys, id: MsgId) returns (t: Sys)
    requires Open(cfg, s) && At(s, id, Staged)
    ensures Leads(cfg, s, [Commit(0, true)], t) && Open(cfg, t) && At(t, id, Readying)
  {
    hide Invariant, Leads;
    Opened(cfg, s, id);
    t := Do(cfg, s, Commit(0, true));
    OneStaysOpen(cfg, s, Commit(0, true));
  }

  lemma {:induction false} Flushes(cfg: Config, s: Sys, id: MsgId) returns (t: Sys)
    requires Open(cfg, s) && At(s, id, Bundling)
    ensures Leads(cfg, s, [FlushBundle], t) && Open(cfg, t) && At(t, id, Queued)
  {
    hide Invariant, Leads;
    Opened(cfg, s, id);
    t := Do(cfg, s, FlushBundle);
    OneStaysOpen(cfg, s, FlushBundle);
  }

  lemma {:induction false} Begins(cfg: Config, s: Sys, id: MsgId) returns (t: Sys)
    requires Open(cfg, s) && id in s.phase && (s.phase[id].Queued? || s.phase[id].RetryDue?)
    ensures Leads(cfg, s, [BeginAttempt(id)], t) && Open(cfg, t) && id in t.phase && t.phase[id].Starting?
  {
    hide Invariant, Leads;
    Opened(cfg, s, id);
    t := Do(cfg, s, BeginAttempt(id));
    OneStaysOpen(cfg, s, BeginAttempt(id));
  }

  lemma {:induction false} Returns(cfg: Config, s: Sys, id: MsgId, r: Batch) returns (t: Sys)
    requires Open(cfg, s) && id in s.phase && s.phase[id].Working?
    ensures Leads(cfg, s, [WorkReturns(id, r)], t) && Open(cfg, t) && At(t, id, Finishing)
  {
    hide Invariant, Leads;
    t := Do(cfg, s, WorkReturns(id, r));
    OneStaysOpen(cfg, s, WorkReturns(id, r));
  }

  /** The steps a message has before it until its result is durable. */
  function Ahead(ph: Phase): nat {
    match ph
    case Staging => 9
    case Staged => 8
    case Readying => 7
    case Bundling => 6
    case Retrying(_) => 6
    case Queued => 5
    case RetryDue(_) => 5
    case Starting(_) => 4
    case Working(_) => 3
    case Finishing => 2
    case _ => 0
  }

  lemma {:induction false} AckMovesOn(s: Sys, id: MsgId)
    requires id in s.phase && id in s.st.pend && s.st.pend[id] < |s.st.log| && Ahead(s.phase[id]) > 0 && Waiting(s.phase[id])
    ensures var t := DoAck(s, id);
      id in t.phase && Ahead(t.phase[id]) < Ahead(s.phase[id]) && (Ahead(t.phase[id]) == 0 ==> t.phase[id] == Resolved)
  {
    hide Ack, Observe;
  }

  /** One more step of the reader or of a worker. */
  lemma {:induction false} MovesOn(cfg: Config, s: Sys, id: MsgId, r: Batch) returns (steps: seq<Step>, t: Sys)
    requires Open(cfg, s) && id in s.phase && Ahead(s.phase[id]) > 0
    ensures Leads(cfg, s, steps, t) && Open(cfg, t) && id in t.phase && Ahead(t.phase[id]) < Ahead(s.phase[id])
    ensures Ahead(t.phase[id]) == 0 ==> t.phase[id] == Resolved
  {
    hide Leads, Open, DoAck;
    if Waiting(s.phase[id]) {
      steps := Completes(cfg, s, id);
      t := DoAck(Flushed(s), id);
      AckMovesOn(Flushed(s), id);
    } else if s.phase[id].Staged? {
      t := Commits(cfg, s, id);
      steps := [Commit(0, true)];
    } else if s.phase[id].Bundling? {
      t := Flushes(cfg, s, id);
      steps := [FlushBundle];
    } else if s.phase[id].Working? {
      t := Returns(cfg, s, id, r);
      steps := [WorkReturns(id, r)];
    } else {
      t := Begins(cfg, s, id);
      steps := [BeginAttempt(id)];
    }
  }

  lemma {:induction false} Resolves(cfg: Config, s: Sys, id: MsgId, r: Batch) returns (steps: seq<Step>, t: Sys)
    requires Open(cfg, s) && id in s.phase && (Ahead(s.phase[id]) > 0 || s.phase[id] == Resolved)
    ensures Leads(cfg, s, steps, t) && Open(cfg, t) && At(t, id, Resolved)
    decreases Ahead(s.phase[id])
  {
    hide Leads, Open;
    if Ahead(s.phase[id]) == 0 {
      Stay(cfg, s);
      steps, t := [], s;
    } else {
      var first, u := MovesOn(cfg, s, id, r);
      var rest;
      rest, t := Resolves(cfg, u, id, r);
      Then(cfg, s, first, u, rest, t);
      steps := first + rest;
    }
  }

  // ------------------------------------------------------------------
  // The publisher
  // ------------------------------------------------------------------

  /** The publisher's message, and what it still has to do with it. */
  predicate Publishes(s: Sys, p: MsgId) {
    && s.publisher == Some(p) && p in s.phase && WithPublisher(s.phase[p])
    && p in s.st.mem && s.st.mem[p].result.Some? && Fits(s.phase[p], Some(s.st.mem[p]))
  }

  function Left(s: Sys, p: MsgId): nat
    requires Publishes(s, p)
  {
    match s.phase[p]
    case Publishing(i) => 2 * (|s.st.mem[p].result.value| - i) + 2
    case Checkpointing(i) => 2 * (|s.st.mem[p].result.value| - i) + 1
    case _ => 1
  }

  lemma {:induction false} PublisherHolds(cfg: Config, s: Sys, p: MsgId)
    requires Open(cfg, s) && s.publisher == Some(p)
    ensures Publishes(s, p)
  {
    hide Invariant;
    Opened(cfg, s, p);
  }

  ghost predicate SameBut(s: Sys, t: Sys, p: MsgId) { forall o :: o != p ==> PhaseOf(t, o) == PhaseOf(s, o) }

  lemma {:induction false} Checkpoints(cfg: Config, s: Sys, p: MsgId) returns (steps: seq<Step>, t: Sys)
    requires Open(cfg, s) && Publishes(s, p) && Waiting(s.phase[p])
    ensures Leads(cfg, s, steps, t) && Open(cfg, t) && SameBut(s, t, p)
    ensures if s.phase[p].Closing? then t.publisher == None && At(t, p, Finished) && t.st.durable == |t.st.log|
            else Publishes(t, p) && Left(t, p) < Left(s, p)
  {
    hide Leads, Open, Invariant;
    steps := Completes(cfg, s, p);
    t := DoAck(Flushed(s), p);
    if !s.phase[p].Closing? { PublisherHolds(cfg, t, p); }
  }

  lemma {:induction false} EnqueuesOrCloses(cfg: Config, s: Sys, p: MsgId) returns (steps: seq<Step>, t: Sys)
    requires Open(cfg, s) && Publishes(s, p) && s.phase[p].Publishing?
    ensures Leads(cfg, s, steps, t) && Open(cfg, t) && SameBut(s, t, p) && Publishes(t, p) && Left(t, p) < Left(s, p)
  {
    hide Leads, Invariant;
    var step := if s.phase[p].index < |s.st.mem[p].result.value| then EnqueueItem else FinishPublishing;
    steps, t := [step], Do(cfg, s, step);
    OneStaysOpen(cfg, s, step);
  }

  /** The publisher gets its message to DONE. */
  lemma {:induction false} PublishesAll(cfg: Config, s: Sys, p: MsgId) returns (steps: seq<Step>, t: Sys)
    requires Open(cfg, s) && Publishes(s, p)
    ensures Leads(cfg, s, steps, t) && Open(cfg, t) && SameBut(s, t, p)
    ensures t.publisher == None && At(t, p, Finished) && t.st.durable == |t.st.log|
    decreases Left(s, p)
  {
    hide Leads, Open, Left, Fits;
    var u;
    if s.phase[p].Closing? {
      steps, t := Checkpoints(cfg, s, p);
    } else {
      if s.phase[p].Publishing? {
        steps, u := EnqueuesOrCloses(cfg, s, p);
      } else {
        steps, u := Checkpoints(cfg, s, p);
      }
      var rest;
      rest, t := PublishesAll(cfg, u, p);
      Then(cfg, s, steps, u, rest, t);
      steps := steps + rest;
    }
  }

  lemma {:induction false} Picks(cfg: Config, s: Sys, id: MsgId) returns (t: Sys)
    requires Open(cfg, s) && At(s, id, Resolved) && s.publisher == None
    ensures Leads(cfg, s, [PickResult(id)], t) && Open(cfg, t) && t.publisher == Some(id)
  {
    hide Invariant, Leads;
    Opened(cfg, s, id);
    t := Do(cfg, s, PickResult(id));
    OneStaysOpen(cfg, s, PickResult(id));
  }

  /** A resolved message is published, after the one the publisher may have in hand. */
  lemma {:induction false} Finishes(cfg: Config, s: Sys, id: MsgId) returns (steps: seq<Step>, t: Sys)
    requires Open(cfg, s) && At(s, id, Resolved)
    ensures Leads(cfg, s, steps, t) && Open(cfg, t) && At(t, id, Finished) && t.st.durable == |t.st.log|
  {
    hide Leads, Open;
    var u := s;
    steps := [];
    Stay(cfg, s);
    if s.publisher.Some? {
      NotInHand(cfg, s, id);
      PublisherHolds(cfg, s, s.publisher.value);
      steps, u := PublishesAll(cfg, s, s.publisher.value);
      assert PhaseOf(u, id) == PhaseOf(s, id);
    }
    var v := Picks(cfg, u, id);
    Then(cfg, s, steps, u, [PickResult(id)], v);
    steps := steps + [PickResult(id)];
    PublisherHolds(cfg, v, id);
    var rest;
    rest, t := PublishesAll(cfg, v, id);
    Then(cfg, s, steps, v, rest, t);
    steps := steps + rest;
  }

  lemma {:induction false} NotInHand(cfg: Config, s: Sys, id: MsgId)
    requires Open(cfg, s) && At(s, id, Resolved)
    ensures s.publisher != Some(id)
  {
    hide Invariant;
    Opened(cfg, s, id);
  }

  // ------------------------------------------------------------------
  // The theorem
  // ------------------------------------------------------------------

  lemma {:induction false} FinishedIsDone(cfg: Config, s: Sys, id: MsgId)
    requires Open(cfg, s) && At(s, id, Finished)
    ensures View(s.st.log, id).Some? && View(s.st.log, id).value.state == DONE
  {
    hide Invariant;
    Opened(cfg, s, id);
    CurrentView(s.st, id);
  }

  lemma {:induction false} PhaseIsKnown(cfg: Config, s: Sys, id: MsgId)
    requires Open(cfg, s) && id in s.phase
    ensures Ahead(s.phase[id]) > 0 || s.phase[id] == Resolved || s.publisher == Some(id) || s.phase[id] == Finished
  {
    hide Invariant;
    Opened(cfg, s, id);
  }

  /** After any run, with any number of crashes behind it: while the agent runs, its reader has
      not stopped and its store accepts events, each message it holds can be brought to DONE,
      durably, by steps in which nothing goes wrong, whatever the work returns. So no message
      is ever stuck. */
  lemma {:induction false} EveryMessageCanFinish(cfg: Config, steps: seq<Step>, id: MsgId, r: Batch) returns (more: seq<Step>, t: Sys)
    requires Runs(cfg, Init(), steps)
    requires var s := After(cfg, Init(), steps);
      s.up && !s.starting && s.running && !Refuses(s.st) && s.reader != Stopped && id in s.phase
    ensures Leads(cfg, After(cfg, Init(), steps), more, t)
    ensures View(t.st.log, id).Some? && View(t.st.log, id).value.state == DONE
    ensures After(cfg, Init(), steps).phase[id] != Finished ==> t.st.durable == |t.st.log|
  {
    hide Runs, After, Leads, Invariant, View;
    var s := After(cfg, Init(), steps);
    InitInv(cfg);
    RunInv(cfg, Init(), steps);
    PhaseIsKnown(cfg, s, id);
    if s.phase[id] == Finished {
      Stay(cfg, s);
      more, t := [], s;
    } else if s.publisher == Some(id) {
      PublisherHolds(cfg, s, id);
      more, t := PublishesAll(cfg, s, id);
    } else {
      var u, rest;
      more, u := Resolves(cfg, s, id, r);
      rest, t := Finishes(cfg, u, id);
      Then(cfg, s, more, u, rest, t);
      more := more + rest;
    }
    FinishedIsDone(cfg, t, id);
  }

  // ------------------------------------------------------------------
  // Why it stops
  // ------------------------------------------------------------------

  /** What may end the agent or its reader: a crash, a shutdown, a journal that is closed or
      fails, and a commit that fails. */
  predicate IsReason(step: Step) {
    || step.Start? || step.ProcessCrash? || step.PowerLoss? || step.JournalFails? || step.CloseStore? || step.StopRunning?
    || (step.HealthCheck? && step.rc != 0) || (step.Commit? && step.rc != 0)
  }

  lemma {:induction false} ReaderKeepsGoing(cfg: Config, s: Sys, step: Step)
    requires Open(cfg, s) && Enabled(cfg, s, step) && !IsReason(step)
    requires step.BeginDiscard? || step.FinishStartup? || step.Dequeue? || step.HealthCheck? || step.Commit? || step.FlushBundle?
    ensures var t := Do(cfg, s, step); t.up && !t.starting && t.running && !Refuses(t.st) && t.reader != Stopped
  {
    hide Invariant, QueueAll;
  }

  lemma {:induction false} WorkKeepsGoing(cfg: Config, s: Sys, step: Step)
    requires Open(cfg, s) && Enabled(cfg, s, step)
    requires step.BeginAttempt? || step.WorkReturns? || step.WorkThrows? || step.PickResult? || step.EnqueueItem? || step.FinishPublishing?
    ensures var t := Do(cfg, s, step); t.up && !t.starting && t.running && !Refuses(t.st) && t.reader != Stopped
  {
    hide Invariant;
  }

  lemma {:induction false} StoreKeepsGoing(cfg: Config, s: Sys, step: Step)
    requires Open(cfg, s) && Enabled(cfg, s, step)
    requires step.AckOp? || step.FailOp? || step.JournalWrite? || step.JournalForce?
    ensures var t := Do(cfg, s, step); t.up && !t.starting && t.running && !Refuses(t.st) && t.reader != Stopped
  {
    hide Invariant, DoAck;
    if step.AckOp? { AckStaysOpen(s, step.id); }
  }

  lemma {:induction false} StepKeepsGoing(cfg: Config, s: Sys, step: Step)
    requires Open(cfg, s) && Enabled(cfg, s, step) && !IsReason(step)
    ensures Open(cfg, Do(cfg, s, step))
  {
    hide Invariant, Enabled, Do;
    StepInv(cfg, s, step);
    if step.AckOp? || step.FailOp? || step.JournalWrite? || step.JournalForce? {
      StoreKeepsGoing(cfg, s, step);
    } else if step.BeginAttempt? || step.WorkReturns? || step.WorkThrows? || step.PickResult? || step.EnqueueItem? || step.FinishPublishing? {
      WorkKeepsGoing(cfg, s, step);
    } else {
      ReaderKeepsGoing(cfg, s, step);
    }
  }

  /** Whatever else happens, work that throws included: the agent keeps running, its reader does
      not stop and its store accepts events until there is a crash, a shutdown, a journal
      that is closed or fails, or a commit that fails. */
  lemma {:induction false} OnlyReasonsStop(cfg: Config, s: Sys, steps: seq<Step>)
    requires Open(cfg, s) && Runs(cfg, s, steps) && forall i :: 0 <= i < |steps| ==> !IsReason(steps[i])
    ensures Open(cfg, After(cfg, s, steps))
    decreases |steps|
  {
    hide Open, Do, Enabled;
    if steps != [] {
      StepKeepsGoing(cfg, s, steps[0]);
      OnlyReasonsStop(cfg, Do(cfg, s, steps[0]), steps[1..]);
    }
  }
}
