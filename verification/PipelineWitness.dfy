/** Two concrete runs: one loses a committed message, one publishes out of order. */
module PipelineWitness {
  import opened Wrappers
  import opened Journal
  import opened StoreProtocol
  import opened Pipeline
  import opened History

  lemma {:induction false} RunsOn(cfg: Config, s: Sys, steps: seq<Step>, more: seq<Step>)
    requires Runs(cfg, s, steps) && Runs(cfg, After(cfg, s, steps), more)
    ensures Runs(cfg, s, steps + more) && After(cfg, s, steps + more) == After(cfg, After(cfg, s, steps), more)
    decreases |steps|
  {
    hide Do, Enabled;
    if steps == [] {
      assert steps + more == more;
    } else {
      RunsOn(cfg, Do(cfg, s, steps[0]), steps[1..], more);
      assert (steps + more)[1..] == steps[1..] + more;
    }
  }

  lemma {:induction false} RunsOne(cfg: Config, s: Sys, steps: seq<Step>, step: Step)
    requires Runs(cfg, s, steps) && Enabled(cfg, After(cfg, s, steps), step)
    ensures Runs(cfg, s, steps + [step])
    ensures After(cfg, s, steps + [step]) == Do(cfg, After(cfg, s, steps), step)
  {
    var t := After(cfg, s, steps);
    assert [step][1..] == [];
    assert Runs(cfg, Do(cfg, t, step), []);
    RunsOn(cfg, s, steps, [step]);
  }

  lemma {:induction false} NoSteps(cfg: Config, s: Sys)
    ensures Runs(cfg, s, []) && After(cfg, s, []) == s
  {
  }

  const X := MsgId(0, 1)

  /** The process is up, running, past startup, and holds at most message X. */
  function Live(log: seq<Event>, written: nat, durable: nat, recovered: nat, m: Option<StoredMessage>,
                pend: Option<nat>, phase: Option<Phase>, reader: ReaderPc, bundle: seq<MsgId>,
                publisher: Option<MsgId>, hist: seq<Obs>): Sys {
    Sys(true, false,
        Store(log, written, durable, recovered, false, false,
              if m.Some? then map[X := m.value] else map[], if pend.Some? then map[X := pend.value] else map[]),
        true, false, if phase.Some? then map[X := phase.value] else map[], reader, bundle, publisher, hist)
  }

  function Stored(state: State): StoredMessage { StoredMessage([], state, 0, None, 0) }

  /** Start on an empty journal. */
  lemma {:induction false} Boot(cfg: Config) returns (steps: seq<Step>)
    ensures Runs(cfg, Init(), steps)
    ensures After(cfg, Init(), steps) == Live([], 0, 0, 0, None, None, None, Idle, [], None, [Started, Bundled([])])
  {
    hide Runs, After;
    steps := [];
    NoSteps(cfg, Init());
    RunsOne(cfg, Init(), steps, Start);
    steps := steps + [Start];
    var s := After(cfg, Init(), steps);
    assert s.hist == [Started];
    RunsOne(cfg, Init(), steps, FinishStartup([]));
    steps := steps + [FinishStartup([])];
    assert [Started] + [Bundled([])] == [Started, Bundled([])];
  }

  lemma {:induction false} WritesAndForces(cfg: Config, s: Sys)
    requires s.up && !s.st.failed && s.st.written < |s.st.log|
    ensures Enabled(cfg, s, JournalWrite) && Do(cfg, s, JournalWrite) == s.(st := Write(s.st))
    ensures var t := s.(st := Write(s.st));
      Enabled(cfg, t, JournalForce) && Do(cfg, t, JournalForce) == s.(st := Force(Write(s.st)))
  {
  }

  lemma {:induction false} Wakes(cfg: Config, s: Sys)
    requires s.up && s.st.durable == s.st.written == |s.st.log|
    requires X in s.phase && Waiting(s.phase[X]) && X in s.st.pend && s.st.pend[X] < s.st.written
    ensures Enabled(cfg, s, AckOp(X)) && Do(cfg, s, AckOp(X)) == DoAck(s, X)
  {
    hide DoAck;
  }

  /** An operation in flight is written, forced and acknowledged. */
  lemma {:induction false} Complete(cfg: Config, s: Sys) returns (steps: seq<Step>)
    requires s.up && !s.st.failed && s.st.written + 1 == |s.st.log|
    requires X in s.phase && Waiting(s.phase[X]) && X in s.st.pend && s.st.pend[X] == s.st.written
    ensures Runs(cfg, s, steps)
    ensures After(cfg, s, steps) == DoAck(s.(st := Force(Write(s.st))), X)
  {
    hide Runs, After, Do, Enabled, DoAck;
    NoSteps(cfg, s);
    WritesAndForces(cfg, s);
    RunsOne(cfg, s, [], JournalWrite);
    steps := [] + [JournalWrite];
    RunsOne(cfg, s, steps, JournalForce);
    steps := steps + [JournalForce];
    Wakes(cfg, s.(st := Force(Write(s.st))));
    RunsOne(cfg, s, steps, AckOp(X));
    steps := steps + [AckOp(X)];
  }

  const STAGED := [Stage(X, [])]

  lemma {:induction false} DequeueRun(cfg: Config) returns (steps: seq<Step>)
    ensures Runs(cfg, Init(), steps)
    ensures After(cfg, Init(), steps) == Live(STAGED, 0, 0, 0, None, Some(0), Some(Staging), Busy(X), [], None, [Started, Bundled([])])
  {
    hide Runs, After;
    steps := Boot(cfg);
    RunsOne(cfg, Init(), steps, Dequeue(X, []));
    steps := steps + [Dequeue(X, [])];
  }

  lemma {:induction false} StageRun(cfg: Config) returns (steps: seq<Step>)
    ensures Runs(cfg, Init(), steps)
    ensures After(cfg, Init(), steps) == Live(STAGED, 1, 1, 0, Some(Stored(COMMITTING)), None, Some(Staged), Busy(X), [], None,
      [Started, Bundled([])])
  {
    hide Runs, After;
    steps := DequeueRun(cfg);
    var more := Complete(cfg, After(cfg, Init(), steps));
    RunsOn(cfg, Init(), steps, more);
    steps := steps + more;
  }

  const BEFORE_READY := [Started, Bundled([]), Committed(X)]

  /** The XA commit takes effect; READY is accepted but not written yet. */
  lemma {:induction false} CommitRun(cfg: Config) returns (steps: seq<Step>)
    ensures Runs(cfg, Init(), steps)
    ensures After(cfg, Init(), steps) == Live(STAGED + [SetState(X, READY)], 1, 1, 0, Some(Stored(COMMITTING)),
      Some(1), Some(Readying), Busy(X), [], None, BEFORE_READY)
  {
    hide Runs, After;
    steps := StageRun(cfg);
    RunsOne(cfg, Init(), steps, Commit(0, true));
    steps := steps + [Commit(0, true)];
  }

  // ------------------------------------------------------------------
  // A committed message is lost
  // ------------------------------------------------------------------

  lemma {:induction false} CrashBeforeReady(cfg: Config) returns (steps: seq<Step>)
    ensures Runs(cfg, Init(), steps)
    ensures After(cfg, Init(), steps) ==
      Sys(false, false, Store(STAGED, 1, 1, 0, false, false, map[], map[]), false, false, map[], Idle, [], None, BEFORE_READY + [Halted])
  {
    hide Runs, After;
    steps := CommitRun(cfg);
    RunsOne(cfg, Init(), steps, ProcessCrash(false));
    steps := steps + [ProcessCrash(false)];
    assert (STAGED + [SetState(X, READY)])[..1] == STAGED;
  }

  /** The process dies before READY is written and is started again. */
  lemma {:induction false} RestartBeforeReady(cfg: Config) returns (steps: seq<Step>)
    ensures Runs(cfg, Init(), steps)
    ensures After(cfg, Init(), steps) == Live(STAGED, 1, 1, 1, Some(Stored(COMMITTING)),
      None, Some(Leftover), Idle, [], None, BEFORE_READY + [Halted, Started]).(starting := true)
  {
    hide Runs, After, Replay;
    steps := CrashBeforeReady(cfg);
    RunsOne(cfg, Init(), steps, Start);
    steps := steps + [Start];
    ReplayStaged();
    var t := After(cfg, Init(), steps);
    assert t.st.mem == map[X := Stored(COMMITTING)];
    assert t.phase == map[X := Leftover];
  }

  lemma {:induction false} ReplayStaged()
    ensures Replay(STAGED) == Some(map[X := Stored(COMMITTING)])
  {
    assert STAGED[..0] == [];
    assert Replay([]) == Some(map[]);
    assert map[][X := Stored(COMMITTING)] == map[X := Stored(COMMITTING)];
  }

  lemma {:induction false} DiscardRun(cfg: Config) returns (steps: seq<Step>)
    ensures Runs(cfg, Init(), steps)
    ensures After(cfg, Init(), steps) == Live(STAGED + [Discard(X)], 1, 1, 1, Some(Stored(COMMITTING)),
      Some(1), Some(Discarding), Idle, [], None, BEFORE_READY + [Halted, Started] + [Discarded(X)]).(starting := true)
  {
    hide Runs, After;
    steps := RestartBeforeReady(cfg);
    RunsOne(cfg, Init(), steps, BeginDiscard(X));
    steps := steps + [BeginDiscard(X)];
  }

  /** "No loss" is false: a run in which an XA commit took effect, READY was never
      acknowledged, and the restart discards the message. */
  lemma {:induction false} LossIsPossible(cfg: Config) returns (steps: seq<Step>)
    ensures Runs(cfg, Init(), steps)
    ensures Committed(X) in After(cfg, Init(), steps).hist
    ensures View(After(cfg, Init(), steps).st.log, X) == None
    ensures After(cfg, Init(), steps).st.durable == |After(cfg, Init(), steps).st.log|
  {
    hide Runs, After, Do, Enabled, View;
    steps := DiscardRun(cfg);
    var more := Complete(cfg, After(cfg, Init(), steps));
    RunsOn(cfg, Init(), steps, more);
    steps := steps + more;
    var t := After(cfg, Init(), steps);
    assert t.st.log == STAGED + [Discard(X)];
    ViewSnoc(STAGED, Discard(X), X);
    assert t.hist[2] == Committed(X);
  }

  // ------------------------------------------------------------------
  // A power loss takes back a checkpoint a restart has acted on
  // ------------------------------------------------------------------

  const PAIR: Batch := [Item(OUTPUT, []), Item(OUTPUT, [])]
  const READIED := STAGED + [SetState(X, READY)]
  const WORKED := READIED + [SetState(X, PROCESSING)]
  const RESOLVED := WORKED + [Result(X, PAIR)]
  const CHECKED := RESOLVED + [Published(X, 1)]

  function Pending(count: nat): StoredMessage { StoredMessage([], RESULT_PENDING, 0, Some(PAIR), count) }

  const HIST_READY := BEFORE_READY + [ReadyAcked(X), Bundled([X])]
  const HIST_RESULT := HIST_READY + [Worked(X), ResultAcked(X, PAIR)]

  lemma {:induction false} ReadyRun(cfg: Config) returns (steps: seq<Step>)
    ensures Runs(cfg, Init(), steps)
    ensures After(cfg, Init(), steps) == Live(READIED, 2, 2, 0, Some(Stored(READY)), None, Some(Queued), Idle, [], None, HIST_READY)
  {
    hide Runs, After;
    steps := CommitRun(cfg);
    var more := Complete(cfg, After(cfg, Init(), steps));
    RunsOn(cfg, Init(), steps, more);
    steps := steps + more;
    assert After(cfg, Init(), steps) ==
      Live(READIED, 2, 2, 0, Some(Stored(READY)), None, Some(Bundling), Idle, [X], None, BEFORE_READY + [ReadyAcked(X)]);
    RunsOne(cfg, Init(), steps, FlushBundle);
    steps := steps + [FlushBundle];
    assert BEFORE_READY + [ReadyAcked(X)] + [Bundled([X])] == HIST_READY;
  }

  lemma {:induction false} BeginRun(cfg: Config) returns (steps: seq<Step>)
    ensures Runs(cfg, Init(), steps)
    ensures After(cfg, Init(), steps) ==
      Live(WORKED, 2, 2, 0, Some(Stored(READY)), Some(2), Some(Starting(0)), Idle, [], None, HIST_READY)
  {
    hide Runs, After;
    steps := ReadyRun(cfg);
    RunsOne(cfg, Init(), steps, BeginAttempt(X));
    steps := steps + [BeginAttempt(X)];
  }

  lemma {:induction false} WorkRun(cfg: Config) returns (steps: seq<Step>)
    ensures Runs(cfg, Init(), steps)
    ensures After(cfg, Init(), steps) == Live(WORKED, 3, 3, 0, Some(Stored(PROCESSING)), None, Some(Working(0)), Idle, [], None,
      HIST_READY + [Worked(X)])
  {
    hide Runs, After;
    steps := BeginRun(cfg);
    var more := Complete(cfg, After(cfg, Init(), steps));
    RunsOn(cfg, Init(), steps, more);
    steps := steps + more;
  }

  lemma {:induction false} WorkReturnsRun(cfg: Config) returns (steps: seq<Step>)
    ensures Runs(cfg, Init(), steps)
    ensures After(cfg, Init(), steps) ==
      Live(RESOLVED, 3, 3, 0, Some(Stored(PROCESSING)), Some(3), Some(Finishing), Idle, [], None, HIST_READY + [Worked(X)])
  {
    hide Runs, After;
    steps := WorkRun(cfg);
    RunsOne(cfg, Init(), steps, WorkReturns(X, PAIR));
    steps := steps + [WorkReturns(X, PAIR)];
  }

  lemma {:induction false} ResultRun(cfg: Config) returns (steps: seq<Step>)
    ensures Runs(cfg, Init(), steps)
    ensures After(cfg, Init(), steps) == Live(RESOLVED, 4, 4, 0, Some(Pending(0)), None, Some(Resolved), Idle, [], None, HIST_RESULT)
  {
    hide Runs, After;
    steps := WorkReturnsRun(cfg);
    var more := Complete(cfg, After(cfg, Init(), steps));
    RunsOn(cfg, Init(), steps, more);
    steps := steps + more;
    assert HIST_READY + [Worked(X)] + [ResultAcked(X, PAIR)] == HIST_RESULT;
  }

  lemma {:induction false} Picks(cfg: Config, log: seq<Event>, written: nat, durable: nat, recovered: nat, count: nat, hist: seq<Obs>)
    requires count < 2
    ensures var s := Live(log, written, durable, recovered, Some(Pending(count)), None, Some(Resolved), Idle, [], None, hist);
      && Enabled(cfg, s, PickResult(X))
      && Do(cfg, s, PickResult(X)) ==
         Live(log, written, durable, recovered, Some(Pending(count)), None, Some(Publishing(count)), Idle, [], Some(X), hist)
  {
    hide NoDuplicates;
  }

  lemma {:induction false} Enqueues(cfg: Config, log: seq<Event>, written: nat, durable: nat, recovered: nat, count: nat, hist: seq<Obs>)
    requires count < 2
    ensures var s := Live(log, written, durable, recovered, Some(Pending(count)), None, Some(Publishing(count)), Idle, [], Some(X), hist);
      && Enabled(cfg, s, EnqueueItem)
      && Do(cfg, s, EnqueueItem) ==
         Live(log + [Published(X, count + 1)], written, durable, recovered, Some(Pending(count)), Some(|log|),
              Some(Checkpointing(count)), Idle, [], Some(X), hist + [Enqueued(X, PAIR, count)])
  {
    hide NoDuplicates;
  }

  /** The publisher picks X and enqueues the item its count points at. */
  lemma {:induction false} PublishNext(cfg: Config, log: seq<Event>, written: nat, durable: nat, recovered: nat, count: nat, hist: seq<Obs>)
    returns (steps: seq<Step>)
    requires count < 2
    ensures Runs(cfg, Live(log, written, durable, recovered, Some(Pending(count)), None, Some(Resolved), Idle, [], None, hist), steps)
    ensures After(cfg, Live(log, written, durable, recovered, Some(Pending(count)), None, Some(Resolved), Idle, [], None, hist), steps)
      == Live(log + [Published(X, count + 1)], written, durable, recovered, Some(Pending(count)), Some(|log|),
              Some(Checkpointing(count)), Idle, [], Some(X), hist + [Enqueued(X, PAIR, count)])
  {
    hide Runs, After, Do, Enabled, Live;
    var s := Live(log, written, durable, recovered, Some(Pending(count)), None, Some(Resolved), Idle, [], None, hist);
    NoSteps(cfg, s);
    Picks(cfg, log, written, durable, recovered, count, hist);
    RunsOne(cfg, s, [], PickResult(X));
    Enqueues(cfg, log, written, durable, recovered, count, hist);
    steps := [] + [PickResult(X)];
    RunsOne(cfg, s, steps, EnqueueItem);
    steps := steps + [EnqueueItem];
  }

  /** Started on a journal that ends with a pending result. */
  function Restarted(s: Sys, count: nat): Sys {
    Live(s.st.log, |s.st.log|, s.st.durable, |s.st.log|, Some(Pending(count)), None, Some(Resolved), Idle, [], None, s.hist + [Started])
      .(starting := true)
  }

  lemma {:induction false} StartsAgain(cfg: Config, s: Sys, count: nat)
    requires !s.up && !s.torn && Replay(s.st.log) == Some(map[X := Pending(count)])
    ensures Enabled(cfg, s, Start) && Do(cfg, s, Start) == Restarted(s, count)
  {
    hide Replay, NoDuplicates;
    assert Do(cfg, s, Start).phase == map[X := Resolved];
  }

  lemma {:induction false} NothingToBundle(cfg: Config, s: Sys, count: nat)
    ensures Enabled(cfg, Restarted(s, count), FinishStartup([]))
    ensures Do(cfg, Restarted(s, count), FinishStartup([])) ==
      Restarted(s, count).(starting := false, hist := s.hist + [Started, Bundled([])])
  {
    assert s.hist + [Started] + [Bundled([])] == s.hist + [Started, Bundled([])];
    assert QueueAll(map[X := Resolved], []) == map[X := Resolved];
  }

  /** Start again on a journal that ends with a pending result. */
  lemma {:induction false} Restart(cfg: Config, s: Sys, count: nat) returns (steps: seq<Step>)
    requires !s.up && !s.torn && Replay(s.st.log) == Some(map[X := Pending(count)])
    ensures Runs(cfg, s, steps)
    ensures After(cfg, s, steps) == Live(s.st.log, |s.st.log|, s.st.durable, |s.st.log|, Some(Pending(count)), None,
      Some(Resolved), Idle, [], None, s.hist + [Started, Bundled([])])
  {
    hide Runs, After, Do, Enabled, Replay;
    NoSteps(cfg, s);
    StartsAgain(cfg, s, count);
    RunsOne(cfg, s, [], Start);
    steps := [] + [Start];
    NothingToBundle(cfg, s, count);
    RunsOne(cfg, s, steps, FinishStartup([]));
    steps := steps + [FinishStartup([])];
  }

  lemma {:induction false} ReplayOn(log: seq<Event>, e: Event, before: StoredMessage, after: StoredMessage)
    requires Replay(log) == Some(map[X := before]) && e.id == X && Apply(Some(before), e) == Some(after)
    ensures Replay(log + [e]) == Some(map[X := after])
  {
    assert (log + [e])[..|log|] == log;
    assert map[X := before][X := after] == map[X := after];
  }

  lemma {:induction false} ReplayChecked()
    ensures Replay(RESOLVED) == Some(map[X := Pending(0)])
    ensures Replay(CHECKED) == Some(map[X := Pending(1)])
  {
    ReplayStaged();
    ReplayOn(STAGED, SetState(X, READY), Stored(COMMITTING), Stored(READY));
    ReplayOn(READIED, SetState(X, PROCESSING), Stored(READY), Stored(PROCESSING));
    ReplayOn(WORKED, Result(X, PAIR), Stored(PROCESSING), Pending(0));
    ReplayOn(RESOLVED, Published(X, 1), Pending(0), Pending(1));
  }

  const HIST_FIRST := HIST_RESULT + [Enqueued(X, PAIR, 0), Halted]
  const HIST_SECOND := HIST_FIRST + [Started, Bundled([])] + [Enqueued(X, PAIR, 1), Halted]

  lemma {:induction false} CheckpointRun(cfg: Config) returns (steps: seq<Step>)
    ensures Runs(cfg, Init(), steps)
    ensures After(cfg, Init(), steps) == Live(CHECKED, 5, 4, 0, Some(Pending(0)), Some(4), Some(Checkpointing(0)), Idle, [], Some(X),
      HIST_RESULT + [Enqueued(X, PAIR, 0)])
  {
    hide Runs, After;
    steps := ResultRun(cfg);
    var more := PublishNext(cfg, RESOLVED, 4, 4, 0, 0, HIST_RESULT);
    RunsOn(cfg, Init(), steps, more);
    steps := steps + more;
    RunsOne(cfg, Init(), steps, JournalWrite);
    steps := steps + [JournalWrite];
  }

  /** Item 0 is enqueued; its checkpoint is written but not forced; the process dies. */
  lemma {:induction false} FirstCrash(cfg: Config) returns (steps: seq<Step>)
    ensures Runs(cfg, Init(), steps)
    ensures var s := After(cfg, Init(), steps);
      !s.up && !s.torn && s.st.log == CHECKED && s.st.durable == 4 && s.hist == HIST_FIRST
  {
    hide Runs, After;
    steps := CheckpointRun(cfg);
    RunsOne(cfg, Init(), steps, ProcessCrash(false));
    steps := steps + [ProcessCrash(false)];
    assert CHECKED[..5] == CHECKED;
    assert HIST_RESULT + [Enqueued(X, PAIR, 0)] + [Halted] == HIST_FIRST;
  }

  /** The restart believes the checkpoint and enqueues item 1; then power is lost
      and the checkpoint of item 0 with it. */
  lemma {:induction false} SecondCrash(cfg: Config) returns (steps: seq<Step>)
    requires !cfg.safeTail
    ensures Runs(cfg, Init(), steps)
    ensures var s := After(cfg, Init(), steps);
      !s.up && !s.torn && s.st.log == RESOLVED && s.st.durable == 4 && s.hist == HIST_SECOND
  {
    hide Runs, After;
    steps := FirstCrash(cfg);
    ReplayChecked();
    var more := Restart(cfg, After(cfg, Init(), steps), 1);
    RunsOn(cfg, Init(), steps, more);
    steps := steps + more;
    more := PublishNext(cfg, CHECKED, 5, 4, 5, 1, HIST_FIRST + [Started, Bundled([])]);
    RunsOn(cfg, Init(), steps, more);
    steps := steps + more;
    RunsOne(cfg, Init(), steps, PowerLoss(4, false));
    steps := steps + [PowerLoss(4, false)];
    assert (CHECKED + [Published(X, 2)])[..4] == RESOLVED;
    assert HIST_FIRST + [Started, Bundled([])] + [Enqueued(X, PAIR, 1)] + [Halted] == HIST_SECOND;
  }

  /** Publication goes back from item 1 to item 0. */
  lemma {:induction false} ReorderingIsPossible(cfg: Config) returns (steps: seq<Step>)
    requires !cfg.safeTail
    ensures Runs(cfg, Init(), steps)
    ensures !InOrder(After(cfg, Init(), steps).hist)
  {
    hide Runs, After;
    steps := SecondCrash(cfg);
    ReplayChecked();
    var more := Restart(cfg, After(cfg, Init(), steps), 0);
    RunsOn(cfg, Init(), steps, more);
    steps := steps + more;
    more := PublishNext(cfg, RESOLVED, 4, 4, 4, 0, HIST_SECOND + [Started, Bundled([])]);
    RunsOn(cfg, Init(), steps, more);
    steps := steps + more;
    var h := After(cfg, Init(), steps).hist;
    var a := |HIST_FIRST| + 2;
    assert h[a] == Enqueued(X, PAIR, 1);
    assert h[|h| - 1] == Enqueued(X, PAIR, 0);
  }
}
