/** A waiting thread wakes up: its operation succeeded, or the journal failed. */
module PipelineAcks {
  import opened Wrappers
  import opened Journal
  import opened StoreProtocol
  import opened Pipeline
  import opened History
  import opened PipelineInvariant
  import opened PipelineJournal
  import opened PipelineSteps

  /** The waiting thread's memory update, before it goes on. */
  function Acked(s: Sys, id: MsgId): Sys
    requires id in s.st.pend && s.st.pend[id] < |s.st.log|
  {
    s.(st := Ack(s.st, id))
  }

  lemma {:induction false} AckSparesOthers(s: Sys, id: MsgId, other: MsgId)
    requires id in s.st.pend && s.st.pend[id] < |s.st.log| && other != id && MessageOK(s, other)
    ensures MessageOK(Acked(s, id), other)
  {
  }

  lemma {:induction false} AckedButOne(cfg: Config, s: Sys, id: MsgId)
    requires s in Invariant(cfg) && s.up && EnabledUp(s, AckOp(id))
    ensures Acked(s, id) in AllBut(cfg, id)
  {
    hide MessageOK, JournalOK, TailOK;
    AckInv(s.st, id);
    forall other | other != id ensures MessageOK(Acked(s, id), other) {
      AckSparesOthers(s, id, other);
    }
  }

  /** The pending event is legal where it stands. */
  lemma {:induction false} PendingIsLegal(st: Store, id: MsgId)
    requires StoreInv(st) && Legal(st.log) && id in st.pend
    ensures st.pend[id] < |st.log| && LegalEvent(Lookup(st.mem, id), st.log[st.pend[id]])
  {
    assert PendOK(st, id);
    var p := st.pend[id];
    LegalPrefix(st.log, p + 1);
    assert st.log[..p + 1][..p] == st.log[..p];
  }

  /** Its effect is already in the durable part when it is acknowledged. */
  lemma {:induction false} CoveredView(st: Store, id: MsgId)
    requires StoreInv(st) && Covered(st, id)
    ensures View(st.log[..st.durable], id) == View(st.log, id)
  {
    assert PendOK(st, id);
    var p := st.pend[id];
    var d := st.log[..st.durable];
    forall q | p + 1 <= q < |d| ensures d[q].id != id {
      assert d[q] == st.log[q];
    }
    ViewSuffix(d, p + 1, id);
    assert d[..p + 1] == st.log[..p + 1];
    ViewSuffix(st.log, p + 1, id);
  }

  /** What acknowledging an operation makes true of its message. */
  lemma {:induction false} AckedMessage(cfg: Config, s: Sys, id: MsgId)
    requires s in Invariant(cfg) && s.up && EnabledUp(s, AckOp(id))
    ensures id in s.st.pend && s.st.pend[id] < |s.st.log|
    ensures var e := s.st.log[s.st.pend[id]];
      && e.id == id && Awaits(s.phase[id], e)
      && LegalEvent(Lookup(s.st.mem, id), e)
      && Lookup(Acked(s, id).st.mem, id) == Apply(Lookup(s.st.mem, id), e)
      && Lookup(Acked(s, id).st.mem, id) == View(s.st.log, id)
      && View(s.st.log[..s.st.durable], id) == View(s.st.log, id)
    ensures MessageOK(s, id)
  {
    assert MessageOK(s, id);
    AckInv(s.st, id);
    PendingView(s.st, id);
    PendingIsLegal(s.st, id);
    CoveredView(s.st, id);
  }

  /** After the acknowledgement every journal a crash can leave has the event. */
  lemma {:induction false} AckSecures(log: seq<Event>, durable: nat, p: nat, id: MsgId)
    requires p < durable <= |log|
    requires forall q :: p < q < |log| ==> log[q].id != id
    requires View(log, id).Some?
    ensures Secured(log, durable, id, Live)
  {
    forall k | durable <= k <= |log| ensures View(log[..k], id) == View(log, id) {
      forall q | p + 1 <= q < k ensures log[..k][q].id != id {
      }
      ViewSuffix(log[..k], p + 1, id);
      ViewSuffix(log, p + 1, id);
      assert log[..k][..p + 1] == log[..p + 1];
    }
  }

  lemma {:induction false} AckDiscard(cfg: Config, s: Sys, id: MsgId)
    requires s in Invariant(cfg) && s.up && EnabledUp(s, AckOp(id)) && s.phase[id] == Discarding
    ensures Acked(s, id).(phase := s.phase - {id}) in Invariant(cfg)
  {
    hide AllBut, Invariant, StoreInv;
    AckedMessage(cfg, s, id);
    AckedButOne(cfg, s, id);
    var u := Acked(s, id).(phase := s.phase - {id});
    PhaseOnly(cfg, Acked(s, id), u, id);
    assert MessageOK(u, id);
    Settle(cfg, u, id);
  }

  lemma {:induction false} StageIsSecured(cfg: Config, s: Sys, id: MsgId)
    requires s in Invariant(cfg) && s.up && EnabledUp(s, AckOp(id)) && s.phase[id] == Staging
    ensures Secured(s.st.log, s.st.durable, id, Live)
  {
    AckedMessage(cfg, s, id);
    assert PendOK(s.st, id);
    AckSecures(s.st.log, s.st.durable, s.st.pend[id], id);
  }

  lemma {:induction false} AckStage(cfg: Config, s: Sys, id: MsgId)
    requires s in Invariant(cfg) && s.up && EnabledUp(s, AckOp(id)) && s.phase[id] == Staging
    ensures Acked(s, id).(phase := s.phase[id := Staged]) in Invariant(cfg)
  {
    hide AllBut, Invariant, StoreInv;
    AckedMessage(cfg, s, id);
    AckedButOne(cfg, s, id);
    StageIsSecured(cfg, s, id);
    var u := Acked(s, id).(phase := s.phase[id := Staged]);
    PhaseOnly(cfg, Acked(s, id), u, id);
    assert MessageOK(u, id);
    Settle(cfg, u, id);
  }

  /** The reader takes a message into its bundle and is idle again. */
  function Join(s: Sys, id: MsgId): Sys {
    s.(phase := s.phase[id := Bundling], reader := Idle, bundle := s.bundle + [id])
  }

  lemma {:induction false} JoinOthers(cfg: Config, s: Sys, id: MsgId)
    requires s in AllBut(cfg, id) && s.reader == Busy(id) && id !in s.bundle
    ensures Join(s, id) in AllBut(cfg, id)
  {
    forall other | other != id ensures MessageOK(Join(s, id), other) {
      assert MessageOK(s, other);
    }
  }

  lemma {:induction false} AckReadyObserved(cfg: Config, s: Sys, id: MsgId)
    requires s in Invariant(cfg) && s.up && EnabledUp(s, AckOp(id)) && s.phase[id] == Readying
    ensures Observe(Acked(s, id), ReadyAcked(id)) in AllBut(cfg, id)
  {
    AckedMessage(cfg, s, id);
    AckedButOne(cfg, s, id);
    FactsPersist(s.st.log, s.st.durable, id, AtLeastReady);
    ObserveOnly(cfg, Acked(s, id), ReadyAcked(id), id);
  }

  /** READY is acknowledged: the message joins the reader's bundle. */
  lemma {:induction false} AckReady(cfg: Config, s: Sys, id: MsgId)
    requires s in Invariant(cfg) && s.up && EnabledUp(s, AckOp(id)) && s.phase[id] == Readying
    ensures Join(Observe(Acked(s, id), ReadyAcked(id)), id) in Invariant(cfg)
  {
    hide AllBut, Invariant, StoreInv, Secured, Legal;
    AckedMessage(cfg, s, id);
    AckReadyObserved(cfg, s, id);
    SinceSnoc(s.hist, ReadyAcked(id));
    var t := Observe(Acked(s, id), ReadyAcked(id));
    JoinOthers(cfg, t, id);
    assert MessageOK(Join(t, id), id);
    Settle(cfg, Join(t, id), id);
  }

  /** A message about to be worked on has no acknowledged result. */
  lemma {:induction false} NoResultYet(cfg: Config, s: Sys, id: MsgId)
    requires s in Invariant(cfg) && s.up && View(s.st.log, id).Some? && !HasResult(View(s.st.log, id))
    ensures forall r :: ResultAcked(id, r) !in s.hist
  {
    assert s.st.log[..|s.st.log|] == s.st.log;
    forall r ensures ResultAcked(id, r) !in s.hist {
      assert ResultAcked(id, r) in s.hist ==> Meets(View(s.st.log[..|s.st.log|], id), ResultIs(r));
    }
  }

  /** While a worker has the message nothing of it has been enqueued, nor is it by its calls. */
  lemma {:induction false} WorkerHistory(
    h: seq<Obs>, ph: Phase, m: Option<StoredMessage>, id: MsgId, o: Obs, next: Phase, after: Option<StoredMessage>)
    requires PhaseOfHistory(h, Some(ph), m, id) && !HasResult(m) && !ph.Checkpointing?
    requires (o.Worked? || o.ResultAcked?) && Dispatched(next)
    ensures PhaseOfHistory(h + [o], Some(next), after, id)
  {
    SinceSnoc(h, o);
  }

  lemma {:induction false} AckStartObserved(cfg: Config, s: Sys, id: MsgId)
    requires s in Invariant(cfg) && s.up && EnabledUp(s, AckOp(id)) && s.phase[id].Starting?
    ensures Observe(Acked(s, id), Worked(id)) in AllBut(cfg, id)
  {
    AckedMessage(cfg, s, id);
    AckedButOne(cfg, s, id);
    NoResultYet(cfg, s, id);
    ObserveOnly(cfg, Acked(s, id), Worked(id), id);
  }

  lemma {:induction false} AckStart(cfg: Config, s: Sys, id: MsgId)
    requires s in Invariant(cfg) && s.up && EnabledUp(s, AckOp(id)) && s.phase[id].Starting?
    ensures Observe(Acked(s, id), Worked(id)).(phase := s.phase[id := Working(s.phase[id].attempt)]) in Invariant(cfg)
  {
    hide AllBut, Invariant, StoreInv, Legal, PhaseOfHistory;
    AckedMessage(cfg, s, id);
    AckStartObserved(cfg, s, id);
    var t := Observe(Acked(s, id), Worked(id));
    var u := t.(phase := s.phase[id := Working(s.phase[id].attempt)]);
    WorkerHistory(s.hist, s.phase[id], Lookup(s.st.mem, id), id, Worked(id), u.phase[id], Lookup(u.st.mem, id));
    PhaseOnly(cfg, t, u, id);
    assert MessageOK(u, id);
    Settle(cfg, u, id);
  }

  lemma {:induction false} AckResultObserved(cfg: Config, s: Sys, id: MsgId)
    requires s in Invariant(cfg) && s.up && EnabledUp(s, AckOp(id)) && s.phase[id] == Finishing
    ensures s.st.pend[id] < |s.st.log| && s.st.log[s.st.pend[id]].Result?
    ensures Observe(Acked(s, id), ResultAcked(id, s.st.log[s.st.pend[id]].result)) in AllBut(cfg, id)
  {
    AckedMessage(cfg, s, id);
    AckedButOne(cfg, s, id);
    var r := s.st.log[s.st.pend[id]].result;
    FactsPersist(s.st.log, s.st.durable, id, ResultIs(r));
    ObserveOnly(cfg, Acked(s, id), ResultAcked(id, r), id);
  }

  lemma {:induction false} AckResult(cfg: Config, s: Sys, id: MsgId)
    requires s in Invariant(cfg) && s.up && EnabledUp(s, AckOp(id)) && s.phase[id] == Finishing
    ensures s.st.pend[id] < |s.st.log| && s.st.log[s.st.pend[id]].Result?
    ensures Observe(Acked(s, id), ResultAcked(id, s.st.log[s.st.pend[id]].result)).(phase := s.phase[id := Resolved])
      in Invariant(cfg)
  {
    hide AllBut, Invariant, StoreInv, Legal, PhaseOfHistory;
    AckedMessage(cfg, s, id);
    AckResultObserved(cfg, s, id);
    var r := s.st.log[s.st.pend[id]].result;
    var t := Observe(Acked(s, id), ResultAcked(id, r));
    var u := t.(phase := s.phase[id := Resolved]);
    WorkerHistory(s.hist, Finishing, Lookup(s.st.mem, id), id, ResultAcked(id, r), Resolved, Lookup(u.st.mem, id));
    PhaseOnly(cfg, t, u, id);
    assert MessageOK(u, id);
    Settle(cfg, u, id);
  }

  lemma {:induction false} AckRetry(cfg: Config, s: Sys, id: MsgId)
    requires s in Invariant(cfg) && s.up && EnabledUp(s, AckOp(id)) && s.phase[id].Retrying?
    ensures Acked(s, id).(phase := s.phase[id := RetryDue(s.phase[id].attempt + 1)]) in Invariant(cfg)
  {
    hide AllBut, Invariant, StoreInv;
    AckedMessage(cfg, s, id);
    AckedButOne(cfg, s, id);
    var u := Acked(s, id).(phase := s.phase[id := RetryDue(s.phase[id].attempt + 1)]);
    PhaseOnly(cfg, Acked(s, id), u, id);
    assert MessageOK(u, id);
    Settle(cfg, u, id);
  }

  lemma {:induction false} AckCheckpoint(cfg: Config, s: Sys, id: MsgId)
    requires s in Invariant(cfg) && s.up && EnabledUp(s, AckOp(id)) && s.phase[id].Checkpointing?
    ensures Acked(s, id).(phase := s.phase[id := Publishing(s.phase[id].index + 1)]) in Invariant(cfg)
  {
    hide AllBut, Invariant, StoreInv;
    AckedMessage(cfg, s, id);
    AckedButOne(cfg, s, id);
    var u := Acked(s, id).(phase := s.phase[id := Publishing(s.phase[id].index + 1)]);
    PhaseOnly(cfg, Acked(s, id), u, id);
    assert MessageOK(u, id);
    Settle(cfg, u, id);
  }

  lemma {:induction false} AckDone(cfg: Config, s: Sys, id: MsgId)
    requires s in Invariant(cfg) && s.up && EnabledUp(s, AckOp(id)) && s.phase[id] == Closing
    ensures Acked(s, id).(phase := s.phase[id := Finished], publisher := None) in Invariant(cfg)
  {
    hide AllBut, Invariant, StoreInv;
    AckedMessage(cfg, s, id);
    AckedButOne(cfg, s, id);
    var u := Acked(s, id).(phase := s.phase[id := Finished], publisher := None);
    PhaseOnly(cfg, Acked(s, id), u, id);
    assert MessageOK(u, id);
    Settle(cfg, u, id);
  }

  lemma {:induction false} AckOpInv(cfg: Config, s: Sys, id: MsgId)
    requires s in Invariant(cfg) && s.up && EnabledUp(s, AckOp(id))
    ensures DoAck(s, id) in Invariant(cfg)
  {
    hide Invariant;
    match s.phase[id]
    case Discarding => AckDiscard(cfg, s, id);
    case Staging => AckStage(cfg, s, id);
    case Readying => AckReady(cfg, s, id);
    case Starting(_) => AckStart(cfg, s, id);
    case Finishing => AckResult(cfg, s, id);
    case Retrying(_) => AckRetry(cfg, s, id);
    case Checkpointing(_) => AckCheckpoint(cfg, s, id);
    case Closing => AckDone(cfg, s, id);
    case _ => assert false;
  }

  // ------------------------------------------------------------------
  // Journal failures
  // ------------------------------------------------------------------

  lemma {:induction false} ReaderLeavesOthers(s: Sys, id: MsgId, other: MsgId)
    requires MessageOK(s, id) && MessageOK(s, other) && other != id
    requires id in s.phase && (s.phase[id].Staging? || s.phase[id].Readying?)
    ensures MessageOK(StopReader(GiveUp(s, id)), other)
  {
  }

  lemma {:induction false} ReaderLeaves(s: Sys, id: MsgId)
    requires StoreInv(s.st) && MessageOK(s, id) && EnabledUp(s, FailOp(id)) && (s.phase[id].Staging? || s.phase[id].Readying?)
    ensures MessageOK(StopReader(GiveUp(s, id)), id)
  {
    hide StoreInv;
  }

  lemma {:induction false} ReaderGivesUp(cfg: Config, s: Sys, id: MsgId)
    requires s in Invariant(cfg) && s.up && EnabledUp(s, FailOp(id)) && (s.phase[id].Staging? || s.phase[id].Readying?)
    ensures StopReader(GiveUp(s, id)) in Invariant(cfg)
  {
    hide MessageOK, JournalOK, TailOK, StoreInv;
    var u := StopReader(GiveUp(s, id));
    ReaderLeaves(s, id);
    forall other ensures MessageOK(u, other) {
      if other != id { ReaderLeavesOthers(s, id, other); }
    }
    assert !s.starting by { ReaderIsLate(s, id); }
  }

  lemma {:induction false} ReaderIsLate(s: Sys, id: MsgId)
    requires MessageOK(s, id) && ThreadsOK(s) && id in s.phase && (s.phase[id].Staging? || s.phase[id].Readying?)
    ensures !s.starting
  {
  }

  lemma {:induction false} CheckpointFails(cfg: Config, s: Sys, id: MsgId)
    requires s in Invariant(cfg) && s.up && EnabledUp(s, FailOp(id)) && s.phase[id].Checkpointing?
    ensures Unpublish(Observe(s, CheckpointFailed(id)), id) in Invariant(cfg)
  {
    hide AllBut, Invariant, StoreInv;
    Opened(cfg, s, id);
    ObserveOnly(cfg, s, CheckpointFailed(id), id);
    SinceSnoc(s.hist, CheckpointFailed(id));
    UnpublishInv(cfg, Observe(s, CheckpointFailed(id)), id);
  }

  lemma {:induction false} FailOpInv(cfg: Config, s: Sys, id: MsgId)
    requires s in Invariant(cfg) && s.up && EnabledUp(s, FailOp(id))
    ensures DoFailOp(s, id) in Invariant(cfg)
  {
    hide AllBut, Invariant, StoreInv;
    if s.phase[id].Staging? || s.phase[id].Readying? {
      ReaderGivesUp(cfg, s, id);
    } else if s.phase[id].Checkpointing? {
      CheckpointFails(cfg, s, id);
    } else if s.phase[id].Closing? {
      Opened(cfg, s, id);
      UnpublishInv(cfg, s, id);
    } else {
      GiveUpInv(cfg, s, id);
    }
  }
}
