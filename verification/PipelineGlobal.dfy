/** Startup, dispatch, the journal writer, and crashes keep the invariant. */
module PipelineGlobal {
  import opened Wrappers
  import opened Journal
  import opened StoreProtocol
  import opened Pipeline
  import opened History
  import opened PipelineInvariant
  import opened PipelineJournal
  import opened PipelineSteps
  import opened PipelineAcks

  // ------------------------------------------------------------------
  // Dispatch
  // ------------------------------------------------------------------

  /** Bundles are handed over: their messages become Queued. */
  function HandOver(s: Sys, ids: seq<MsgId>): Sys {
    Observe(s, Bundled(ids)).(phase := QueueAll(s.phase, ids))
  }

  lemma {:induction false} HandOverJournal(cfg: Config, s: Sys, ids: seq<MsgId>)
    requires s in Invariant(cfg) && s.up && NoDuplicates(ids)
    requires forall id :: id in ids ==> !BundledSince(s.hist, id)
    ensures JournalOK(s.st.log, s.st.durable, s.hist + [Bundled(ids)])
    ensures cfg.safeTail ==> TailOK(s.st.log, Stable(s.st), s.hist + [Bundled(ids)])
  {
    JournalObserve(s.st.log, s.st.durable, s.hist, Bundled(ids));
    if cfg.safeTail {
      TailObserve(s.st.log, Stable(s.st), s.hist, Bundled(ids));
    }
  }

  lemma {:induction false} FlushMessages(s: Sys, id: MsgId)
    requires MessageOK(s, id)
    ensures MessageOK(HandOver(s, s.bundle).(bundle := []), id)
  {
    SinceSnoc(s.hist, Bundled(s.bundle));
  }

  lemma {:induction false} FlushInv(cfg: Config, s: Sys)
    requires s in Invariant(cfg) && s.up
    ensures HandOver(s, s.bundle).(bundle := []) in Invariant(cfg)
  {
    forall id | id in s.bundle ensures !BundledSince(s.hist, id) {
      assert MessageOK(s, id);
    }
    HandOverJournal(cfg, s, s.bundle);
    SinceSnoc(s.hist, Bundled(s.bundle));
    forall id ensures MessageOK(HandOver(s, s.bundle).(bundle := []), id) {
      assert MessageOK(s, id);
      FlushMessages(s, id);
    }
  }

  lemma {:induction false} StartupMessages(s: Sys, order: seq<MsgId>, id: MsgId)
    requires MessageOK(s, id) && ThreadsOK(s) && EnabledUp(s, FinishStartup(order))
    ensures MessageOK(HandOver(s, order).(starting := false), id)
  {
    SinceSnoc(s.hist, Bundled(order));
  }

  lemma {:induction false} FinishStartupInv(cfg: Config, s: Sys, order: seq<MsgId>)
    requires s in Invariant(cfg) && s.up && EnabledUp(s, FinishStartup(order))
    ensures HandOver(s, order).(starting := false) in Invariant(cfg)
  {
    forall id | id in order ensures !BundledSince(s.hist, id) {
      assert MessageOK(s, id);
    }
    HandOverJournal(cfg, s, order);
    SinceSnoc(s.hist, Bundled(order));
    forall id ensures MessageOK(HandOver(s, order).(starting := false), id) {
      assert MessageOK(s, id);
      StartupMessages(s, order, id);
    }
  }

  // ------------------------------------------------------------------
  // Startup
  // ------------------------------------------------------------------

  /** A leftover is not one whose READY was ever acknowledged. */
  lemma {:induction false} LeftoverWasNotReady(cfg: Config, s: Sys, id: MsgId)
    requires s in Invariant(cfg) && s.up && At(s, id, Leftover)
    ensures ReadyAcked(id) !in s.hist
  {
    assert MessageOK(s, id);
    CurrentView(s.st, id);
    assert s.st.log[..|s.st.log|] == s.st.log;
    MemoryView(s.st, id);
    assert ReadyAcked(id) in s.hist ==> Meets(View(s.st.log[..MemoryLength(s.st, id)], id), AtLeastReady);
  }

  lemma {:induction false} OneLeftover(cfg: Config, s: Sys, id: MsgId, other: MsgId)
    requires s in Invariant(cfg) && s.up && At(s, id, Leftover) && At(s, other, Leftover) && !Refuses(s.st)
    ensures id == other
  {
    assert MessageOK(s, id) && MessageOK(s, other);
    CurrentView(s.st, id);
    CurrentView(s.st, other);
    AtMostOneCommitting(s.st.log, id, other);
  }

  lemma {:induction false} DiscardObserved(cfg: Config, s: Sys, id: MsgId)
    requires s in Invariant(cfg) && s.up && EnabledUp(s, BeginDiscard(id))
    ensures Observe(s, Discarded(id)) in AllBut(cfg, id)
  {
    var o := Discarded(id);
    assert MessageOK(s, id);
    LeftoverWasNotReady(cfg, s, id);
    JournalObserve(s.st.log, s.st.durable, s.hist, o);
    if cfg.safeTail {
      TailObserve(s.st.log, Stable(s.st), s.hist, o);
    }
    SinceSnoc(s.hist, o);
    assert Observe(s, o).hist[..|s.hist|] == s.hist;
    forall other | other != id ensures MessageOK(Observe(s, o), other) {
      assert MessageOK(s, other);
      if At(s, other, Leftover) { OneLeftover(cfg, s, id, other); }
    }
  }

  lemma {:induction false} BeginDiscardInv(cfg: Config, s: Sys, id: MsgId)
    requires s in Invariant(cfg) && s.up && EnabledUp(s, BeginDiscard(id))
    ensures Begin(Observe(s, Discarded(id)), Discard(id), Discarding) in Invariant(cfg)
  {
    hide AllBut, Invariant, StoreInv, Begin;
    DiscardObserved(cfg, s, id);
    Opened(cfg, s, id);
    NotPending(s, id);
    CurrentView(s.st, id);
    SinceSnoc(s.hist, Discarded(id));
    BeginInv(cfg, Observe(s, Discarded(id)), Discard(id), Discarding);
  }

  lemma {:induction false} StartJournal(cfg: Config, s: Sys)
    requires s in Invariant(cfg) && !s.up
    ensures var st := DoStart(s).st;
      && JournalOK(st.log, st.durable, s.hist + [Started])
      && (cfg.safeTail ==> TailOK(st.log, Stable(st), s.hist + [Started]))
      && StoreInv(st)
  {
    var st := DoStart(s).st;
    LegalReplays(s.st.log);
    OpenInv(s.st.log, st.durable, Replay(s.st.log).value);
    JournalGrow(s.st.log, s.st.durable, st.durable, s.hist);
    JournalObserve(s.st.log, st.durable, s.hist, Started);
    if cfg.safeTail {
      TailGrow(s.st.log, Stable(s.st), Stable(st), s.hist);
      TailObserve(s.st.log, Stable(st), s.hist, Started);
    }
  }

  lemma {:induction false} StartMessages(s: Sys, id: MsgId)
    requires Legal(s.st.log)
    ensures MessageOK(DoStart(s), id)
  {
    LegalReplays(s.st.log);
    ReplayIsView(s.st.log);
    SinceSnoc(s.hist, Started);
    ResultsArePresent(s.st.log, id);
  }

  /** A message waiting to be published has something to publish. */
  lemma {:induction false} ResultsArePresent(log: seq<Event>, id: MsgId)
    requires Legal(log)
    ensures HasResult(View(log, id)) ==> View(log, id).value.result.Some?
  {
    if log != [] { ResultsArePresent(log[..|log| - 1], id); }
  }

  lemma {:induction false} StartInv(cfg: Config, s: Sys)
    requires s in Invariant(cfg) && !s.up
    ensures DoStart(s) in Invariant(cfg)
  {
    StartJournal(cfg, s);
    SinceSnoc(s.hist, Started);
    assert DoStart(s).hist[|s.hist|] == Started;
    forall id ensures MessageOK(DoStart(s), id) {
      StartMessages(s, id);
    }
  }

  // ------------------------------------------------------------------
  // The journal writer
  // ------------------------------------------------------------------

  lemma {:induction false} WriteStep(cfg: Config, s: Sys)
    requires s in Invariant(cfg) && s.up && EnabledUp(s, JournalWrite)
    ensures s.(st := Write(s.st)) in Invariant(cfg)
  {
    WriteInv(s.st);
    forall id ensures MessageOK(s.(st := Write(s.st)), id) {
      assert MessageOK(s, id);
    }
  }

  lemma {:induction false} ForceMessages(s: Sys, id: MsgId)
    requires StoreInv(s.st) && MessageOK(s, id) && !s.st.failed
    ensures MessageOK(s.(st := Force(s.st)), id)
  {
  }

  lemma {:induction false} ForceStep(cfg: Config, s: Sys)
    requires s in Invariant(cfg) && s.up && EnabledUp(s, JournalForce)
    ensures s.(st := Force(s.st)) in Invariant(cfg)
  {
    hide MessageOK, JournalOK;
    ForceInv(s.st);
    JournalGrow(s.st.log, s.st.durable, s.st.written, s.hist);
    forall id ensures MessageOK(s.(st := Force(s.st)), id) {
      ForceMessages(s, id);
    }
  }

  lemma {:induction false} FailMessages(s: Sys, id: MsgId)
    requires StoreInv(s.st) && MessageOK(s, id) && !s.st.failed
    ensures MessageOK(s.(st := Fail(s.st)), id)
  {
    if id in s.phase && (s.phase[id].Staged? || s.phase[id].Readying?) {
      SecuredCut(s.st.log, s.st.durable, s.st.written, id, Live);
    }
  }

  lemma {:induction false} FailStep(cfg: Config, s: Sys)
    requires s in Invariant(cfg) && s.up && EnabledUp(s, JournalFails)
    ensures s.(st := Fail(s.st)) in Invariant(cfg)
  {
    FailInv(s.st);
    JournalCut(s.st.log, s.st.durable, s.st.written, s.hist);
    if cfg.safeTail {
      TailCut(s.st.log, Stable(s.st), s.st.written, s.hist);
    }
    forall id ensures MessageOK(s.(st := Fail(s.st)), id) {
      assert MessageOK(s, id);
      FailMessages(s, id);
    }
  }

  lemma {:induction false} CloseStep(cfg: Config, s: Sys)
    requires s in Invariant(cfg) && s.up
    ensures s.(st := Close(s.st)) in Invariant(cfg)
  {
    CloseInv(s.st);
    forall id ensures MessageOK(s.(st := Close(s.st)), id) {
      assert MessageOK(s, id);
    }
  }

  lemma {:induction false} StopStep(cfg: Config, s: Sys)
    requires s in Invariant(cfg) && s.up
    ensures s.(running := false) in Invariant(cfg)
  {
    forall id ensures MessageOK(s.(running := false), id) {
      assert MessageOK(s, id);
    }
  }

  // ------------------------------------------------------------------
  // Crashes
  // ------------------------------------------------------------------

  lemma {:induction false} CrashInv(cfg: Config, s: Sys, torn: bool)
    requires s in Invariant(cfg)
    ensures Dead(s, s.st.log[..s.st.written], s.st.durable, torn) in Invariant(cfg)
  {
    JournalCut(s.st.log, s.st.durable, s.st.written, s.hist);
    JournalObserve(s.st.log[..s.st.written], s.st.durable, s.hist, Halted);
    if cfg.safeTail {
      TailCut(s.st.log, Stable(s.st), s.st.written, s.hist);
      TailObserve(s.st.log[..s.st.written], Stable(s.st), s.hist, Halted);
    }
  }

  lemma {:induction false} PowerLossInv(cfg: Config, s: Sys, keep: nat, torn: bool)
    requires s in Invariant(cfg) && Enabled(cfg, s, PowerLoss(keep, torn))
    ensures keep <= |s.st.log|
    ensures Dead(s, s.st.log[..keep], keep, torn) in Invariant(cfg)
  {
    JournalCut(s.st.log, s.st.durable, keep, s.hist);
    JournalGrow(s.st.log[..keep], s.st.durable, keep, s.hist);
    JournalObserve(s.st.log[..keep], keep, s.hist, Halted);
    if cfg.safeTail {
      TailCut(s.st.log, Stable(s.st), keep, s.hist);
      TailGrow(s.st.log[..keep], Stable(s.st), keep, s.hist);
      TailObserve(s.st.log[..keep], keep, s.hist, Halted);
    }
  }
}
