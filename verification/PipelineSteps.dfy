/** Every step of the pipeline keeps the invariant. */
module PipelineSteps {
  import opened Wrappers
  import opened Journal
  import opened StoreProtocol
  import opened Pipeline
  import opened History
  import opened PipelineInvariant
  import opened PipelineJournal

  /** Everything but what concerns message `id`. */
  ghost predicate InvBut(cfg: Config, s: Sys, id: MsgId) {
    && s.up
    && JournalOK(s.st.log, s.st.durable, s.hist)
    && (cfg.safeTail ==> TailOK(s.st.log, Stable(s.st), s.hist))
    && StoreInv(s.st) && ThreadsOK(s)
    && forall other :: other != id ==> MessageOK(s, other)
  }

  /** The states in which only message `id` may break the invariant. */
  ghost function AllBut(cfg: Config, id: MsgId): iset<Sys> { iset s: Sys | InvBut(cfg, s, id) }

  lemma {:induction false} Settle(cfg: Config, s: Sys, id: MsgId)
    requires s in AllBut(cfg, id) && MessageOK(s, id)
    ensures s in Invariant(cfg)
  {
  }

  lemma {:induction false} CurrentView(st: Store, id: MsgId)
    requires StoreInv(st)
    ensures id !in st.pend ==> Lookup(st.mem, id) == View(st.log, id)
    ensures id in st.pend ==> st.pend[id] < |st.log| && Lookup(st.mem, id) == View(st.log[..st.pend[id]], id)
  {
    assert PendOK(st, id) && MemOK(st, id);
  }

  // ------------------------------------------------------------------
  // An operation begins
  // ------------------------------------------------------------------

  lemma {:induction false} BeginKeepsOthers(s: Sys, e: Event, ph: Phase, other: MsgId)
    requires StoreInv(s.st) && MessageOK(s, other) && other != e.id && !s.st.failed
    ensures MessageOK(Begin(s, e, ph), other)
  {
    var s' := Begin(s, e, ph);
    ViewSnoc(s.st.log, e, other);
    assert s.st.log[..|s.st.log|] == s.st.log;
    if other in s.phase && (s.phase[other].Staged? || s.phase[other].Readying?) {
      SecuredSnoc(s.st.log, e, s.st.durable, other, Live);
    }
  }

  /** The guard of the store always holds: append is never refused for the message. */
  lemma {:induction false} LegalIsGuarded(m: Option<StoredMessage>, e: Event)
    requires LegalEvent(m, e)
    ensures Guard(m, e)
  {
  }

  /** The message's lock is free, its event is legal, and its thread may wait for it. */
  ghost predicate MayBegin(cfg: Config, s: Sys, e: Event, ph: Phase) {
    && s in AllBut(cfg, e.id) && !Refuses(s.st) && e.id !in s.st.pend
    && MayAppend(s.st.log, s.st.durable, s.hist, e)
    && Waiting(ph) && Awaits(ph, e) && Fits(ph, Lookup(s.st.mem, e.id))
    && (ph.Readying? ==> Secured(s.st.log, s.st.durable, e.id, Live))
    && PhaseOfHistory(s.hist, Some(ph), Lookup(s.st.mem, e.id), e.id)
    && PhaseOfThreads(s.(phase := s.phase[e.id := ph]), e.id)
  }

  lemma {:induction false} BeginSubmits(cfg: Config, s: Sys, e: Event, ph: Phase)
    requires MayBegin(cfg, s, e, ph)
    ensures CanSubmit(s.st, e) && StoreInv(Submit(s.st, e))
  {
    hide MayAppend, PhaseOfThreads, PhaseOfHistory, MessageOK;
    CurrentView(s.st, e.id);
    assert LegalEvent(View(s.st.log, e.id), e) by { AppendIsLegal(s, e); }
    LegalIsGuarded(View(s.st.log, e.id), e);
    SubmitInv(s.st, e);
  }

  lemma {:induction false} AppendIsLegal(s: Sys, e: Event)
    requires MayAppend(s.st.log, s.st.durable, s.hist, e)
    ensures LegalEvent(View(s.st.log, e.id), e)
  {
  }

  /** The message whose operation begins. */
  lemma {:induction false} BeginMessage(cfg: Config, s: Sys, e: Event, ph: Phase)
    requires MayBegin(cfg, s, e, ph)
    ensures MessageOK(Begin(s, e, ph), e.id)
  {
    hide AllBut, MayAppend;
    if ph.Readying? {
      BeginBound(cfg, s, e.id);
      ViewSnoc(s.st.log, e, e.id);
      assert s.st.log[..|s.st.log|] == s.st.log;
      SecuredSnoc(s.st.log, e, s.st.durable, e.id, Live);
    }
    assert PhaseOf(Begin(s, e, ph), e.id) == Some(ph);
  }

  lemma {:induction false} BeginBound(cfg: Config, s: Sys, id: MsgId)
    requires s in AllBut(cfg, id)
    ensures s.st.durable <= |s.st.log|
  {
  }

  lemma {:induction false} BeginInv(cfg: Config, s: Sys, e: Event, ph: Phase)
    requires MayBegin(cfg, s, e, ph)
    ensures CanSubmit(s.st, e)
    ensures Begin(s, e, ph) in Invariant(cfg)
  {
    hide PendOK, MemOK, MessageOK, PhaseOfThreads, PhaseOfHistory, MayAppend, JournalOK, TailOK;
    var s' := Begin(s, e, ph);
    BeginSubmits(cfg, s, e, ph);
    JournalAppend(s.st.log, s.st.durable, s.hist, e);
    if cfg.safeTail {
      TailAppend(s.st.log, Stable(s.st), s.hist, e);
    }
    forall other ensures MessageOK(s', other) {
      if other == e.id { BeginMessage(cfg, s, e, ph); } else { BeginKeepsOthers(s, e, ph, other); }
    }
  }

  /** A change of one message's phase and of things that concern no other message. */
  lemma {:induction false} PhaseOnly(cfg: Config, s: Sys, s': Sys, id: MsgId)
    requires s in AllBut(cfg, id)
    requires s'.st == s.st && s'.hist == s.hist && s'.up && s'.starting == s.starting
    requires forall other :: other != id ==> PhaseOf(s', other) == PhaseOf(s, other)
    requires s'.reader == s.reader && s'.bundle == s.bundle
    requires s'.publisher == s.publisher
      || (s'.publisher in {None, Some(id)} && s.publisher in {None, Some(id)})
    ensures s' in AllBut(cfg, id)
  {
    forall other | other != id ensures MessageOK(s', other) {
      assert MessageOK(s, other);
    }
  }

  /** An observation about one message concerns no other. */
  lemma {:induction false} ObserveOnly(cfg: Config, s: Sys, o: Obs, id: MsgId)
    requires s in AllBut(cfg, id)
    requires o.Enqueued? || o.CheckpointFailed? || o.Committed? || o.ReadyAcked? || o.Worked? || o.Failed? || o.ResultAcked?
    requires o.id == id && (o.Committed? ==> !s.starting)
    requires MayObserve(s.st.log, s.st.durable, s.hist, o)
    requires o.Enqueued? ==> Secured(s.st.log, Stable(s.st), o.id, PublishedTo(o.r, o.index))
    requires o.Enqueued? && cfg.safeTail ==> forall r, i: nat :: Enqueued(o.id, r, i) in s.hist ==> r == o.r && i <= o.index
    ensures Observe(s, o) in AllBut(cfg, id)
  {
    var s' := Observe(s, o);
    JournalObserve(s.st.log, s.st.durable, s.hist, o);
    if cfg.safeTail {
      TailObserve(s.st.log, Stable(s.st), s.hist, o);
    }
    SinceSnoc(s.hist, o);
    forall other | other != id ensures MessageOK(s', other) {
      assert MessageOK(s, other);
    }
  }

  /** Nothing is pending for a message whose thread is not waiting, unless the
      journal has failed. */
  lemma {:induction false} NotPending(s: Sys, id: MsgId)
    requires MessageOK(s, id) && id in s.phase && !Waiting(s.phase[id]) && !Refuses(s.st)
    ensures id !in s.st.pend
  {
  }

  lemma {:induction false} Opened(cfg: Config, s: Sys, id: MsgId)
    requires s in Invariant(cfg) && s.up
    ensures s in AllBut(cfg, id) && MessageOK(s, id) && StoreInv(s.st) && Legal(s.st.log)
  {
  }

  // ------------------------------------------------------------------
  // Workers
  // ------------------------------------------------------------------

  lemma {:induction false} GiveUpInv(cfg: Config, s: Sys, id: MsgId)
    requires s in Invariant(cfg) && s.up && Refuses(s.st)
    requires id in s.phase && Dispatched(s.phase[id]) && !WithPublisher(s.phase[id]) && s.phase[id] != Broken
    requires Waiting(s.phase[id]) ==> s.st.failed && !Covered(s.st, id)
    ensures GiveUp(s, id) in Invariant(cfg)
  {
    Opened(cfg, s, id);
    PhaseOnly(cfg, s, GiveUp(s, id), id);
    assert MessageOK(GiveUp(s, id), id);
  }

  lemma {:induction false} BeginWork(cfg: Config, s: Sys, id: MsgId, attempt: nat)
    requires s in Invariant(cfg) && s.up && !Refuses(s.st)
    requires id in s.phase && (s.phase[id].Queued? || s.phase[id].RetryDue?)
    ensures Begin(s, SetState(id, PROCESSING), Starting(attempt)) in Invariant(cfg)
  {
    hide Invariant, AllBut, StoreInv, Begin;
    Opened(cfg, s, id);
    NotPending(s, id);
    CurrentView(s.st, id);
    BeginInv(cfg, s, SetState(id, PROCESSING), Starting(attempt));
  }

  lemma {:induction false} BeginAttemptInv(cfg: Config, s: Sys, id: MsgId)
    requires s in Invariant(cfg) && s.up && EnabledUp(s, BeginAttempt(id))
    ensures DoBeginAttempt(s, id) in Invariant(cfg)
  {
    hide Invariant, AllBut, StoreInv, Begin, GiveUp;
    if Refuses(s.st) {
      GiveUpInv(cfg, s, id);
    } else {
      BeginWork(cfg, s, id, if s.phase[id].Queued? then 0 else s.phase[id].attempt);
    }
  }

  lemma {:induction false} BeginResult(cfg: Config, s: Sys, id: MsgId, r: Batch)
    requires s in Invariant(cfg) && s.up && !Refuses(s.st) && id in s.phase && s.phase[id].Working?
    ensures Begin(s, Result(id, r), Finishing) in Invariant(cfg)
  {
    hide Invariant, AllBut, StoreInv, Begin;
    Opened(cfg, s, id);
    NotPending(s, id);
    CurrentView(s.st, id);
    BeginInv(cfg, s, Result(id, r), Finishing);
  }

  lemma {:induction false} WorkReturnsInv(cfg: Config, s: Sys, id: MsgId, r: Batch)
    requires s in Invariant(cfg) && s.up && EnabledUp(s, WorkReturns(id, r))
    ensures (if Refuses(s.st) then GiveUp(s, id) else Begin(s, Result(id, r), Finishing)) in Invariant(cfg)
  {
    hide Invariant, Begin, GiveUp;
    if Refuses(s.st) {
      GiveUpInv(cfg, s, id);
    } else {
      BeginResult(cfg, s, id, r);
    }
  }

  lemma {:induction false} RetryInv(cfg: Config, s: Sys, id: MsgId)
    requires s in Invariant(cfg) && s.up && EnabledUp(s, WorkThrows(id, [])) && !Refuses(s.st)
    ensures Begin(s, Retry(id, s.st.mem[id].retryCount + 1), Retrying(s.phase[id].attempt)) in Invariant(cfg)
  {
    hide Invariant, AllBut, StoreInv;
    Opened(cfg, s, id);
    NotPending(s, id);
    CurrentView(s.st, id);
    BeginInv(cfg, s, Retry(id, s.st.mem[id].retryCount + 1), Retrying(s.phase[id].attempt));
  }

  lemma {:induction false} FailureObserved(cfg: Config, s: Sys, id: MsgId, text: Bytes)
    requires s in Invariant(cfg) && s.up && EnabledUp(s, WorkThrows(id, text))
    ensures Observe(s, Failed(id)) in Invariant(cfg)
    ensures EnabledUp(Observe(s, Failed(id)), WorkThrows(id, text))
  {
    Opened(cfg, s, id);
    SinceSnoc(s.hist, Failed(id));
    ObserveOnly(cfg, s, Failed(id), id);
    Settle(cfg, Observe(s, Failed(id)), id);
  }

  lemma {:induction false} WorkThrowsInv(cfg: Config, s: Sys, id: MsgId, text: Bytes)
    requires s in Invariant(cfg) && s.up && EnabledUp(s, WorkThrows(id, text))
    ensures DoWorkThrows(s, id, text) in Invariant(cfg)
  {
    hide Invariant, Begin, GiveUp;
    var t := Observe(s, Failed(id));
    FailureObserved(cfg, s, id, text);
    if Refuses(s.st) {
      GiveUpInv(cfg, t, id);
    } else if s.phase[id].attempt == MAX_RETRIES {
      BeginResult(cfg, t, id, ErrorResult(text));
    } else {
      RetryInv(cfg, t, id);
    }
  }

  // ------------------------------------------------------------------
  // Reader
  // ------------------------------------------------------------------

  lemma {:induction false} StopReaderInv(cfg: Config, s: Sys)
    requires s in Invariant(cfg) && s.up && !s.starting
    requires s.reader.Busy? ==> At(s, s.reader.id, Staged)
    ensures StopReader(s) in Invariant(cfg)
  {
    forall id ensures MessageOK(StopReader(s), id) {
      assert MessageOK(s, id);
    }
  }

  /** While the reader is idle nothing waits for its XA commit. */
  lemma {:induction false} IdleIsQuiet(s: Sys)
    requires StoreInv(s.st) && !s.starting && s.reader == Idle && !Refuses(s.st)
    requires forall id :: MessageOK(s, id)
    ensures Quiet(s.st.log)
  {
    forall id ensures !IsCommitting(View(s.st.log, id)) {
      assert MessageOK(s, id);
      CurrentView(s.st, id);
      if id in s.st.pend {
        PendingView(s.st, id);
      }
    }
  }

  lemma {:induction false} DequeueKnown(cfg: Config, s: Sys, id: MsgId)
    requires s in Invariant(cfg) && s.up && !s.starting && s.reader == Idle && id in s.st.mem
    ensures s.(reader := Known(id)) in Invariant(cfg)
  {
    forall other ensures MessageOK(s.(reader := Known(id)), other) {
      assert MessageOK(s, other);
    }
  }

  /** The idle reader takes a message into its hands. */
  lemma {:induction false} HoldsNew(cfg: Config, s: Sys, id: MsgId)
    requires s in Invariant(cfg) && s.up && !s.starting && s.reader == Idle && id !in s.st.mem
    ensures s.(reader := Busy(id)) in AllBut(cfg, id)
  {
    forall other | other != id ensures MessageOK(s.(reader := Busy(id)), other) {
      assert MessageOK(s, other);
    }
  }

  lemma {:induction false} QuietJournal(cfg: Config, s: Sys)
    requires s in Invariant(cfg) && s.up && !s.starting && s.reader == Idle && !Refuses(s.st)
    ensures Quiet(s.st.log)
  {
    IdleIsQuiet(s);
  }

  lemma {:induction false} DequeueNew(cfg: Config, s: Sys, id: MsgId, data: Bytes)
    requires s in Invariant(cfg) && s.up && EnabledUp(s, Dequeue(id, data)) && id !in s.st.mem && !Refuses(s.st)
    ensures Begin(s.(reader := Busy(id)), Stage(id, data), Staging) in Invariant(cfg)
  {
    hide Invariant, AllBut, StoreInv, Begin, Quiet;
    Opened(cfg, s, id);
    QuietJournal(cfg, s);
    CurrentView(s.st, id);
    HoldsNew(cfg, s, id);
    BeginInv(cfg, s.(reader := Busy(id)), Stage(id, data), Staging);
  }

  lemma {:induction false} DequeueInv(cfg: Config, s: Sys, id: MsgId, data: Bytes)
    requires s in Invariant(cfg) && s.up && EnabledUp(s, Dequeue(id, data))
    ensures DoDequeue(s, id, data) in Invariant(cfg)
  {
    if id in s.st.mem {
      DequeueKnown(cfg, s, id);
    } else if Refuses(s.st) {
      StopReaderInv(cfg, s);
    } else {
      DequeueNew(cfg, s, id, data);
    }
  }

  /** The message the reader holds for its XA commit is durably in the journal. */
  lemma {:induction false} CommitIsBacked(cfg: Config, s: Sys)
    requires s in Invariant(cfg) && s.up && EnabledUp(s, Commit(0, true))
    ensures Secured(s.st.log, s.st.durable, s.reader.id, Live)
  {
    var id := s.reader.id;
    Opened(cfg, s, id);
    if s.reader.Known? {
      CurrentView(s.st, id);
      if id in s.st.pend {
        FactsPersist(s.st.log, s.st.pend[id], id, AtLeastReady);
      }
    }
  }

  /** The commit takes effect. */
  lemma {:induction false} CommitObserved(cfg: Config, s: Sys)
    requires s in Invariant(cfg) && s.up && EnabledUp(s, Commit(0, true))
    ensures Observe(s, Committed(s.reader.id)) in Invariant(cfg)
    ensures EnabledUp(Observe(s, Committed(s.reader.id)), Commit(0, true))
  {
    var id := s.reader.id;
    Opened(cfg, s, id);
    CommitIsBacked(cfg, s);
    SinceSnoc(s.hist, Committed(id));
    ObserveOnly(cfg, s, Committed(id), id);
    Settle(cfg, Observe(s, Committed(id)), id);
  }

  lemma {:induction false} KnownDone(cfg: Config, s: Sys)
    requires s in Invariant(cfg) && s.up && !s.starting && s.reader.Known?
    ensures (s.(reader := Idle)) in Invariant(cfg)
  {
    forall other ensures MessageOK(s.(reader := Idle), other) {
      assert MessageOK(s, other);
    }
  }

  lemma {:induction false} BeginReady(cfg: Config, s: Sys)
    requires s in Invariant(cfg) && s.up && s.reader.Busy? && EnabledUp(s, Commit(0, true)) && !Refuses(s.st)
    ensures Begin(s, SetState(s.reader.id, READY), Readying) in Invariant(cfg)
  {
    hide Invariant, AllBut, StoreInv;
    var id := s.reader.id;
    Opened(cfg, s, id);
    NotPending(s, id);
    CurrentView(s.st, id);
    BeginInv(cfg, s, SetState(id, READY), Readying);
  }

  lemma {:induction false} CommitInv(cfg: Config, s: Sys, rc: int, effective: bool)
    requires s in Invariant(cfg) && s.up && EnabledUp(s, Commit(rc, effective))
    ensures DoCommit(s, rc, effective) in Invariant(cfg)
  {
    var t := if effective then Observe(s, Committed(s.reader.id)) else s;
    if effective {
      CommitObserved(cfg, s);
    }
    if rc != 0 || (s.reader.Busy? && Refuses(s.st)) {
      StopReaderInv(cfg, t);
    } else if s.reader.Known? {
      KnownDone(cfg, t);
    } else {
      BeginReady(cfg, t);
    }
  }

  // ------------------------------------------------------------------
  // Publisher
  // ------------------------------------------------------------------

  lemma {:induction false} PickResultInv(cfg: Config, s: Sys, id: MsgId)
    requires s in Invariant(cfg) && s.up && EnabledUp(s, PickResult(id))
    ensures (s.(phase := s.phase[id := Publishing(s.st.mem[id].publishedCount)], publisher := Some(id))) in Invariant(cfg)
  {
    hide Invariant, AllBut, StoreInv, Legal, Secured, Begin;
    Opened(cfg, s, id);
    CurrentView(s.st, id);
    ResultIsComplete(s.st, id);
    var s' := s.(phase := s.phase[id := Publishing(s.st.mem[id].publishedCount)], publisher := Some(id));
    PhaseOnly(cfg, s, s', id);
    assert MessageOK(s', id);
    Settle(cfg, s', id);
  }

  /** A count never exceeds the number of items. */
  lemma {:induction false} CountInRange(log: seq<Event>, id: MsgId)
    requires Legal(log)
    ensures View(log, id).Some? ==>
      var m := View(log, id).value;
      (m.publishedCount > 0 ==> m.result.Some?) && (m.result.Some? ==> m.publishedCount <= |m.result.value|)
  {
    if log != [] { CountInRange(log[..|log| - 1], id); }
  }

  lemma {:induction false} ResultIsComplete(st: Store, id: MsgId)
    requires StoreInv(st) && Legal(st.log) && id in st.mem && st.mem[id].result.Some?
    ensures st.mem[id].publishedCount <= |st.mem[id].result.value|
  {
    CurrentView(st, id);
    CountInRange(st.log, id);
    if id in st.pend {
      LegalPrefix(st.log, st.pend[id]);
      CountInRange(st.log[..st.pend[id]], id);
    }
  }

  /** What the publisher reads in memory is in every journal a crash can leave,
      provided the stable part is kept. */
  lemma {:induction false} MemoryIsStable(s: Sys, id: MsgId)
    requires StoreInv(s.st) && Legal(s.st.log) && MessageOK(s, id)
    requires id in s.phase && !Waiting(s.phase[id]) && id in s.st.mem && HasResult(Some(s.st.mem[id]))
    requires s.st.mem[id].result.Some?
    ensures View(s.st.log[..Stable(s.st)], id) == Some(s.st.mem[id])
    ensures Secured(s.st.log, Stable(s.st), id, PublishedTo(s.st.mem[id].result.value, s.st.mem[id].publishedCount))
  {
    CurrentView(s.st, id);
    assert PendOK(s.st, id);
    var p := if id in s.st.pend then s.st.pend[id] else |s.st.log|;
    assert s.st.log[..|s.st.log|] == s.st.log;
    var l := s.st.log[..p];
    forall q | Stable(s.st) <= q < p ensures l[q].id != id {
      assert l[q] == s.st.log[q];
      assert s.st.log[q].id in s.st.pend && s.st.pend[s.st.log[q].id] == q;
    }
    ViewSuffix(l, Stable(s.st), id);
    assert l[..Stable(s.st)] == s.st.log[..Stable(s.st)];
    FactsPersist(s.st.log, Stable(s.st), id, PublishedTo(s.st.mem[id].result.value, s.st.mem[id].publishedCount));
  }

  /** Memory is what the journal says up to the pending event, if there is one. */
  function MemoryLength(st: Store, id: MsgId): nat {
    if id in st.pend then st.pend[id] else |st.log|
  }

  lemma {:induction false} MemoryView(st: Store, id: MsgId)
    requires StoreInv(st)
    ensures MemoryLength(st, id) <= |st.log| && Lookup(st.mem, id) == View(st.log[..MemoryLength(st, id)], id)
  {
    CurrentView(st, id);
    assert st.log[..|st.log|] == st.log;
  }

  /** All earlier items have been enqueued. */
  lemma {:induction false} EarlierItems(st: Store, h: seq<Obs>, id: MsgId, j: nat)
    requires StoreInv(st) && Legal(st.log) && Witnessed(st.log, h)
    requires id in st.mem && HasResult(Some(st.mem[id])) && j < st.mem[id].publishedCount
    ensures st.mem[id].result.Some? && Enqueued(id, st.mem[id].result.value, j) in h
  {
    MemoryView(st, id);
    var p := MemoryLength(st, id);
    LegalPrefix(st.log, p);
    forall q | 0 <= q < p ensures st.log[..p][..q] == st.log[..q] {
    }
    CountedWereEnqueued(st.log[..p], h, id, j);
  }

  /** A result whose append was acknowledged is the one in memory. */
  lemma {:induction false} AckedResult(s: Sys, id: MsgId, r: Batch)
    requires StoreInv(s.st) && Durably(s.st.log, s.st.durable, s.hist) && ResultAcked(id, r) in s.hist
    requires s.st.durable <= MemoryLength(s.st, id)
    ensures Meets(Lookup(s.st.mem, id), ResultIs(r))
  {
    MemoryView(s.st, id);
    assert Secured(s.st.log, s.st.durable, id, ResultIs(r));
  }

  /** The next item may be enqueued. */
  lemma {:induction false} EnqueueIsAdmissible(cfg: Config, s: Sys)
    requires s in Invariant(cfg) && s.up && EnabledUp(s, EnqueueItem)
    ensures MayObserve(s.st.log, s.st.durable, s.hist, NextEnqueue(s))
  {
    var id := s.publisher.value;
    assert MessageOK(s, id);
    var r := s.st.mem[id].result.value;
    var i := s.phase[id].index;
    forall j: nat | j < i ensures Enqueued(id, r, j) in s.hist {
      EarlierItems(s.st, s.hist, id, j);
    }
    forall r' | ResultAcked(id, r') in s.hist ensures r' == r {
      AckedResult(s, id, r');
    }
  }

  lemma {:induction false} EnqueueKeepsOrder(cfg: Config, s: Sys)
    requires s in Invariant(cfg) && s.up && EnabledUp(s, EnqueueItem)
    ensures var id := s.publisher.value;
      Secured(s.st.log, Stable(s.st), id, PublishedTo(s.st.mem[id].result.value, s.phase[id].index))
    ensures var id := s.publisher.value;
      cfg.safeTail ==> forall r, i: nat :: Enqueued(id, r, i) in s.hist ==> r == s.st.mem[id].result.value && i <= s.phase[id].index
  {
    var id := s.publisher.value;
    Opened(cfg, s, id);
    MemoryIsStable(s, id);
    if cfg.safeTail {
      forall r, i: nat | Enqueued(id, r, i) in s.hist ensures r == s.st.mem[id].result.value && i <= s.phase[id].index {
        assert Meets(View(s.st.log[..Stable(s.st)], id), PublishedTo(r, i));
      }
    }
  }

  lemma {:induction false} EnqueueObserved(cfg: Config, s: Sys)
    requires s in Invariant(cfg) && s.up && EnabledUp(s, EnqueueItem)
    ensures Observe(s, NextEnqueue(s)) in AllBut(cfg, s.publisher.value)
  {
    Opened(cfg, s, s.publisher.value);
    EnqueueIsAdmissible(cfg, s);
    EnqueueKeepsOrder(cfg, s);
    ObserveOnly(cfg, s, NextEnqueue(s), s.publisher.value);
  }

  /** A refused checkpoint ends the window in which another copy would have to be matched. */
  lemma {:induction false} RefusedHistory(h: seq<Obs>, m: Option<StoredMessage>, id: MsgId, r: Batch, i: nat)
    requires PhaseOfHistory(h, Some(Publishing(i)), m, id) && Fits(Publishing(i), m)
    ensures PhaseOfHistory(h + [Enqueued(id, r, i)] + [CheckpointFailed(id)], Some(Resolved), m, id)
  {
    SinceSnoc(h, Enqueued(id, r, i));
    SinceSnoc(h + [Enqueued(id, r, i)], CheckpointFailed(id));
  }

  lemma {:induction false} EnqueueRefused(cfg: Config, s: Sys, id: MsgId, r: Batch, i: nat)
    requires s in Invariant(cfg) && s.up && Refuses(s.st) && At(s, id, Publishing(i)) && s.publisher == Some(id)
    requires Observe(s, Enqueued(id, r, i)) in AllBut(cfg, id)
    ensures Unpublish(Observe(Observe(s, Enqueued(id, r, i)), CheckpointFailed(id)), id) in Invariant(cfg)
  {
    hide Invariant, AllBut, StoreInv, Legal, Unpublish, PhaseOfHistory, Secured;
    var t := Observe(s, Enqueued(id, r, i));
    Opened(cfg, s, id);
    RefusedHistory(s.hist, Lookup(s.st.mem, id), id, r, i);
    FailureIsAdmissible(cfg, t, id);
    ObserveOnly(cfg, t, CheckpointFailed(id), id);
    UnpublishInv(cfg, Observe(t, CheckpointFailed(id)), id);
  }

  lemma {:induction false} FailureIsAdmissible(cfg: Config, s: Sys, id: MsgId)
    requires s in AllBut(cfg, id)
    ensures MayObserve(s.st.log, s.st.durable, s.hist, CheckpointFailed(id))
  {
  }

  /** The publisher drops a message whose checkpoint or DONE could not be written. */
  lemma {:induction false} UnpublishInv(cfg: Config, s: Sys, id: MsgId)
    requires s in AllBut(cfg, id) && Refuses(s.st) && s.publisher == Some(id)
    requires id in s.phase && WithPublisher(s.phase[id]) && Fits(s.phase[id], Lookup(s.st.mem, id))
    requires PendOfPhase(s.st, Some(s.phase[id]), id) && !Covered(s.st, id)
    requires Waiting(s.phase[id]) ==> s.st.failed
    requires PhaseOfThreads(s, id)
    requires PhaseOfHistory(s.hist, Some(Resolved), Lookup(s.st.mem, id), id)
    ensures Unpublish(s, id) in Invariant(cfg)
  {
    var u := Unpublish(s, id);
    PhaseOnly(cfg, s, u, id);
    assert MessageOK(u, id);
  }

  lemma {:induction false} EnqueueHistory(h: seq<Obs>, m: Option<StoredMessage>, id: MsgId, r: Batch, i: nat)
    requires PhaseOfHistory(h, Some(Publishing(i)), m, id) && Fits(Publishing(i), m)
    ensures PhaseOfHistory(h + [Enqueued(id, r, i)], Some(Checkpointing(i)), m, id)
    ensures Enqueued(id, r, i) in h + [Enqueued(id, r, i)]
  {
    SinceSnoc(h, Enqueued(id, r, i));
    assert (h + [Enqueued(id, r, i)])[|h|] == Enqueued(id, r, i);
  }

  lemma {:induction false} EnqueueMayAppend(s: Sys, id: MsgId, i: nat)
    requires StoreInv(s.st) && MessageOK(s, id) && !Refuses(s.st) && At(s, id, Publishing(i))
    requires i < |s.st.mem[id].result.value|
    ensures id !in s.st.pend
    ensures MayAppend(s.st.log, s.st.durable, s.hist + [Enqueued(id, s.st.mem[id].result.value, i)], Published(id, i + 1))
  {
    NotPending(s, id);
    CurrentView(s.st, id);
    EnqueueHistory(s.hist, Lookup(s.st.mem, id), id, s.st.mem[id].result.value, i);
  }

  lemma {:induction false} EnqueueAccepted(cfg: Config, s: Sys, id: MsgId, r: Batch, i: nat)
    requires s in Invariant(cfg) && s.up && !Refuses(s.st) && At(s, id, Publishing(i)) && i < |r|
    requires id in s.st.mem && s.st.mem[id].result == Some(r)
    requires Observe(s, Enqueued(id, r, i)) in AllBut(cfg, id)
    ensures Begin(Observe(s, Enqueued(id, r, i)), Published(id, i + 1), Checkpointing(i)) in Invariant(cfg)
  {
    hide Invariant, AllBut, MayAppend, StoreInv, Begin, PhaseOfHistory, PendOfPhase;
    Opened(cfg, s, id);
    EnqueueMayAppend(s, id, i);
    EnqueueHistory(s.hist, Lookup(s.st.mem, id), id, r, i);
    BeginInv(cfg, Observe(s, Enqueued(id, r, i)), Published(id, i + 1), Checkpointing(i));
  }

  lemma {:induction false} EnqueueItemInv(cfg: Config, s: Sys)
    requires s in Invariant(cfg) && s.up && EnabledUp(s, EnqueueItem)
    ensures DoEnqueueItem(s) in Invariant(cfg)
  {
    hide Invariant, AllBut, Begin;
    EnqueueObserved(cfg, s);
    var id := s.publisher.value;
    if Refuses(s.st) {
      EnqueueRefused(cfg, s, id, s.st.mem[id].result.value, s.phase[id].index);
    } else {
      EnqueueAccepted(cfg, s, id, s.st.mem[id].result.value, s.phase[id].index);
    }
  }

  lemma {:induction false} DoneMayAppend(s: Sys, id: MsgId, i: nat)
    requires StoreInv(s.st) && MessageOK(s, id) && !Refuses(s.st) && At(s, id, Publishing(i))
    requires i >= |s.st.mem[id].result.value|
    ensures id !in s.st.pend && MayAppend(s.st.log, s.st.durable, s.hist, SetState(id, DONE))
    ensures Fits(Closing, Lookup(s.st.mem, id)) && PhaseOfHistory(s.hist, Some(Closing), Lookup(s.st.mem, id), id)
  {
    hide StoreInv;
    NotPending(s, id);
    CurrentView(s.st, id);
  }

  lemma {:induction false} BeginDone(cfg: Config, s: Sys, id: MsgId)
    requires s in Invariant(cfg) && s.up && EnabledUp(s, FinishPublishing) && !Refuses(s.st) && s.publisher == Some(id)
    ensures Begin(s, SetState(id, DONE), Closing) in Invariant(cfg)
  {
    hide Invariant, AllBut, StoreInv, Begin, MayAppend, PhaseOfHistory, PendOfPhase;
    Opened(cfg, s, id);
    DoneMayAppend(s, id, s.phase[id].index);
    BeginInv(cfg, s, SetState(id, DONE), Closing);
  }

  lemma {:induction false} FinishPublishingInv(cfg: Config, s: Sys)
    requires s in Invariant(cfg) && s.up && EnabledUp(s, FinishPublishing)
    ensures DoFinishPublishing(s) in Invariant(cfg)
  {
    hide Invariant, AllBut, StoreInv, Begin, Unpublish;
    var id := s.publisher.value;
    if Refuses(s.st) {
      Opened(cfg, s, id);
      UnpublishInv(cfg, s, id);
    } else {
      BeginDone(cfg, s, id);
    }
  }
}
