/** The invariant of the pipeline. */
module PipelineInvariant {
  import opened Wrappers
  import opened Journal
  import opened StoreProtocol
  import opened Pipeline
  import opened History

  // ------------------------------------------------------------------
  // Journal against history: also true while the process is down
  // ------------------------------------------------------------------

  /** Every PUBLISHED event follows the enqueue it records. */
  ghost predicate Witnessed(log: seq<Event>, h: seq<Obs>) {
    forall p :: 0 <= p < |log| && log[p].Published? ==>
      var m := View(log[..p], log[p].id);
      && m.Some? && m.value.result.Some? && log[p].count > 0
      && Enqueued(log[p].id, m.value.result.value, log[p].count - 1) in h
  }

  ghost predicate Durably(log: seq<Event>, durable: nat, h: seq<Obs>) {
    && (forall id :: PastCommit(View(log, id)) ==> Secured(log, durable, id, Live))
    && (forall id :: CommittedOpen(h, id) ==> Secured(log, durable, id, Live))
    && (forall id :: ReadyAcked(id) in h ==> Secured(log, durable, id, AtLeastReady))
    && (forall id, r :: ResultAcked(id, r) in h ==> Secured(log, durable, id, ResultIs(r)))
  }

  /** What was enqueued is remembered by every journal a crash can leave. */
  ghost predicate Remembered(log: seq<Event>, stable: nat, h: seq<Obs>) {
    forall id, r, i: nat :: Enqueued(id, r, i) in h ==> Secured(log, stable, id, PublishedTo(r, i))
  }

  ghost predicate JournalOK(log: seq<Event>, durable: nat, h: seq<Obs>) {
    && durable <= |log|
    && Legal(log)
    && Witnessed(log, h)
    && Durably(log, durable, h)
    && Good(h)
  }

  ghost predicate TailOK(log: seq<Event>, stable: nat, h: seq<Obs>) {
    stable <= |log| && Remembered(log, stable, h) && InOrder(h)
  }

  // ------------------------------------------------------------------
  // One message while the process is up
  // ------------------------------------------------------------------

  function PhaseOf(s: Sys, id: MsgId): Option<Phase> {
    if id in s.phase then Some(s.phase[id]) else None
  }

  /** What memory says about a message in each phase. */
  predicate Fits(ph: Phase, m: Option<StoredMessage>) {
    match ph
    case Staging => m.None?
    case Leftover => IsCommitting(m)
    case Discarding => IsCommitting(m)
    case Staged => IsCommitting(m)
    case Readying => IsCommitting(m)
    case Bundling => m.Some? && m.value.state == READY
    case Recovered => Unfinished(m)
    case Queued => Unfinished(m)
    case Starting(_) => Unfinished(m)
    case Working(_) => m.Some? && m.value.state == PROCESSING
    case Finishing => m.Some? && m.value.state == PROCESSING
    case Retrying(_) => m.Some? && m.value.state == PROCESSING
    case RetryDue(_) => m.Some? && m.value.state == RETRY_WAIT
    case Resolved => m.Some? && m.value.state == RESULT_PENDING && m.value.result.Some?
    case Publishing(i) =>
      && m.Some? && m.value.state == RESULT_PENDING && m.value.result.Some?
      && m.value.publishedCount == i <= |m.value.result.value|
    case Checkpointing(i) =>
      && m.Some? && m.value.state == RESULT_PENDING && m.value.result.Some?
      && m.value.publishedCount == i < |m.value.result.value|
    case Closing =>
      && m.Some? && m.value.state == RESULT_PENDING && m.value.result.Some?
      && m.value.publishedCount == |m.value.result.value|
    case Finished => m.Some? && m.value.state == DONE
    case Broken => true
  }

  /** The event a waiting phase waits for. */
  predicate Awaits(ph: Phase, e: Event) {
    match ph
    case Discarding => e.Discard?
    case Staging => e.Stage?
    case Readying => e == SetState(e.id, READY)
    case Starting(_) => e == SetState(e.id, PROCESSING)
    case Finishing => e.Result?
    case Retrying(_) => e.Retry?
    case Checkpointing(i) => e == Published(e.id, i + 1)
    case Closing => e == SetState(e.id, DONE)
    case _ => false
  }

  predicate AtStartupOnly(ph: Phase) { ph.Leftover? || ph.Discarding? || ph.Recovered? }
  predicate WithReader(ph: Phase) { ph.Staging? || ph.Staged? || ph.Readying? }
  predicate WithPublisher(ph: Phase) { ph.Publishing? || ph.Checkpointing? || ph.Closing? }
  predicate Dispatched(ph: Phase) {
    !AtStartupOnly(ph) && !WithReader(ph) && !ph.Bundling?
  }

  ghost predicate PendOfPhase(st: Store, ph: Option<Phase>, id: MsgId) {
    && (id in st.pend ==>
          && st.pend[id] < |st.log| && ph.Some?
          && ((Waiting(ph.value) && Awaits(ph.value, st.log[st.pend[id]]))
              || (st.failed && st.durable <= st.pend[id])))
    && (ph.Some? && Waiting(ph.value) && id !in st.pend ==> st.failed)
    && (ph == Some(Broken) ==> Refuses(st))
    && (ph.Some? && (ph.value.Staged? || ph.value.Readying?) ==> Secured(st.log, st.durable, id, Live))
  }

  ghost predicate PhaseOfHistory(h: seq<Obs>, ph: Option<Phase>, m: Option<StoredMessage>, id: MsgId) {
    && (BundledSince(h, id) ==> ph.Some? && Dispatched(ph.value))
    && (forall i: nat :: EnqueuedSince(h, id, i) ==>
          ph.Some? && (ph.value == Checkpointing(i) || (HasResult(m) && m.value.publishedCount > i)))
    && (DiscardedSinceStart(h) ==> ph != Some(Leftover))
  }

  ghost predicate PhaseOfThreads(s: Sys, id: MsgId) {
    var ph := PhaseOf(s, id);
    && (ph.Some? && AtStartupOnly(ph.value) ==> s.starting)
    && (ph.Some? && WithReader(ph.value) ==> s.reader == Busy(id) || (s.reader == Stopped && ph.value.Staged?))
    && (ph.Some? && WithPublisher(ph.value) <==> s.publisher == Some(id))
    && (id in s.bundle <==> ph == Some(Bundling))
    && (s.reader == Known(id) ==> PastCommit(Lookup(s.st.mem, id)))
    && (ph == Some(Broken) && IsCommitting(Lookup(s.st.mem, id)) ==> s.reader == Stopped)
  }

  ghost predicate MessageOK(s: Sys, id: MsgId) {
    var ph := PhaseOf(s, id);
    var m := Lookup(s.st.mem, id);
    && (ph.None? ==> m.None?)
    && (ph.Some? ==> Fits(ph.value, m))
    && PendOfPhase(s.st, ph, id)
    && PhaseOfHistory(s.hist, ph, m, id)
    && PhaseOfThreads(s, id)
  }

  ghost predicate ThreadsOK(s: Sys) {
    && NoDuplicates(s.bundle)
    && (s.starting ==> s.reader == Idle && !CommittedSinceStart(s.hist))
    && Started in s.hist
  }

  ghost predicate Inv(cfg: Config, s: Sys) {
    && s.st.durable <= s.st.written <= |s.st.log| && s.st.recovered <= s.st.written
    && JournalOK(s.st.log, s.st.durable, s.hist)
    && (cfg.safeTail ==> TailOK(s.st.log, Stable(s.st), s.hist))
    && (s.up ==> StoreInv(s.st) && ThreadsOK(s) && forall id :: MessageOK(s, id))
    && (!s.up ==> s.st.written == |s.st.log|)
  }

  /** The states the invariant allows. */
  ghost function Invariant(cfg: Config): iset<Sys> { iset s: Sys | Inv(cfg, s) }
}
