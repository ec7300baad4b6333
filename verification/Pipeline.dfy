/** The bundle pipeline as a state machine: reader, dispatcher, workers,
    publisher and journal writer interleave freely, and the process or the
    machine may stop between any two steps. */
module Pipeline {
  import opened Wrappers
  import opened Journal
  import opened StoreProtocol

  const MAX_RETRIES := 3

  /** Which thread holds a message, and where in its code. */
  datatype Phase =
    // startup
    | Leftover                      // recovered COMMITTING
    | Discarding                    // waits for DISCARD
    | Recovered                     // recovered unfinished, not yet re-bundled
    // reader
    | Staging                       // waits for STAGE
    | Staged                        // durable intent, XA commit not yet called
    | Readying                      // XA committed, waits for READY
    | Bundling                      // in the reader's local bundle
    // workers
    | Queued                        // handed to bundleQueue
    | Starting(attempt: nat)        // waits for PROCESSING
    | Working(attempt: nat)         // business code runs
    | Finishing                     // waits for RESULT
    | Retrying(attempt: nat)        // waits for RETRY
    | RetryDue(attempt: nat)        // sleeps before the given attempt
    // publisher
    | Resolved                      // has a result, not being published
    | Publishing(index: nat)        // next item to enqueue
    | Checkpointing(index: nat)     // item enqueued, waits for PUBLISHED
    | Closing                       // waits for DONE
    | Finished
    // a thread gave up on it
    | Broken

  datatype ReaderPc = Idle | Busy(id: MsgId) | Known(id: MsgId) | Stopped

  /** What an outside observer could see. */
  datatype Obs =
    | Started
    | Halted
    | Committed(id: MsgId)          // an XA commit took effect
    | ReadyAcked(id: MsgId)         // setState(READY) returned
    | Discarded(id: MsgId)          // startup begins to discard
    | Bundled(ids: seq<MsgId>)      // put on bundleQueue
    | Worked(id: MsgId)             // business code called
    | Failed(id: MsgId)             // and it threw
    | ResultAcked(id: MsgId, r: Batch)
    | Enqueued(id: MsgId, r: Batch, index: nat)
    | CheckpointFailed(id: MsgId)

  /** `safeTail`: a power loss never loses lines that a restart has already read back. */
  datatype Config = Config(safeTail: bool)

  datatype Sys = Sys(
    up: bool, torn: bool, st: Store,
    running: bool, starting: bool,
    phase: map<MsgId, Phase>,
    reader: ReaderPc, bundle: seq<MsgId>, publisher: Option<MsgId>,
    hist: seq<Obs>)

  datatype Step =
    | Start
    | BeginDiscard(id: MsgId)
    | FinishStartup(order: seq<MsgId>)
    | Dequeue(id: MsgId, data: Bytes)
    | HealthCheck(rc: int)
    | Commit(rc: int, effective: bool)
    | FlushBundle
    | BeginAttempt(id: MsgId)
    | WorkReturns(id: MsgId, r: Batch)
    | WorkThrows(id: MsgId, text: Bytes)  // the input, decoded and encoded again
    | PickResult(id: MsgId)
    | EnqueueItem
    | FinishPublishing
    | AckOp(id: MsgId)
    | FailOp(id: MsgId)
    | JournalWrite
    | JournalForce
    | JournalFails
    | CloseStore
    | StopRunning
    | ProcessCrash(torn: bool)
    | PowerLoss(keep: nat, torn: bool)

  function EmptyStore(): Store { Store([], 0, 0, 0, false, false, map[], map[]) }

  function Init(): Sys {
    Sys(false, false, EmptyStore(), false, false, map[], Idle, [], None, [])
  }

  // ------------------------------------------------------------------
  // Step relation
  // ------------------------------------------------------------------

  predicate Waiting(ph: Phase) {
    ph.Discarding? || ph.Staging? || ph.Readying? || ph.Starting? || ph.Finishing?
    || ph.Retrying? || ph.Checkpointing? || ph.Closing?
  }

  predicate At(s: Sys, id: MsgId, ph: Phase) { id in s.phase && s.phase[id] == ph }

  predicate PublisherAt(s: Sys) {
    && s.publisher.Some? && s.publisher.value in s.phase && s.phase[s.publisher.value].Publishing?
    && s.publisher.value in s.st.mem && s.st.mem[s.publisher.value].result.Some?
  }

  ghost predicate Enabled(cfg: Config, s: Sys, step: Step) {
    match step
    case Start => !s.up
    case PowerLoss(keep, _) =>
      && s.st.durable <= keep <= s.st.written
      && (cfg.safeTail ==> s.st.recovered <= keep)
    case _ => s.up && EnabledUp(s, step)
  }

  ghost predicate EnabledUp(s: Sys, step: Step) {
    match step
    case BeginDiscard(id) => s.starting && At(s, id, Leftover) && !Refuses(s.st)
    case FinishStartup(order) =>
      && s.starting
      && (forall id :: id in s.phase ==> !s.phase[id].Leftover? && !s.phase[id].Discarding?)
      && NoDuplicates(order)
      && (forall id :: id in order <==> At(s, id, Recovered))
    case Dequeue(_, _) => !s.starting && s.running && s.reader == Idle
    case HealthCheck(_) => !s.starting && s.running && s.reader == Idle
    case Commit(rc, effective) =>
      && (rc == 0 ==> effective)
      && (s.reader.Known? || (s.reader.Busy? && At(s, s.reader.id, Staged)))
    case FlushBundle => s.bundle != []
    case BeginAttempt(id) => id in s.phase && (s.phase[id].Queued? || s.phase[id].RetryDue?)
    case WorkReturns(id, _) => id in s.phase && s.phase[id].Working?
    case WorkThrows(id, _) => id in s.phase && s.phase[id].Working? && id in s.st.mem
    case PickResult(id) =>
      && !s.starting && s.running && s.publisher == None
      && At(s, id, Resolved) && id in s.st.mem
    case EnqueueItem =>
      && s.running && PublisherAt(s)
      && s.phase[s.publisher.value].index < |s.st.mem[s.publisher.value].result.value|
    case FinishPublishing =>
      && PublisherAt(s)
      && s.phase[s.publisher.value].index >= |s.st.mem[s.publisher.value].result.value|
    case AckOp(id) =>
      id in s.phase && Waiting(s.phase[id]) && Covered(s.st, id) && s.st.durable <= |s.st.log|
    case FailOp(id) =>
      && id in s.phase && Waiting(s.phase[id]) && !s.phase[id].Discarding?
      && s.st.failed && !Covered(s.st, id)
    case JournalWrite => !s.st.failed && s.st.written < |s.st.log|
    case JournalForce => !s.st.failed
    case JournalFails => !s.st.failed && s.st.written <= |s.st.log|
    case CloseStore => true
    case StopRunning => true
    case ProcessCrash(_) => s.st.written <= |s.st.log|
    case _ => false
  }

  /** An operation begins: its event is accepted and its thread waits. */
  function Begin(s: Sys, e: Event, ph: Phase): Sys {
    s.(st := Submit(s.st, e), phase := s.phase[e.id := ph])
  }

  function Observe(s: Sys, o: Obs): Sys { s.(hist := s.hist + [o]) }

  /** A worker's catch-all: leave the message to recovery. */
  function GiveUp(s: Sys, id: MsgId): Sys {
    s.(phase := s.phase[id := Broken], running := false)
  }

  function StopReader(s: Sys): Sys { s.(reader := Stopped, running := false) }

  function StartPhase(m: StoredMessage): Phase {
    match m.state
    case COMMITTING => Leftover
    case RESULT_PENDING => Resolved
    case DONE => Finished
    case _ => Recovered
  }

  /** recoverJournal, then the threads' initial positions. Only a torn tail makes
      recovery force the file. */
  function DoStart(s: Sys): Sys {
    var mem := if Replay(s.st.log).Some? then Replay(s.st.log).value else map[];
    Sys(true, false, Open(s.st.log, if s.torn then |s.st.log| else s.st.durable, mem),
        true, true, map id | id in mem :: StartPhase(mem[id]),
        Idle, [], None, s.hist + [Started])
  }

  function QueueAll(phase: map<MsgId, Phase>, ids: seq<MsgId>): map<MsgId, Phase> {
    map id | id in phase :: if id in ids then Queued else phase[id]
  }

  function DoCommit(s: Sys, rc: int, effective: bool): Sys
    requires s.reader.Known? || s.reader.Busy?
  {
    var id := s.reader.id;
    var t := if effective then Observe(s, Committed(id)) else s;
    if rc != 0 then StopReader(t)
    else if s.reader.Known? then t.(reader := Idle)
    else if Refuses(s.st) then StopReader(t)
    else Begin(t, SetState(id, READY), Readying)
  }

  function DoDequeue(s: Sys, id: MsgId, data: Bytes): Sys {
    if id in s.st.mem then s.(reader := Known(id))
    else if Refuses(s.st) then StopReader(s)
    else Begin(s, Stage(id, data), Staging).(reader := Busy(id))
  }

  /** processMessage up to the PROCESSING append of one attempt. */
  function DoBeginAttempt(s: Sys, id: MsgId): Sys
    requires id in s.phase && (s.phase[id].Queued? || s.phase[id].RetryDue?)
  {
    if s.phase[id].Queued? && (id !in s.st.mem || HasResult(Lookup(s.st.mem, id))) then s
    else if Refuses(s.st) then GiveUp(s, id)
    else Begin(s, SetState(id, PROCESSING), Starting(if s.phase[id].Queued? then 0 else s.phase[id].attempt))
  }

  function ErrorResult(text: Bytes): Batch { [Item(ERROR, text)] }

  function DoWorkThrows(s: Sys, id: MsgId, text: Bytes): Sys
    requires id in s.phase && s.phase[id].Working? && id in s.st.mem
  {
    var attempt := s.phase[id].attempt;
    var t := Observe(s, Failed(id));
    if Refuses(s.st) then GiveUp(t, id)
    else if attempt == MAX_RETRIES then Begin(t, Result(id, ErrorResult(text)), Finishing)
    else Begin(t, Retry(id, s.st.mem[id].retryCount + 1), Retrying(attempt))
  }

  /** The publisher drops a message; a later pass picks it again. */
  function Unpublish(s: Sys, id: MsgId): Sys {
    s.(phase := s.phase[id := Resolved], publisher := None)
  }

  function NextEnqueue(s: Sys): Obs
    requires PublisherAt(s)
  {
    var id := s.publisher.value;
    Enqueued(id, s.st.mem[id].result.value, s.phase[id].index)
  }

  /** One turn of publishOne's loop: enqueue, then ask for the checkpoint. */
  function DoEnqueueItem(s: Sys): Sys
    requires PublisherAt(s)
  {
    var id := s.publisher.value;
    var t := Observe(s, NextEnqueue(s));
    if Refuses(s.st)
    then Unpublish(Observe(t, CheckpointFailed(id)), id)
    else Begin(t, Published(id, s.phase[id].index + 1), Checkpointing(s.phase[id].index))
  }

  function DoFinishPublishing(s: Sys): Sys
    requires s.publisher.Some?
  {
    var id := s.publisher.value;
    if Refuses(s.st) then Unpublish(s, id)
    else Begin(s, SetState(id, DONE), Closing)
  }

  /** The waiting thread wakes up: memory is updated and the lock released. */
  function DoAck(s: Sys, id: MsgId): Sys
    requires id in s.phase && id in s.st.pend && s.st.pend[id] < |s.st.log|
  {
    var e := s.st.log[s.st.pend[id]];
    var t := s.(st := Ack(s.st, id));
    match s.phase[id]
    case Discarding => t.(phase := s.phase - {id})
    case Staging => t.(phase := s.phase[id := Staged])
    case Readying => Observe(t, ReadyAcked(id)).(phase := s.phase[id := Bundling], reader := Idle, bundle := s.bundle + [id])
    case Starting(a) => Observe(t, Worked(id)).(phase := s.phase[id := Working(a)])
    case Finishing =>
      Observe(t, ResultAcked(id, if e.Result? then e.result else [])).(phase := s.phase[id := Resolved])
    case Retrying(a) => t.(phase := s.phase[id := RetryDue(a + 1)])
    case Checkpointing(i) => t.(phase := s.phase[id := Publishing(i + 1)])
    case Closing => t.(phase := s.phase[id := Finished], publisher := None)
    case _ => t
  }

  /** The waiting thread gets the journal failure. */
  function DoFailOp(s: Sys, id: MsgId): Sys
    requires id in s.phase
  {
    match s.phase[id]
    case Staging => StopReader(GiveUp(s, id))
    case Readying => StopReader(GiveUp(s, id))
    case Checkpointing(_) => Unpublish(Observe(s, CheckpointFailed(id)), id)
    case Closing => Unpublish(s, id)
    case _ => GiveUp(s, id)
  }

  function Dead(s: Sys, log: seq<Event>, durable: nat, torn: bool): Sys {
    Sys(false, torn, Store(log, |log|, durable, if s.st.recovered <= |log| then s.st.recovered else |log|,
                           false, false, map[], map[]),
        false, false, map[], Idle, [], None, s.hist + [Halted])
  }

  ghost function Do(cfg: Config, s: Sys, step: Step): Sys
    requires Enabled(cfg, s, step)
  {
    match step
    case Start => DoStart(s)
    case BeginDiscard(id) =>
      Begin(Observe(s, Discarded(id)), Discard(id), Discarding)
    case FinishStartup(order) =>
      s.(phase := QueueAll(s.phase, order), starting := false, hist := s.hist + [Bundled(order)])
    case Dequeue(id, data) => DoDequeue(s, id, data)
    case HealthCheck(rc) => if rc == 0 then s else StopReader(s)
    case Commit(rc, effective) => DoCommit(s, rc, effective)
    case FlushBundle =>
      s.(phase := QueueAll(s.phase, s.bundle), bundle := [], hist := s.hist + [Bundled(s.bundle)])
    case BeginAttempt(id) => DoBeginAttempt(s, id)
    case WorkReturns(id, r) =>
      if Refuses(s.st) then GiveUp(s, id) else Begin(s, Result(id, r), Finishing)
    case WorkThrows(id, text) => DoWorkThrows(s, id, text)
    case PickResult(id) =>
      s.(phase := s.phase[id := Publishing(s.st.mem[id].publishedCount)], publisher := Some(id))
    case EnqueueItem => DoEnqueueItem(s)
    case FinishPublishing => DoFinishPublishing(s)
    case AckOp(id) => DoAck(s, id)
    case FailOp(id) => DoFailOp(s, id)
    case JournalWrite => s.(st := Write(s.st))
    case JournalForce => s.(st := Force(s.st))
    case JournalFails => s.(st := Fail(s.st))
    case CloseStore => s.(st := Close(s.st))
    case StopRunning => s.(running := false)
    case ProcessCrash(torn) => Dead(s, s.st.log[..s.st.written], s.st.durable, torn)
    case PowerLoss(keep, torn) =>
      if keep <= |s.st.log| then Dead(s, s.st.log[..keep], keep, torn) else s
  }

  // ------------------------------------------------------------------
  // Runs
  // ------------------------------------------------------------------

  ghost predicate Runs(cfg: Config, s: Sys, steps: seq<Step>)
    decreases |steps|
  {
    steps == [] || (Enabled(cfg, s, steps[0]) && Runs(cfg, Do(cfg, s, steps[0]), steps[1..]))
  }

  ghost function After(cfg: Config, s: Sys, steps: seq<Step>): Sys
    requires Runs(cfg, s, steps)
    decreases |steps|
  {
    if steps == [] then s else After(cfg, Do(cfg, s, steps[0]), steps[1..])
  }
}
