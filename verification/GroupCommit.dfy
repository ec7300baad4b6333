/** The journal thread: it batches requests, writes each batch in one buffer,
    forces once, and only then releases the waiting callers. */
module GroupCommit {
  import opened Journal

  const JOURNAL_BATCH_MAX := 64

  datatype Status = Waiting | Succeeded | Failed

  datatype Pc =
    | Polling                      // about to poll for a first request
    | PolledNull                   // the queue was empty
    | SawClosing                   // and `closing` was set
    | Collecting                   // a batch is being collected
    | Writing(remaining: Bytes)    // the rest of the buffer
    | Forcing
    | Completing(next: nat)        // releases the batch's callers
    | Failing                      // caught an exception, before failJournal's lock
    | Stopped

  /** `sent` is the lines of all accepted requests in the order they were enqueued.
      The batch is sent[batch..taken], the queue sent[taken..]. */
  datatype Writer = Writer(
    base: Bytes, file: Bytes, forced: nat,
    sent: seq<Bytes>, status: seq<Status>,
    batch: nat, taken: nat, pc: Pc,
    closing: bool, failed: bool)

  /** The thread starts on the file that recovery left, of which `forced` bytes are known to
      be on the disk. */
  function Open(base: Bytes, forced: nat): Writer {
    Writer(base, base, forced, [], [], 0, 0, Polling, false, false)
  }

  datatype Step =
    | Accept(line: Bytes)          // append, under lifecycleLock
    | BeginClose                   // close, under lifecycleLock
    | PollFirst | PollNull | ReadClosing | CheckEmpty
    | CollectNext | StopCollecting
    | WriteSome(n: nat) | ForceOk | Complete | IoFails | FailJournal

  function Concat(lines: seq<Bytes>): Bytes {
    if lines == [] then [] else Concat(lines[..|lines| - 1]) + lines[|lines| - 1]
  }

  predicate Enabled(w: Writer, step: Step) {
    match step
    case Accept(line) => !w.closing && !w.failed && line != []
    case BeginClose => true
    case PollFirst => w.pc == Polling && w.taken < |w.sent|
    case PollNull => w.pc == Polling && w.taken == |w.sent|
    case ReadClosing => w.pc == PolledNull
    case CheckEmpty => w.pc == SawClosing
    case CollectNext => w.pc == Collecting && w.taken - w.batch < JOURNAL_BATCH_MAX && w.taken < |w.sent|
    case StopCollecting => w.pc == Collecting && w.batch <= w.taken <= |w.sent|
    case WriteSome(n) => w.pc.Writing? && 0 < n <= |w.pc.remaining|
    case ForceOk => w.pc == Forcing
    case Complete => w.pc.Completing? && w.pc.next < w.taken && w.pc.next < |w.status|
    case IoFails => w.pc.Writing? || w.pc == Forcing
    case FailJournal => w.pc == Failing && w.batch <= |w.status|
  }

  function Do(w: Writer, step: Step): Writer
    requires Enabled(w, step)
  {
    match step
    case Accept(line) => w.(sent := w.sent + [line], status := w.status + [Waiting])
    case BeginClose => w.(closing := true)
    case PollFirst => w.(batch := w.taken, taken := w.taken + 1, pc := Collecting)
    case PollNull => w.(pc := PolledNull)
    case ReadClosing => w.(pc := if w.closing then SawClosing else Polling)
    case CheckEmpty => w.(pc := if w.taken == |w.sent| then Stopped else Polling)
    case CollectNext => w.(taken := w.taken + 1)
    case StopCollecting => w.(pc := Writing(Concat(w.sent[w.batch..w.taken])))
    case WriteSome(n) =>
      w.(file := w.file + w.pc.remaining[..n],
         pc := if n == |w.pc.remaining| then Forcing else Writing(w.pc.remaining[n..]))
    case ForceOk => w.(forced := |w.file|, pc := Completing(w.batch))
    case Complete =>
      w.(status := w.status[w.pc.next := Succeeded],
         pc := if w.pc.next + 1 == w.taken then Polling else Completing(w.pc.next + 1),
         batch := if w.pc.next + 1 == w.taken then w.taken else w.batch)
    case IoFails => w.(pc := Failing)
    case FailJournal =>
      w.(failed := true, taken := |w.sent|, pc := Stopped,
         status := w.status[..w.batch] + seq(|w.status| - w.batch, _ => Failed))
  }

  // ------------------------------------------------------------------
  // The invariant
  // ------------------------------------------------------------------

  predicate InBatch(pc: Pc) {
    pc.Collecting? || pc.Writing? || pc.Forcing? || pc.Completing? || pc.Failing?
  }

  /** Callers of requests before `done` have been released with success, those from
      `done` to the end still wait. */
  ghost predicate StatusOK(w: Writer, done: nat) {
    && |w.status| == |w.sent| && done <= |w.sent|
    && (forall i :: 0 <= i < done ==> w.status[i] == Succeeded)
    && (forall i :: done <= i < |w.sent| ==> w.status[i] == Waiting)
  }

  /** The file once the first `n` requests are in it. */
  function Through(w: Writer, n: nat): Bytes
    requires n <= |w.sent|
  {
    w.base + Concat(w.sent[..n])
  }

  /** The bytes of the batch are what is still to be written after what is in the file. */
  ghost predicate FileOK(w: Writer)
    requires w.batch <= w.taken <= |w.sent|
  {
    match w.pc
    case Writing(remaining) => w.file + remaining == Through(w, w.taken) && Through(w, w.batch) <= w.file
    case Forcing => w.file == Through(w, w.taken)
    case Completing(_) => w.file == Through(w, w.taken) && w.forced == |w.file|
    case Failing => Through(w, w.batch) <= w.file <= Through(w, w.taken)
    case Stopped => Through(w, w.batch) <= w.file <= Through(w, |w.sent|) && (w.failed || w.file == Through(w, |w.sent|))
    case _ => w.file == Through(w, w.batch)
  }

  /** Every request released with success lies in the forced part of the file. */
  ghost predicate SuccessIsForced(w: Writer) {
    forall i: nat :: i < |w.sent| && i < |w.status| && w.status[i] == Succeeded ==>
      |Through(w, i + 1)| <= w.forced && Through(w, i + 1) <= w.file
  }

  ghost predicate Inv(w: Writer) {
    && w.forced <= |w.file| && w.batch <= w.taken <= |w.sent|
    && (w.pc == Stopped ==> w.failed || w.closing)
    && (w.pc == SawClosing ==> w.closing)
    && (w.failed ==> w.pc == Stopped)
    && (forall i :: 0 <= i < |w.sent| ==> w.sent[i] != [])
    && (w.pc.Writing? ==> w.pc.remaining != [])
    && (InBatch(w.pc) ==> 1 <= w.taken - w.batch <= JOURNAL_BATCH_MAX)
    && (!InBatch(w.pc) && w.pc != Stopped ==> w.batch == w.taken)
    && FileOK(w) && SuccessIsForced(w)
    && |w.status| == |w.sent|
    && (if w.pc == Stopped then forall i :: 0 <= i < |w.status| ==> w.status[i] != Waiting
        else if w.pc.Completing? then w.batch <= w.pc.next < w.taken && StatusOK(w, w.pc.next)
        else StatusOK(w, w.batch))
  }

  lemma {:induction false} ConcatMore(a: seq<Bytes>, b: seq<Bytes>)
    ensures Concat(a + b) == Concat(a) + Concat(b)
  {
    if b == [] {
      assert a + b == a;
    } else {
      assert (a + b)[..|a + b| - 1] == a + b[..|b| - 1];
      ConcatMore(a, b[..|b| - 1]);
    }
  }

  lemma {:induction false} ThroughGrows(w: Writer, i: nat, j: nat)
    requires i <= j <= |w.sent|
    ensures Through(w, i) <= Through(w, j)
  {
    hide Concat;
    ConcatMore(w.sent[..i], w.sent[i..j]);
    assert w.sent[..i] + w.sent[i..j] == w.sent[..j];
    assert Through(w, j) == Through(w, i) + Concat(w.sent[i..j]);
  }

  lemma {:induction false} AcceptInv(w: Writer, line: Bytes)
    requires Inv(w) && Enabled(w, Accept(line))
    ensures Inv(Do(w, Accept(line)))
  {
    var v := Do(w, Accept(line));
    forall i: nat | i <= |w.sent| ensures Through(v, i) == Through(w, i) {
      assert v.sent[..i] == w.sent[..i];
    }
  }

  lemma {:induction false} PollInv(w: Writer, step: Step)
    requires Inv(w) && Enabled(w, step)
    requires step.PollFirst? || step.PollNull? || step.ReadClosing? || step.CheckEmpty? || step.CollectNext? || step.BeginClose?
    ensures Inv(Do(w, step))
  {
    forall i: nat | i <= |w.sent| ensures Through(Do(w, step), i) == Through(w, i) {
    }
  }

  lemma {:induction false} StopCollectingInv(w: Writer)
    requires Inv(w) && Enabled(w, StopCollecting)
    ensures Inv(Do(w, StopCollecting))
  {
    var v := Do(w, StopCollecting);
    forall i: nat | i <= |w.sent| ensures Through(v, i) == Through(w, i) {
    }
    BatchBytes(w);
  }

  lemma {:induction false} BatchBytes(w: Writer)
    requires w.batch < w.taken <= |w.sent| && w.sent[w.taken - 1] != []
    ensures Concat(w.sent[w.batch..w.taken]) != []
    ensures Through(w, w.taken) == Through(w, w.batch) + Concat(w.sent[w.batch..w.taken])
  {
    ConcatMore(w.sent[..w.batch], w.sent[w.batch..w.taken]);
    assert w.sent[..w.batch] + w.sent[w.batch..w.taken] == w.sent[..w.taken];
    assert w.sent[w.batch..w.taken][w.taken - w.batch - 1] != [];
  }

  lemma {:induction false} WriteSomeInv(w: Writer, n: nat)
    requires Inv(w) && Enabled(w, WriteSome(n))
    ensures Inv(Do(w, WriteSome(n)))
  {
    var v := Do(w, WriteSome(n));
    forall i: nat | i <= |w.sent| ensures Through(v, i) == Through(w, i) {
    }
    assert w.pc.remaining == w.pc.remaining[..n] + w.pc.remaining[n..];
    assert v.file + w.pc.remaining[n..] == w.file + w.pc.remaining;
    assert w.file <= v.file;
  }

  lemma {:induction false} IoFailsInv(w: Writer)
    requires Inv(w) && Enabled(w, IoFails)
    ensures Inv(Do(w, IoFails))
  {
    forall i: nat | i <= |w.sent| ensures Through(Do(w, IoFails), i) == Through(w, i) {
    }
    ThroughGrows(w, w.batch, w.taken);
    if w.pc.Writing? { assert w.file <= w.file + w.pc.remaining; }
  }

  lemma {:induction false} ForceInv(w: Writer)
    requires Inv(w) && Enabled(w, ForceOk)
    ensures Inv(Do(w, ForceOk))
  {
    forall i: nat | i <= |w.sent| ensures Through(Do(w, ForceOk), i) == Through(w, i) {
    }
  }

  lemma {:induction false} CompleteThrough(w: Writer)
    requires Enabled(w, Complete)
    ensures forall i: nat | i <= |w.sent| :: Through(Do(w, Complete), i) == Through(w, i)
  {
  }

  lemma {:induction false} CompleteInv(w: Writer)
    requires Inv(w) && Enabled(w, Complete)
    ensures Inv(Do(w, Complete))
  {
    hide Through;
    CompleteThrough(w);
    ThroughGrows(w, w.pc.next + 1, w.taken);
  }

  lemma {:induction false} FailInv(w: Writer)
    requires Inv(w) && Enabled(w, FailJournal)
    ensures Inv(Do(w, FailJournal))
  {
    var v := Do(w, FailJournal);
    ThroughGrows(w, w.taken, |w.sent|);
    forall i: nat | i <= |w.sent| ensures Through(v, i) == Through(w, i) {
    }
  }

  lemma {:induction false} StepInv(w: Writer, step: Step)
    requires Inv(w) && Enabled(w, step)
    ensures Inv(Do(w, step))
  {
    match step
    case Accept(line) => AcceptInv(w, line);
    case StopCollecting => StopCollectingInv(w);
    case WriteSome(n) => WriteSomeInv(w, n);
    case IoFails => IoFailsInv(w);
    case ForceOk => ForceInv(w);
    case Complete => CompleteInv(w);
    case FailJournal => FailInv(w);
    case _ => PollInv(w, step);
  }

  predicate Runs(w: Writer, steps: seq<Step>)
    decreases |steps|
  {
    steps == [] || (Enabled(w, steps[0]) && Runs(Do(w, steps[0]), steps[1..]))
  }

  function After(w: Writer, steps: seq<Step>): Writer
    requires Runs(w, steps)
    decreases |steps|
  {
    if steps == [] then w else After(Do(w, steps[0]), steps[1..])
  }

  lemma {:induction false} RunInv(w: Writer, steps: seq<Step>)
    requires Inv(w) && Runs(w, steps)
    ensures Inv(After(w, steps))
    decreases |steps|
  {
    if steps != [] {
      StepInv(w, steps[0]);
      RunInv(Do(w, steps[0]), steps[1..]);
    }
  }

  // ------------------------------------------------------------------
  // What callers may rely on
  // ------------------------------------------------------------------

  /** The file is the old file followed by the requests in the order they were
      enqueued, the last one perhaps incomplete; a batch has 1 to 64 requests; a
      caller released with success has its bytes forced. */
  lemma {:induction false} GroupCommitIsSound(base: Bytes, forced: nat, steps: seq<Step>, i: nat)
    requires forced <= |base| && Runs(Open(base, forced), steps)
    ensures var w := After(Open(base, forced), steps);
      && w.base == base && w.batch <= w.taken <= |w.sent|
      && Through(w, w.batch) <= w.file <= Through(w, |w.sent|)
      && (InBatch(w.pc) ==> 1 <= w.taken - w.batch <= 64)
      && |w.status| == |w.sent|
      && (i < |w.sent| && w.status[i] == Succeeded ==>
            |Through(w, i + 1)| <= w.forced <= |w.file| && Through(w, i + 1) <= w.file)
  {
    OpenInv(base, forced);
    RunInv(Open(base, forced), steps);
    BaseStays(Open(base, forced), steps);
    var w := After(Open(base, forced), steps);
    FileIsOrdered(w);
  }

  lemma {:induction false} FileIsOrdered(w: Writer)
    requires Inv(w)
    ensures Through(w, w.batch) <= w.file <= Through(w, |w.sent|)
  {
    ThroughGrows(w, w.batch, w.taken);
    ThroughGrows(w, w.taken, |w.sent|);
    if w.pc.Writing? { assert w.file <= w.file + w.pc.remaining; }
  }

  lemma {:induction false} OpenInv(base: Bytes, forced: nat)
    requires forced <= |base|
    ensures Inv(Open(base, forced))
  {
    assert base + [] == base;
  }

  lemma {:induction false} BaseStays(w: Writer, steps: seq<Step>)
    requires Runs(w, steps)
    ensures After(w, steps).base == w.base
    decreases |steps|
  {
    if steps != [] { BaseStays(Do(w, steps[0]), steps[1..]); }
  }

  /** Once the thread has ended, every accepted request has been released, and no
      request is ever accepted again: no caller is stranded, and close, which waits
      for the thread, returns only then. */
  lemma {:induction false} NoWaiterIsStranded(base: Bytes, forced: nat, steps: seq<Step>, later: seq<Step>)
    requires forced <= |base| && Runs(Open(base, forced), steps) && After(Open(base, forced), steps).pc == Stopped
    requires Runs(After(Open(base, forced), steps), later)
    ensures var w := After(Open(base, forced), steps);
      && (forall i :: 0 <= i < |w.status| ==> w.status[i] != Waiting)
      && After(w, later).sent == w.sent && After(w, later).status == w.status
      && After(w, later).file == w.file
  {
    OpenInv(base, forced);
    RunInv(Open(base, forced), steps);
    StoppedStays(After(Open(base, forced), steps), later);
  }

  lemma {:induction false} StoppedStays(w: Writer, steps: seq<Step>)
    requires Inv(w) && w.pc == Stopped && Runs(w, steps)
    ensures var v := After(w, steps); v.sent == w.sent && v.status == w.status && v.file == w.file
    decreases |steps|
  {
    if steps != [] {
      StepInv(w, steps[0]);
      StoppedStays(Do(w, steps[0]), steps[1..]);
    }
  }

  // ------------------------------------------------------------------
  // Progress
  // ------------------------------------------------------------------

  /** A step of the journal thread itself. */
  predicate Own(step: Step) { !step.Accept? && !step.BeginClose? }

  /** While a caller waits the thread has a step of its own to take: it never
      blocks with requests outstanding. */
  lemma {:induction false} WriterCanProceed(w: Writer, i: nat)
    requires Inv(w) && i < |w.status| && w.status[i] == Waiting
    ensures exists step: Step :: Own(step) && Enabled(w, step)
  {
    match w.pc
    case Polling => assert Enabled(w, PollFirst) || Enabled(w, PollNull);
    case PolledNull => assert Enabled(w, ReadClosing);
    case SawClosing => assert Enabled(w, CheckEmpty);
    case Collecting => assert Enabled(w, StopCollecting);
    case Writing(r) => assert Enabled(w, WriteSome(|r|));
    case Forcing => assert Enabled(w, ForceOk);
    case Completing(n) => assert Enabled(w, Complete);
    case Failing => assert Enabled(w, FailJournal);
    case Stopped => assert false;
  }

  /** The number of requests that were released with success. */
  function Done(w: Writer): nat { if w.pc.Completing? then w.pc.next else w.batch }

  /** How far the thread is from releasing request `i`: requests before it, then its place
      in the code, then the room in the batch or the bytes still to write. */
  function Left(w: Writer, i: nat): nat { if Done(w) <= i then i + 1 - Done(w) else 0 }

  function Place(pc: Pc): nat {
    match pc
    case PolledNull => 8
    case SawClosing => 7
    case Polling => 6
    case Collecting => 5
    case Writing(_) => 4
    case Forcing => 3
    case Completing(_) => 2
    case Failing => 1
    case Stopped => 0
  }

  function Inner(w: Writer): nat {
    match w.pc
    case Collecting => if w.taken - w.batch <= JOURNAL_BATCH_MAX then JOURNAL_BATCH_MAX - (w.taken - w.batch) else 0
    case Writing(remaining) => |remaining|
    case _ => 0
  }

  /** Request `i` is still to be released. */
  predicate Waits(w: Writer, i: nat) { i < |w.status| && w.status[i] == Waiting }

  /** Each step of the thread releases the request or brings it nearer to its release; steps
      of other threads leave it where it is. */
  lemma {:induction false} StepComesNearer(w: Writer, i: nat, step: Step)
    requires Inv(w) && Waits(w, i) && Enabled(w, step)
    ensures var v := Do(w, step);
      if Own(step) then
        (|| !Waits(v, i) || Left(v, i) < Left(w, i)
         || (Left(v, i) == Left(w, i) && Place(v.pc) < Place(w.pc))
         || (Left(v, i) == Left(w, i) && Place(v.pc) == Place(w.pc) && Inner(v) < Inner(w)))
      else Waits(v, i) && Left(v, i) == Left(w, i) && v.pc == w.pc && Inner(v) == Inner(w)
    ensures i < |Do(w, step).status|
  {
    hide FileOK, SuccessIsForced;
  }

  /** An endless run: every step is possible where it is taken. */
  ghost predicate Schedule(run: nat -> Writer, pick: nat -> Step) {
    forall k: nat :: Enabled(run(k), pick(k)) && run(k + 1) == Do(run(k), pick(k))
  }

  /** The thread is scheduled again and again as long as it lives. */
  ghost predicate Fair(run: nat -> Writer, pick: nat -> Step) {
    forall k: nat :: TurnFrom(run, pick, k)
  }

  ghost predicate TurnFrom(run: nat -> Writer, pick: nat -> Step, k: nat) {
    exists m: nat :: k <= m && TurnAt(run, pick, m)
  }

  ghost predicate TurnAt(run: nat -> Writer, pick: nat -> Step, m: nat) { Own(pick(m)) || run(m).pc == Stopped }

  lemma {:induction false} ScheduleInv(run: nat -> Writer, pick: nat -> Step, k: nat)
    requires Schedule(run, pick) && Inv(run(0))
    ensures Inv(run(k))
    decreases k
  {
    hide Inv;
    if k > 0 {
      ScheduleInv(run, pick, k - 1);
      StepInv(run(k - 1), pick(k - 1));
    }
  }

  lemma {:induction false} ReleasedLater(run: nat -> Writer, pick: nat -> Step, k: nat, turn: nat, i: nat) returns (m: nat)
    requires Schedule(run, pick) && Fair(run, pick) && Inv(run(0))
    requires i < |run(k).status| && k <= turn && TurnAt(run, pick, turn)
    ensures k <= m && i < |run(m).status| && run(m).status[i] != Waiting
    decreases Left(run(k), i), Place(run(k).pc), Inner(run(k)), turn - k
  {
    hide Inv, Fair, Enabled, Do;
    m := k;
    if run(k).status[i] == Waiting {
      ScheduleInv(run, pick, k);
      StoppedHasNoWaiter(run(k), i);
      StepComesNearer(run(k), i, pick(k));
      if !Own(pick(k)) {
        m := ReleasedLater(run, pick, k + 1, turn, i);
      } else if run(k + 1).status[i] != Waiting {
        m := k + 1;
      } else {
        var next := NextTurn(run, pick, k + 1);
        m := ReleasedLater(run, pick, k + 1, next, i);
      }
    }
  }

  lemma {:induction false} NextTurn(run: nat -> Writer, pick: nat -> Step, k: nat) returns (m: nat)
    requires Fair(run, pick)
    ensures k <= m && TurnAt(run, pick, m)
  {
    assert TurnFrom(run, pick, k);
    m :| k <= m && TurnAt(run, pick, m);
  }

  lemma {:induction false} StoppedHasNoWaiter(w: Writer, i: nat)
    requires Inv(w) && Waits(w, i)
    ensures w.pc != Stopped
  {
  }

  /** Every accepted request is released, with success or failure, after finitely many steps
      of the thread, however many requests other callers add meanwhile. */
  lemma {:induction false} EveryRequestIsReleased(base: Bytes, forced: nat, run: nat -> Writer, pick: nat -> Step, k: nat, i: nat)
    returns (m: nat)
    requires forced <= |base| && run(0) == Open(base, forced) && Schedule(run, pick) && Fair(run, pick)
    requires i < |run(k).sent|
    ensures k <= m && i < |run(m).status| && run(m).status[i] != Waiting
  {
    hide Inv;
    OpenInv(base, forced);
    ScheduleInv(run, pick, k);
    StatusPerRequest(run(k));
    var turn := NextTurn(run, pick, k);
    m := ReleasedLater(run, pick, k, turn, i);
  }

  lemma {:induction false} StatusPerRequest(w: Writer)
    requires Inv(w)
    ensures |w.status| == |w.sent|
  {
  }

  /** How far the thread is from its end once `closing` is set: requests to release, then its
      place, where an empty queue leads on to the end. */
  function ClosePlace(w: Writer): nat {
    if Done(w) < |w.sent| then Place(w.pc)
    else match w.pc
      case Polling => 3
      case PolledNull => 2
      case SawClosing => 1
      case _ => 0
  }

  function Unreleased(w: Writer): nat { if Done(w) <= |w.sent| then |w.sent| - Done(w) else 0 }

  lemma {:induction false} StepComesNearerToEnd(w: Writer, step: Step)
    requires Inv(w) && w.closing && w.pc != Stopped && Enabled(w, step)
    ensures Do(w, step).closing
    ensures var v := Do(w, step);
      if Own(step) then
        (|| v.pc == Stopped || Unreleased(v) < Unreleased(w)
         || (Unreleased(v) == Unreleased(w) && ClosePlace(v) < ClosePlace(w))
         || (Unreleased(v) == Unreleased(w) && ClosePlace(v) == ClosePlace(w) && Inner(v) < Inner(w)))
      else Unreleased(v) == Unreleased(w) && ClosePlace(v) == ClosePlace(w) && Inner(v) == Inner(w)
  {
    hide FileOK, SuccessIsForced;
  }

  lemma {:induction false} EndsLater(run: nat -> Writer, pick: nat -> Step, k: nat, turn: nat) returns (m: nat)
    requires Schedule(run, pick) && Fair(run, pick) && Inv(run(0))
    requires run(k).closing && k <= turn && TurnAt(run, pick, turn)
    ensures k <= m && run(m).pc == Stopped
    decreases Unreleased(run(k)), ClosePlace(run(k)), Inner(run(k)), turn - k
  {
    hide Inv, Fair, Enabled, Do;
    m := k;
    if run(k).pc != Stopped {
      ScheduleInv(run, pick, k);
      StepComesNearerToEnd(run(k), pick(k));
      if !Own(pick(k)) {
        m := EndsLater(run, pick, k + 1, turn);
      } else if run(k + 1).pc == Stopped {
        m := k + 1;
      } else {
        var next := NextTurn(run, pick, k + 1);
        m := EndsLater(run, pick, k + 1, next);
      }
    }
  }

  /** After close has set the flag the thread ends, with every request released: close, which
      waits for it, returns. */
  lemma {:induction false} CloseReturns(base: Bytes, forced: nat, run: nat -> Writer, pick: nat -> Step, k: nat) returns (m: nat)
    requires forced <= |base| && run(0) == Open(base, forced) && Schedule(run, pick) && Fair(run, pick)
    requires run(k).closing
    ensures k <= m && run(m).pc == Stopped && forall i :: 0 <= i < |run(m).status| ==> run(m).status[i] != Waiting
  {
    hide Inv;
    OpenInv(base, forced);
    var turn := NextTurn(run, pick, k);
    m := EndsLater(run, pick, k, turn);
    ScheduleInv(run, pick, m);
    forall i | 0 <= i < |run(m).status| ensures run(m).status[i] != Waiting {
      if Waits(run(m), i) { StoppedHasNoWaiter(run(m), i); }
    }
  }
}
