/** The byte-level writer and its callers, started on any recovered journal, carry out exactly
    the journal steps of StoreProtocol: submit, write, force, fail, close, acknowledge. */
module GroupCommitRefines {
  import opened Wrappers
  import opened Journal
  import opened JournalBytes
  import opened GroupCommit
  import S = StoreProtocol
  import opened DurableStoreClass

  /** What the last start found: the events recovered, and how many of them are known to be
      on the disk. */
  datatype Start = Start(recovered: seq<Event>, durable: nat, mem: map<MsgId, StoredMessage>)

  ghost predicate ValidStart(enc: Event -> Bytes, dec: Bytes -> Option<Event>, b: Start) {
    Faithful(enc, dec) && b.durable <= |b.recovered| && Replay(b.recovered) == Some(b.mem)
  }

  function Line(enc: Event -> Bytes, e: Event): Bytes { enc(e) + [NEWLINE] }

  /** The events whose bytes the thread is sure to have forced since the start. */
  function Durable(w: Writer): nat { if w.pc.Completing? then w.taken else w.batch }

  /** The store's journal, seen from the writer: recovered events first, then the events of
      this life in the order of their requests. */
  ghost predicate Matches(enc: Event -> Bytes, b: Start, w: Writer, events: seq<Event>, st: S.Store) {
    var all := b.recovered + events;
    && w.base == Encode(enc, b.recovered) && |events| == |w.sent|
    && (forall i :: 0 <= i < |events| ==> w.sent[i] == Line(enc, events[i]))
    && st.recovered == |b.recovered| && st.failed == w.failed && st.closing == w.closing
    && st.written == CompleteIn(enc, all, |w.file|)
    && st.log == (if w.failed then all[..st.written] else all)
    && Durable(w) <= |events|
    && st.durable == (if Durable(w) == 0 then b.durable else |b.recovered| + Durable(w))
    && st.durable <= st.written && w.forced == |Encode(enc, all[..st.durable])|
  }

  // ------------------------------------------------------------------
  // Bytes and events
  // ------------------------------------------------------------------

  /** The file through request `n` is the encoding of the events through it. */
  lemma {:induction false} ThroughEncodes(enc: Event -> Bytes, b: Start, w: Writer, events: seq<Event>, n: nat)
    requires w.base == Encode(enc, b.recovered) && |events| == |w.sent| && n <= |events|
    requires forall i :: 0 <= i < |events| ==> w.sent[i] == Line(enc, events[i])
    ensures Through(w, n) == Encode(enc, (b.recovered + events)[..|b.recovered| + n])
    decreases n
  {
    hide Concat, Encode, Line;
    var all := b.recovered + events;
    if n == 0 {
      NoLines(w);
      assert all[..|b.recovered|] == b.recovered;
    } else {
      var k := |b.recovered| + n - 1;
      ThroughEncodes(enc, b, w, events, n - 1);
      OneMoreLine(w, n - 1);
      OneMoreEvent(enc, all, k);
      assert all[k] == events[n - 1];
    }
  }

  lemma {:induction false} NoLines(w: Writer)
    ensures Through(w, 0) == w.base
  {
  }

  lemma {:induction false} OneMoreLine(w: Writer, n: nat)
    requires n < |w.sent|
    ensures Through(w, n + 1) == Through(w, n) + w.sent[n]
  {
    assert w.sent[..n + 1][..n] == w.sent[..n];
  }

  lemma {:induction false} OneMoreEvent(enc: Event -> Bytes, log: seq<Event>, k: nat)
    requires k < |log|
    ensures Encode(enc, log[..k + 1]) == Encode(enc, log[..k]) + Line(enc, log[k])
  {
    assert log[..k + 1][..k] == log[..k];
  }

  lemma {:induction false} EncodeGrows(enc: Event -> Bytes, log: seq<Event>, i: nat, j: nat)
    requires i <= j <= |log|
    ensures |Encode(enc, log[..i])| <= |Encode(enc, log[..j])|
    ensures i < j ==> |Encode(enc, log[..i])| < |Encode(enc, log[..j])|
    decreases j
  {
    if i < j {
      EncodeGrows(enc, log, i, j - 1);
      assert log[..j][..j - 1] == log[..j - 1];
    }
  }

  /** The number of complete events in a file is the largest number that fits. */
  lemma {:induction false} CompleteIs(enc: Event -> Bytes, log: seq<Event>, cut: nat, k: nat)
    requires k <= |log| && |Encode(enc, log[..k])| <= cut
    requires k < |log| ==> cut < |Encode(enc, log[..k + 1])|
    ensures CompleteIn(enc, log, cut) == k
    decreases |log|
  {
    assert log[..|log|] == log;
    if k < |log| {
      EncodeGrows(enc, log, k + 1, |log|);
      var before := log[..|log| - 1];
      assert before[..k] == log[..k];
      if k < |before| { assert before[..k + 1] == log[..k + 1]; }
      CompleteIs(enc, before, cut, k);
    }
  }

  lemma {:induction false} CompleteGrows(enc: Event -> Bytes, log: seq<Event>, a: nat, b: nat)
    requires a <= b
    ensures CompleteIn(enc, log, a) <= CompleteIn(enc, log, b)
    decreases |log|
  {
    if log != [] && |Encode(enc, log)| > b { CompleteGrows(enc, log[..|log| - 1], a, b); }
  }

  lemma {:induction false} CompleteExact(enc: Event -> Bytes, log: seq<Event>, k: nat)
    requires k <= |log|
    ensures CompleteIn(enc, log, |Encode(enc, log[..k])|) == k
  {
    if k < |log| { EncodeGrows(enc, log, k, k + 1); }
    CompleteIs(enc, log, |Encode(enc, log[..k])|, k);
  }

  /** A file that has room for `k` events and no more than them is not changed by further ones. */
  lemma {:induction false} CompleteSnoc(enc: Event -> Bytes, log: seq<Event>, e: Event, cut: nat)
    requires cut <= |Encode(enc, log)|
    ensures CompleteIn(enc, log + [e], cut) == CompleteIn(enc, log, cut)
  {
    assert (log + [e])[..|log|] == log;
    assert |Encode(enc, log + [e])| > |Encode(enc, log)|;
  }

  /** The bytes of the file, in events. */
  lemma {:induction false} FileBounds(enc: Event -> Bytes, b: Start, w: Writer, events: seq<Event>, st: S.Store)
    requires Inv(w) && Matches(enc, b, w, events, st)
    ensures var all := b.recovered + events;
      && Through(w, w.batch) == Encode(enc, all[..|b.recovered| + w.batch]) <= w.file
      && w.file <= Through(w, |w.sent|) == Encode(enc, all)
      && |b.recovered| + w.batch <= st.written <= |all|
  {
    hide Inv, Through, Encode;
    var all := b.recovered + events;
    FileIsOrdered(w);
    BatchBound(w);
    ThroughEncodes(enc, b, w, events, w.batch);
    ThroughEncodes(enc, b, w, events, |w.sent|);
    assert all[..|all|] == all;
    CompleteExact(enc, all, |b.recovered| + w.batch);
    CompleteGrows(enc, all, |Through(w, w.batch)|, |w.file|);
  }

  lemma {:induction false} BatchBound(w: Writer)
    requires Inv(w)
    ensures w.batch <= w.taken <= |w.sent|
  {
  }

  // ------------------------------------------------------------------
  // The joint run
  // ------------------------------------------------------------------

  /** The writer, the events behind its requests, and the store as its callers see it. */
  datatype Joint = Joint(w: Writer, events: seq<Event>, st: S.Store)

  datatype Act =
    | Append(e: Event)          // a caller whose checks passed enqueues its event
    | ByWriter(step: Step)      // the journal thread, or close
    | Returns(i: nat)           // the caller of request i wakes up with success
    | Throws(i: nat)            // the caller of request i wakes up with the failure

  function Open(enc: Event -> Bytes, b: Start): Joint
    requires b.durable <= |b.recovered|
  {
    Joint(GroupCommit.Open(Encode(enc, b.recovered), |Encode(enc, b.recovered[..b.durable])|), [],
          S.Open(b.recovered, b.durable, b.mem))
  }

  /** Request `i` is the operation its message waits for. */
  predicate Awaited(b: Start, j: Joint, i: nat) {
    && i < |j.events| && i < |j.w.status| && j.events[i].id in j.st.pend
    && j.st.pend[j.events[i].id] == |b.recovered| + i
  }

  predicate CanAct(enc: Event -> Bytes, b: Start, j: Joint, a: Act) {
    match a
    case Append(e) =>
      (&& Enabled(j.w, Accept(Line(enc, e)))
       && e.id !in j.st.pend && S.Guard(Lookup(j.st.mem, e.id), e))
    case ByWriter(step) => !step.Accept? && Enabled(j.w, step)
    case Returns(i) => Awaited(b, j, i) && j.w.status[i] == Succeeded && |b.recovered| + i < |j.st.log|
    case Throws(i) => i < |j.events| && i < |j.w.status| && j.w.status[i] == Failed
  }

  function Next(enc: Event -> Bytes, b: Start, j: Joint, a: Act): Joint
    requires CanAct(enc, b, j, a)
  {
    match a
    case Append(e) => Joint(Do(j.w, Accept(Line(enc, e))), j.events + [e], S.Submit(j.st, e))
    case Returns(i) => j.(st := S.Ack(j.st, j.events[i].id))
    case Throws(_) => j
    case ByWriter(step) =>
      var w := Do(j.w, step);
      match step
      case WriteSome(_) => Joint(w, j.events, j.st.(written := CompleteIn(enc, b.recovered + j.events, |w.file|)))
      case ForceOk => Joint(w, j.events, S.Force(j.st))
      case FailJournal => Joint(w, j.events, if j.st.written <= |j.st.log| then S.Fail(j.st) else j.st)
      case BeginClose => Joint(w, j.events, S.Close(j.st))
      case _ => Joint(w, j.events, j.st)
  }

  ghost predicate JointInv(enc: Event -> Bytes, b: Start, j: Joint) {
    && Inv(j.w) && Matches(enc, b, j.w, j.events, j.st) && ReleasesOK(j.w) && S.StoreInv(j.st)
  }

  /** Success is handed out only below the last force, failure only beyond it and after the
      journal failed. */
  ghost predicate ReleasesOK(w: Writer) {
    forall i :: 0 <= i < |w.status| ==>
      && (w.status[i] == Succeeded ==> i < Durable(w))
      && (w.status[i] == Failed ==> w.failed && Durable(w) <= i)
  }

  /** One step of the abstract store, with its guard. */
  ghost predicate Moves(st: S.Store, t: S.Store) {
    || t == st
    || (exists e :: S.CanSubmit(st, e) && t == S.Submit(st, e))
    || (!st.failed && st.written <= t.written <= |st.log| && t == st.(written := t.written))
    || (!st.failed && t == S.Force(st))
    || (!st.failed && st.written <= |st.log| && t == S.Fail(st))
    || t == S.Close(st)
    || (exists id :: S.Covered(st, id) && st.pend[id] < |st.log| && t == S.Ack(st, id))
  }

  // ------------------------------------------------------------------
  // Each act
  // ------------------------------------------------------------------

  lemma {:induction false} AppendMatches(enc: Event -> Bytes, b: Start, j: Joint, e: Event)
    requires Inv(j.w) && Matches(enc, b, j.w, j.events, j.st) && CanAct(enc, b, j, Append(e))
    ensures var n := Next(enc, b, j, Append(e)); Matches(enc, b, n.w, n.events, n.st)
    ensures S.CanSubmit(j.st, e)
  {
    hide Inv, Through, Encode, CompleteIn;
    var all := b.recovered + j.events;
    FileBounds(enc, b, j.w, j.events, j.st);
    assert b.recovered + (j.events + [e]) == all + [e];
    CompleteSnoc(enc, all, e, |j.w.file|);
    assert (all + [e])[..j.st.durable] == all[..j.st.durable];
  }

  lemma {:induction false} WriteMatches(enc: Event -> Bytes, b: Start, j: Joint, n: nat)
    requires Inv(j.w) && Matches(enc, b, j.w, j.events, j.st) && CanAct(enc, b, j, ByWriter(WriteSome(n)))
    ensures var t := Next(enc, b, j, ByWriter(WriteSome(n)));
      && Matches(enc, b, t.w, t.events, t.st) && !j.st.failed
      && j.st.written <= t.st.written <= |j.st.log|
  {
    hide Through, Encode, CompleteIn;
    var w := Do(j.w, WriteSome(n));
    CompleteGrows(enc, b.recovered + j.events, |j.w.file|, |w.file|);
  }

  lemma {:induction false} ForceMatches(enc: Event -> Bytes, b: Start, j: Joint)
    requires Inv(j.w) && Matches(enc, b, j.w, j.events, j.st) && CanAct(enc, b, j, ByWriter(ForceOk))
    ensures var t := Next(enc, b, j, ByWriter(ForceOk));
      Matches(enc, b, t.w, t.events, t.st) && !j.st.failed
  {
    hide Through, Encode, CompleteIn;
    ThroughEncodes(enc, b, j.w, j.events, j.w.taken);
    CompleteExact(enc, b.recovered + j.events, |b.recovered| + j.w.taken);
  }

  lemma {:induction false} FailMatches(enc: Event -> Bytes, b: Start, j: Joint)
    requires Inv(j.w) && Matches(enc, b, j.w, j.events, j.st) && CanAct(enc, b, j, ByWriter(FailJournal))
    ensures var t := Next(enc, b, j, ByWriter(FailJournal));
      && Matches(enc, b, t.w, t.events, t.st) && !j.st.failed
      && j.st.written <= |j.st.log| && t.st == S.Fail(j.st)
  {
    hide Through, Encode, CompleteIn;
    FileBounds(enc, b, j.w, j.events, j.st);
  }

  lemma {:induction false} QuietMatches(enc: Event -> Bytes, b: Start, j: Joint, step: Step)
    requires Inv(j.w) && Matches(enc, b, j.w, j.events, j.st) && CanAct(enc, b, j, ByWriter(step))
    requires !step.WriteSome? && !step.ForceOk? && !step.FailJournal?
    ensures var t := Next(enc, b, j, ByWriter(step));
      && Matches(enc, b, t.w, t.events, t.st)
      && t.st == if step.BeginClose? then S.Close(j.st) else j.st
  {
    hide Through, Encode, CompleteIn;
  }

  lemma {:induction false} ReleasesKeep(w: Writer, step: Step)
    requires Inv(w) && ReleasesOK(w) && Enabled(w, step)
    ensures ReleasesOK(Do(w, step))
  {
    hide FileOK, SuccessIsForced;
  }

  /** What a caller may conclude when it wakes up: with success its event is durable, which is
      what acknowledging demands; with the failure the journal has failed and its event is
      not durable, which is what giving up demands. */
  lemma {:induction false} ReleasesMatchTheStore(enc: Event -> Bytes, b: Start, j: Joint, i: nat)
    requires Matches(enc, b, j.w, j.events, j.st) && ReleasesOK(j.w) && i < |j.w.status|
    requires b.durable <= |b.recovered|
    ensures j.w.status[i] == Succeeded ==> |b.recovered| + i < j.st.durable
    ensures j.w.status[i] == Succeeded && Awaited(b, j, i) ==> S.Covered(j.st, j.events[i].id)
    ensures j.w.status[i] == Failed ==> j.st.failed && j.st.durable <= |b.recovered| + i
    ensures j.w.status[i] == Failed && Awaited(b, j, i) ==> !S.Covered(j.st, j.events[i].id)
  {
    hide CompleteIn, Encode;
  }

  /** Each act of the thread is one guarded step of the abstract store, or none. */
  lemma {:induction false} WriterActMoves(enc: Event -> Bytes, b: Start, j: Joint, step: Step)
    requires Inv(j.w) && Matches(enc, b, j.w, j.events, j.st) && CanAct(enc, b, j, ByWriter(step))
    ensures var t := Next(enc, b, j, ByWriter(step));
      && Inv(t.w) && Matches(enc, b, t.w, t.events, t.st) && Moves(j.st, t.st)
  {
    hide Inv, Enabled, Matches, Do, CompleteIn;
    StepInv(j.w, step);
    if step.WriteSome? {
      WriteMatches(enc, b, j, step.n);
    } else if step.ForceOk? {
      ForceMatches(enc, b, j);
    } else if step.FailJournal? {
      FailMatches(enc, b, j);
    } else {
      QuietMatches(enc, b, j, step);
    }
  }

  lemma {:induction false} ActMoves(enc: Event -> Bytes, dec: Bytes -> Option<Event>, b: Start, j: Joint, a: Act)
    requires ValidStart(enc, dec, b) && JointInv(enc, b, j) && CanAct(enc, b, j, a)
    ensures var t := Next(enc, b, j, a);
      Inv(t.w) && Matches(enc, b, t.w, t.events, t.st) && ReleasesOK(t.w) && Moves(j.st, t.st)
  {
    hide Inv, Matches, Enabled, Do, S.StoreInv, ReleasesOK, S.Submit, S.Ack, Faithful;
    match a
    case Append(e) =>
      StepInv(j.w, Accept(Line(enc, e)));
      ReleasesKeep(j.w, Accept(Line(enc, e)));
      AppendMatches(enc, b, j, e);
    case ByWriter(step) =>
      ReleasesKeep(j.w, step);
      WriterActMoves(enc, b, j, step);
    case Returns(i) =>
      ReleasesMatchTheStore(enc, b, j, i);
      AckMatches(enc, b, j, i);
    case Throws(i) =>
  }

  /** The caller of a request that was released with success can always return. */
  lemma {:induction false} NoReturnIsBarred(enc: Event -> Bytes, dec: Bytes -> Option<Event>, b: Start, j: Joint, i: nat)
    requires ValidStart(enc, dec, b) && JointInv(enc, b, j) && Awaited(b, j, i) && j.w.status[i] == Succeeded
    ensures CanAct(enc, b, j, Returns(i))
  {
    hide Encode, CompleteIn, Inv;
    ReleasesMatchTheStore(enc, b, j, i);
  }

  /** What may have become of a request whose caller was released: it is forced; or the
      journal failed with its line in the file but not forced, or without it. */
  lemma {:induction false} RequestFates(enc: Event -> Bytes, dec: Bytes -> Option<Event>, b: Start, j: Joint, i: nat)
    returns (fate: Fate)
    requires ValidStart(enc, dec, b) && JointInv(enc, b, j) && i < |j.w.status| && j.w.status[i] != Waiting
    ensures i < |j.events|
    ensures var at := |b.recovered| + i;
      match fate
      case Forced => j.w.status[i] == Succeeded && at < j.st.durable && at < |j.st.log| && j.st.log[at] == j.events[i]
      case WrittenNotForced =>
        (&& j.w.status[i] == Failed && j.st.failed && j.st.durable <= at < |j.st.log| == j.st.written
         && j.st.log[at] == j.events[i])
      case NotWritten => j.w.status[i] == Failed && j.st.failed && |j.st.log| == j.st.written <= at
  {
    hide Encode, CompleteIn;
    ReleasesMatchTheStore(enc, b, j, i);
    fate := if j.w.status[i] == Succeeded then Forced
            else if |b.recovered| + i < j.st.written then WrittenNotForced else NotWritten;
  }

  lemma {:induction false} AckMatches(enc: Event -> Bytes, b: Start, j: Joint, i: nat)
    requires Matches(enc, b, j.w, j.events, j.st) && CanAct(enc, b, j, Returns(i))
    ensures Matches(enc, b, j.w, j.events, S.Ack(j.st, j.events[i].id))
  {
    hide CompleteIn, Encode;
  }

  lemma {:induction false} WritesInv(st: S.Store, n: nat)
    requires S.StoreInv(st) && !st.failed && st.written <= n <= |st.log|
    ensures S.StoreInv(st.(written := n))
    decreases n
  {
    hide S.StoreInv;
    if n > st.written {
      WritesInv(st, n - 1);
      S.WriteInv(st.(written := n - 1));
    }
  }

  /** A guarded step keeps the store's invariant. */
  lemma {:induction false} MoveKeeps(st: S.Store, t: S.Store)
    requires S.StoreInv(st) && Moves(st, t)
    ensures S.StoreInv(t)
  {
    hide S.StoreInv, S.CanSubmit, S.Submit, S.Ack, S.Fail, S.Force, S.Close;
    if e :| S.CanSubmit(st, e) && t == S.Submit(st, e) {
      S.SubmitInv(st, e);
    } else if id :| S.Covered(st, id) && st.pend[id] < |st.log| && t == S.Ack(st, id) {
      S.AckInv(st, id);
    } else if !st.failed && st.written <= t.written <= |st.log| && t == st.(written := t.written) {
      WritesInv(st, t.written);
    } else if !st.failed && t == S.Force(st) {
      S.ForceInv(st);
    } else if !st.failed && st.written <= |st.log| && t == S.Fail(st) {
      S.FailInv(st);
    } else if t == S.Close(st) {
      S.CloseInv(st);
    }
  }

  // ------------------------------------------------------------------
  // Whole runs
  // ------------------------------------------------------------------

  predicate Runs(enc: Event -> Bytes, b: Start, j: Joint, acts: seq<Act>)
    decreases |acts|
  {
    acts == [] || (CanAct(enc, b, j, acts[0]) && Runs(enc, b, Next(enc, b, j, acts[0]), acts[1..]))
  }

  function After(enc: Event -> Bytes, b: Start, j: Joint, acts: seq<Act>): Joint
    requires Runs(enc, b, j, acts)
    decreases |acts|
  {
    if acts == [] then j else After(enc, b, Next(enc, b, j, acts[0]), acts[1..])
  }

  /** The first state of a life matches the store opened on what was recovered. */
  lemma {:induction false} OpenMatches(enc: Event -> Bytes, dec: Bytes -> Option<Event>, b: Start)
    requires ValidStart(enc, dec, b)
    ensures JointInv(enc, b, Open(enc, b))
  {
    hide S.StoreInv, Inv, Faithful;
    assert b.recovered + [] == b.recovered;
    assert b.recovered[..|b.recovered|] == b.recovered;
    CompleteExact(enc, b.recovered, |b.recovered|);
    EncodeGrows(enc, b.recovered, b.durable, |b.recovered|);
    GroupCommit.OpenInv(Encode(enc, b.recovered), |Encode(enc, b.recovered[..b.durable])|);
    S.OpenInv(b.recovered, b.durable, b.mem);
  }

  /** Every act of every life is one guarded step of the abstract store, or leaves it exactly
      as it is, and keeps the match between file, requests and store. */
  lemma {:induction false} WriterRefinesStore(enc: Event -> Bytes, dec: Bytes -> Option<Event>, b: Start, j: Joint, a: Act)
    requires ValidStart(enc, dec, b) && JointInv(enc, b, j) && CanAct(enc, b, j, a)
    ensures JointInv(enc, b, Next(enc, b, j, a)) && Moves(j.st, Next(enc, b, j, a).st)
  {
    hide Inv, Matches, ReleasesOK, Moves, S.StoreInv, Faithful, CanAct, Next;
    ActMoves(enc, dec, b, j, a);
    MoveKeeps(j.st, Next(enc, b, j, a).st);
  }

  lemma {:induction false} RunKeeps(enc: Event -> Bytes, dec: Bytes -> Option<Event>, b: Start, j: Joint, acts: seq<Act>)
    requires ValidStart(enc, dec, b) && JointInv(enc, b, j) && Runs(enc, b, j, acts)
    ensures JointInv(enc, b, After(enc, b, j, acts))
    decreases |acts|
  {
    hide JointInv, ValidStart, CanAct, Next;
    if acts != [] {
      WriterRefinesStore(enc, dec, b, j, acts[0]);
      RunKeeps(enc, dec, b, Next(enc, b, j, acts[0]), acts[1..]);
    }
  }

  /** After every run of every life, on whatever journal it started: the file reads back as
      the abstract journal up to `written`, the forced bytes are its first `durable` events,
      and memory follows replay of it. */
  lemma {:induction false} EveryLifeRefines(enc: Event -> Bytes, dec: Bytes -> Option<Event>, b: Start, acts: seq<Act>, id: MsgId)
    requires ValidStart(enc, dec, b) && Runs(enc, b, Open(enc, b), acts)
    ensures var j := After(enc, b, Open(enc, b), acts); var st := j.st;
      && b.recovered <= st.log && st.written <= |st.log| && ReadBack(dec, j.w.file) == Some(st.log[..st.written])
      && st.durable <= st.written && j.w.forced == |Encode(enc, st.log[..st.durable])| && j.w.forced <= |j.w.file|
      && Replay(st.log).Some?
      && (id !in st.pend ==> Lookup(st.mem, id) == Lookup(Replay(st.log).value, id))
      && (id in st.pend ==>
            && st.pend[id] < |st.log| && st.log[st.pend[id]].id == id
            && Lookup(Replay(st.log).value, id) == Apply(Lookup(st.mem, id), st.log[st.pend[id]]))
  {
    hide Inv, Runs, After, Open, S.StoreInv, Matches;
    OpenMatches(enc, dec, b);
    RunKeeps(enc, dec, b, Open(enc, b), acts);
    var j := After(enc, b, Open(enc, b), acts);
    FileReads(enc, dec, b, j);
    S.MemoryRefinesReplay(j.st, id);
  }

  lemma {:induction false} FileReads(enc: Event -> Bytes, dec: Bytes -> Option<Event>, b: Start, j: Joint)
    requires ValidStart(enc, dec, b) && Inv(j.w) && Matches(enc, b, j.w, j.events, j.st)
    ensures var st := j.st;
      && b.recovered <= st.log && st.written <= |st.log| && ReadBack(dec, j.w.file) == Some(st.log[..st.written])
      && st.durable <= st.written && j.w.forced == |Encode(enc, st.log[..st.durable])| && j.w.forced <= |j.w.file|
  {
    hide Inv, Through, Encode, CompleteIn, Faithful, ReadBack;
    var all, st := b.recovered + j.events, j.st;
    FileBounds(enc, b, j.w, j.events, st);
    ForcedBound(j.w);
    assert all[..0] == [];
    NothingEncoded(enc);
    CutReadsPrefix(enc, dec, all, 0, |j.w.file|);
    assert Encode(enc, all)[..|j.w.file|] == j.w.file;
    assert st.log[..st.written] == all[..st.written];
    assert st.log[..st.durable] == all[..st.durable];
  }

  lemma {:induction false} NothingEncoded(enc: Event -> Bytes)
    ensures Encode(enc, []) == []
  {
  }

  lemma {:induction false} ForcedBound(w: Writer)
    requires Inv(w)
    ensures w.forced <= |w.file|
  {
  }
}
