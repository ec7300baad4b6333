/** DurableStore under concurrency: many callers append events and wait, one
    writer thread moves them to the file and forces it. An operation holds its
    message's lock from the append until memory has been updated. */
module StoreProtocol {
  import opened Wrappers
  import opened Journal

  /** `log` is every event accepted by append, in order: the first `written` are
      complete lines of the file, the first `durable` are known to be forced, and
      the rest is the writer's queue. `recovered` is the length of the file found
      at startup. `pend` holds, for each message with an unfinished operation, the
      position of its event. */
  datatype Store = Store(
    log: seq<Event>, written: nat, durable: nat, recovered: nat,
    failed: bool, closing: bool,
    mem: map<MsgId, StoredMessage>, pend: map<MsgId, nat>)

  /** What the store itself demands before it writes an event. */
  predicate Guard(m: Option<StoredMessage>, e: Event) {
    match e
    case Stage(_, _) => m.None?
    case Discard(_) => m.Some?
    case SetState(_, _) => m.Some?
    case Retry(_, n) => m.Some? && n == m.value.retryCount + 1
    case Result(_, _) => m.Some?
    case Published(_, c) => m.Some? && c == m.value.publishedCount + 1
  }

  /** append throws at once after a journal failure or once close has begun. */
  predicate Refuses(st: Store) { st.failed || st.closing }

  /** Everything before this position survives, as far as the store can know. */
  function Stable(st: Store): nat { if st.durable < st.recovered then st.recovered else st.durable }

  predicate Covered(st: Store, id: MsgId) { id in st.pend && st.pend[id] < st.durable }

  // ------------------------------------------------------------------
  // Steps
  // ------------------------------------------------------------------

  /** The constructor: replay the file. */
  function Open(log: seq<Event>, durable: nat, mem: map<MsgId, StoredMessage>): Store {
    Store(log, |log|, durable, |log|, false, false, mem, map[])
  }

  predicate CanSubmit(st: Store, e: Event) {
    !Refuses(st) && e.id !in st.pend && Guard(Lookup(st.mem, e.id), e)
  }

  function Submit(st: Store, e: Event): Store {
    st.(log := st.log + [e], pend := st.pend[e.id := |st.log|])
  }

  function Ack(st: Store, id: MsgId): Store
    requires id in st.pend && st.pend[id] < |st.log|
  {
    st.(mem := Put(st.mem, id, Apply(Lookup(st.mem, id), st.log[st.pend[id]])), pend := st.pend - {id})
  }

  function Write(st: Store): Store { st.(written := st.written + 1) }

  function Force(st: Store): Store { st.(durable := st.written) }

  /** A write or force fails: nothing more is written, the queue is emptied. */
  function Fail(st: Store): Store
    requires st.written <= |st.log|
  {
    st.(log := st.log[..st.written], failed := true,
        pend := map id | id in st.pend && st.pend[id] < st.written :: st.pend[id])
  }

  function Close(st: Store): Store { st.(closing := true) }

  // ------------------------------------------------------------------
  // The invariant
  // ------------------------------------------------------------------

  /** The pending event of `id` is its last one, and memory is just before it. */
  ghost predicate PendOK(st: Store, id: MsgId) {
    id in st.pend ==>
      && st.recovered <= st.pend[id] < |st.log| && st.log[st.pend[id]].id == id
      && (forall q :: st.pend[id] < q < |st.log| ==> st.log[q].id != id)
      && Lookup(st.mem, id) == View(st.log[..st.pend[id]], id)
  }

  ghost predicate MemOK(st: Store, id: MsgId) {
    id !in st.pend ==> Lookup(st.mem, id) == View(st.log, id)
  }

  /** Only pending events lie beyond the stable part. */
  ghost predicate TailPending(st: Store) {
    forall q :: Stable(st) <= q < |st.log| ==> st.log[q].id in st.pend && st.pend[st.log[q].id] == q
  }

  ghost predicate StoreInv(st: Store) {
    && st.durable <= st.written <= |st.log| && st.recovered <= st.written
    && (st.failed ==> st.written == |st.log|)
    && Replay(st.log).Some?
    && (forall id :: PendOK(st, id))
    && (forall id :: MemOK(st, id))
    && TailPending(st)
  }

  // ------------------------------------------------------------------
  // Preservation
  // ------------------------------------------------------------------

  lemma {:induction false} ViewSuffix(log: seq<Event>, k: nat, id: MsgId)
    requires k <= |log|
    requires forall q :: k <= q < |log| ==> log[q].id != id
    ensures View(log, id) == View(log[..k], id)
  {
    if k < |log| {
      ViewSuffix(log[..|log| - 1], k, id);
      assert log[..|log| - 1][..k] == log[..k];
    } else {
      assert log[..k] == log;
    }
  }

  /** A pending operation is exactly one event ahead of memory. */
  lemma {:induction false} PendingView(st: Store, id: MsgId)
    requires StoreInv(st) && id in st.pend
    ensures st.pend[id] < |st.log| && st.log[st.pend[id]].id == id
    ensures View(st.log, id) == Apply(Lookup(st.mem, id), st.log[st.pend[id]])
    ensures View(st.log[..st.pend[id] + 1], id) == View(st.log, id)
  {
    assert PendOK(st, id);
    var p := st.pend[id];
    ViewSuffix(st.log, p + 1, id);
    assert st.log[..p + 1][..p] == st.log[..p];
  }

  lemma {:induction false} ReplayPrefix(log: seq<Event>, k: nat)
    requires Replay(log).Some? && k <= |log|
    ensures Replay(log[..k]).Some?
  {
    if k < |log| {
      ReplayPrefix(log[..|log| - 1], k);
      assert log[..|log| - 1][..k] == log[..k];
    } else {
      assert log[..k] == log;
    }
  }

  lemma {:induction false} OpenInv(log: seq<Event>, durable: nat, mem: map<MsgId, StoredMessage>)
    requires durable <= |log| && Replay(log) == Some(mem)
    ensures StoreInv(Open(log, durable, mem))
  {
    ReplayIsView(log);
  }

  lemma {:induction false} SubmitInv(st: Store, e: Event)
    requires StoreInv(st) && CanSubmit(st, e)
    ensures StoreInv(Submit(st, e))
  {
    var st' := Submit(st, e);
    assert st'.log[..|st.log|] == st.log;
    ReplayIsView(st.log);
    assert MemOK(st, e.id);
    assert Replay(st'.log).Some?;
    forall id ensures PendOK(st', id) && MemOK(st', id) {
      assert PendOK(st, id) && MemOK(st, id);
      ViewSnoc(st.log, e, id);
      if id in st'.pend && id != e.id {
        assert st'.log[..st.pend[id]] == st.log[..st.pend[id]];
      }
    }
    forall q | Stable(st') <= q < |st'.log|
      ensures st'.log[q].id in st'.pend && st'.pend[st'.log[q].id] == q
    {
      if q < |st.log| { assert st'.log[q] == st.log[q]; }
    }
  }

  lemma {:induction false} AckInv(st: Store, id: MsgId)
    requires StoreInv(st) && Covered(st, id)
    ensures PendOK(st, id)
    ensures StoreInv(Ack(st, id))
    ensures Lookup(Ack(st, id).mem, id) == View(st.log, id)
  {
    PendingView(st, id);
    var st' := Ack(st, id);
    forall other ensures PendOK(st', other) && MemOK(st', other) {
      assert PendOK(st, other) && MemOK(st, other);
    }
  }

  lemma {:induction false} WriteInv(st: Store)
    requires StoreInv(st) && st.written < |st.log| && !st.failed
    ensures StoreInv(Write(st))
  {
    forall id ensures PendOK(Write(st), id) && MemOK(Write(st), id) {
      assert PendOK(st, id) && MemOK(st, id);
    }
  }

  lemma {:induction false} ForceInv(st: Store)
    requires StoreInv(st)
    ensures StoreInv(Force(st))
  {
    forall id ensures PendOK(Force(st), id) && MemOK(Force(st), id) {
      assert PendOK(st, id) && MemOK(st, id);
    }
  }

  lemma {:induction false} CloseInv(st: Store)
    requires StoreInv(st)
    ensures StoreInv(Close(st))
  {
    forall id ensures PendOK(Close(st), id) && MemOK(Close(st), id) {
      assert PendOK(st, id) && MemOK(st, id);
    }
  }

  /** Cutting unwritten events only takes back events memory does not have yet. */
  lemma {:induction false} CutView(st: Store, id: MsgId)
    requires StoreInv(st)
    requires id !in st.pend || st.written <= st.pend[id]
    ensures Lookup(st.mem, id) == View(st.log[..st.written], id)
  {
    assert PendOK(st, id) && MemOK(st, id);
    if id in st.pend {
      var p := st.pend[id];
      forall q | st.written <= q < p ensures st.log[..p][q].id != id {
        assert st.log[q].id in st.pend && st.pend[st.log[q].id] == q;
      }
      ViewSuffix(st.log[..p], st.written, id);
      assert st.log[..p][..st.written] == st.log[..st.written];
    } else {
      forall q | st.written <= q < |st.log| ensures st.log[q].id != id {
      }
      ViewSuffix(st.log, st.written, id);
    }
  }

  lemma {:induction false} FailInv(st: Store)
    requires StoreInv(st)
    ensures StoreInv(Fail(st))
  {
    var st' := Fail(st);
    ReplayPrefix(st.log, st.written);
    forall id ensures PendOK(st', id) && MemOK(st', id) {
      assert PendOK(st, id) && MemOK(st, id);
      if id in st'.pend {
        assert st'.log[..st.pend[id]] == st.log[..st.pend[id]];
      } else {
        CutView(st, id);
      }
    }
  }

  // ------------------------------------------------------------------
  // What the invariant says to a caller
  // ------------------------------------------------------------------

  /** Memory equals replay of the journal at every message without an operation in
      flight; at the others, also after a journal failure, it is behind by exactly
      the one event of that operation. */
  lemma {:induction false} MemoryRefinesReplay(st: Store, id: MsgId)
    requires StoreInv(st)
    ensures Replay(st.log).Some?
    ensures id !in st.pend ==> Lookup(st.mem, id) == Lookup(Replay(st.log).value, id)
    ensures id in st.pend ==>
      && st.pend[id] < |st.log| && st.log[st.pend[id]].id == id
      && Lookup(Replay(st.log).value, id) == Apply(Lookup(st.mem, id), st.log[st.pend[id]])
  {
    ReplayIsView(st.log);
    assert PendOK(st, id) && MemOK(st, id);
    if id in st.pend {
      PendingView(st, id);
    }
  }
}
