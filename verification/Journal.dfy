/** The write-ahead journal of DurableStore: its events, what replaying them
    means, and the lifecycle every message's events follow. */
module Journal {
  import opened Wrappers

  newtype byte = x: int | 0 <= x < 256
  type Bytes = seq<byte>

  /** A message is identified by its input queue slot and its queue sequence number. */
  datatype MsgId = MsgId(queueId: int, seqNo: int)

  datatype Destination = ERROR | OUTPUT
  datatype Item = Item(destination: Destination, payload: Bytes)

  /** A durable result is an envelope of output items, published in order. */
  type Batch = seq<Item>

  datatype State = COMMITTING | READY | PROCESSING | RETRY_WAIT | RESULT_PENDING | DONE

  datatype StoredMessage = StoredMessage(
    data: Bytes, state: State, retryCount: nat,
    result: Option<Batch>, publishedCount: nat)

  datatype Event =
    | Stage(id: MsgId, data: Bytes)
    | SetState(id: MsgId, state: State)
    | Retry(id: MsgId, retryCount: nat)
    | Result(id: MsgId, result: Batch)
    | Published(id: MsgId, count: nat)
    | Discard(id: MsgId)

  // ------------------------------------------------------------------
  // Replay
  // ------------------------------------------------------------------

  /** Whether replaying `e` finds the message it needs. */
  predicate Known(m: Option<StoredMessage>, e: Event) {
    e.Stage? || e.Discard? || m.Some?
  }

  /** What one event does to the message it names. */
  function Apply(m: Option<StoredMessage>, e: Event): Option<StoredMessage> {
    match e
    case Stage(_, data) => Some(StoredMessage(data, COMMITTING, 0, None, 0))
    case Discard(_) => None
    case _ =>
      if m.None? then None else
      match e
      case SetState(_, state) => Some(m.value.(state := state))
      case Retry(_, n) => Some(m.value.(retryCount := n, state := RETRY_WAIT))
      case Result(_, r) => Some(m.value.(result := Some(r), state := RESULT_PENDING, publishedCount := 0))
      case Published(_, c) => Some(m.value.(publishedCount := c))
  }

  /** The state of one message after the events of `log`. */
  function View(log: seq<Event>, id: MsgId): Option<StoredMessage> {
    if log == [] then None
    else
      var before := View(log[..|log| - 1], id);
      if log[|log| - 1].id == id then Apply(before, log[|log| - 1]) else before
  }

  function Lookup(m: map<MsgId, StoredMessage>, id: MsgId): Option<StoredMessage> {
    if id in m then Some(m[id]) else None
  }

  function Put(m: map<MsgId, StoredMessage>, id: MsgId, v: Option<StoredMessage>): (r: map<MsgId, StoredMessage>)
    ensures Lookup(r, id) == v
    ensures forall other :: other != id ==> Lookup(r, other) == Lookup(m, other)
  {
    if v.Some? then m[id := v.value] else m - {id}
  }

  /** Replay of a whole journal; None when an event names an unknown message. */
  function Replay(log: seq<Event>): Option<map<MsgId, StoredMessage>> {
    if log == [] then Some(map[])
    else
      var before := Replay(log[..|log| - 1]);
      var e := log[|log| - 1];
      if before.None? || !Known(Lookup(before.value, e.id), e) then None
      else Some(Put(before.value, e.id, Apply(Lookup(before.value, e.id), e)))
  }

  lemma {:induction false} ViewSnoc(log: seq<Event>, e: Event, id: MsgId)
    ensures View(log + [e], id) == if e.id == id then Apply(View(log, id), e) else View(log, id)
  {
    assert (log + [e])[..|log|] == log;
  }

  /** Replay computes every message's view. */
  lemma {:induction false} ReplayIsView(log: seq<Event>)
    requires Replay(log).Some?
    ensures forall id :: Lookup(Replay(log).value, id) == View(log, id)
  {
    if log != [] {
      ReplayIsView(log[..|log| - 1]);
    }
  }

  /** Event `k` finds the message it names. */
  predicate Finds(log: seq<Event>, k: nat)
    requires k < |log|
  {
    Known(View(log[..k], log[k].id), log[k])
  }

  /** Replay succeeds exactly when each event finds the message it names. */
  lemma {:induction false} ReplaysIff(log: seq<Event>)
    ensures Replay(log).Some? <==> forall k: nat :: k < |log| ==> Finds(log, k)
  {
    hide Apply, Known;
    if log != [] {
      var n := |log| - 1;
      ReplaysIff(log[..n]);
      if Replay(log[..n]).Some? { ReplayIsView(log[..n]); }
      forall k: nat | k < n ensures Finds(log[..n], k) <==> Finds(log, k) {
        assert log[..n][..k] == log[..k];
      }
      assert Finds(log, n) <==> Known(View(log[..n], log[n].id), log[n]);
    }
  }

  predicate NoDuplicates(ids: seq<MsgId>) {
    forall i, j :: 0 <= i < j < |ids| ==> ids[i] != ids[j]
  }

  // ------------------------------------------------------------------
  // The lifecycle of a message
  // ------------------------------------------------------------------

  predicate IsCommitting(m: Option<StoredMessage>) { m.Some? && m.value.state == COMMITTING }

  /** READY or any later state. */
  predicate PastCommit(m: Option<StoredMessage>) { m.Some? && m.value.state != COMMITTING }

  /** States a restart sends back to the workers. */
  predicate Unfinished(m: Option<StoredMessage>) {
    m.Some? && m.value.state in {READY, PROCESSING, RETRY_WAIT}
  }

  /** A message whose result is durable and may be published. */
  predicate HasResult(m: Option<StoredMessage>) {
    m.Some? && m.value.state in {RESULT_PENDING, DONE}
  }

  /** Which event may follow in a message's life. */
  predicate LegalEvent(m: Option<StoredMessage>, e: Event) {
    match e
    case Stage(_, _) => m.None?
    case Discard(_) => IsCommitting(m)
    case SetState(_, READY) => IsCommitting(m)
    case SetState(_, PROCESSING) => Unfinished(m)
    case Retry(_, n) => m.Some? && m.value.state == PROCESSING && n == m.value.retryCount + 1
    case Result(_, _) => m.Some? && m.value.state == PROCESSING
    case Published(_, c) =>
      && m.Some? && m.value.state == RESULT_PENDING && m.value.result.Some?
      && c == m.value.publishedCount + 1 && c <= |m.value.result.value|
    case SetState(_, DONE) =>
      && m.Some? && m.value.state == RESULT_PENDING && m.value.result.Some?
      && m.value.publishedCount == |m.value.result.value|
    case _ => false
  }

  /** No message waits for the outcome of its XA commit. */
  ghost predicate Quiet(log: seq<Event>) {
    forall id :: !IsCommitting(View(log, id))
  }

  /** Every event is legal where it stands, and a message is staged only
      while no other one is COMMITTING. */
  ghost predicate Legal(log: seq<Event>) {
    log == [] ||
    var before := log[..|log| - 1];
    var e := log[|log| - 1];
    Legal(before) && LegalEvent(View(before, e.id), e) && (e.Stage? ==> Quiet(before))
  }

  lemma {:induction false} LegalSnoc(log: seq<Event>, e: Event)
    requires Legal(log) && LegalEvent(View(log, e.id), e) && (e.Stage? ==> Quiet(log))
    ensures Legal(log + [e])
  {
    assert (log + [e])[..|log|] == log;
  }

  lemma {:induction false} LegalPrefix(log: seq<Event>, k: nat)
    requires Legal(log) && k <= |log|
    ensures Legal(log[..k])
  {
    if k < |log| {
      LegalPrefix(log[..|log| - 1], k);
      assert log[..|log| - 1][..k] == log[..k];
    } else {
      assert log[..k] == log;
    }
  }

  /** A legal journal never meets the unknown-message error, and neither does any prefix. */
  lemma {:induction false} LegalReplays(log: seq<Event>)
    requires Legal(log)
    ensures forall k :: 0 <= k <= |log| ==> Replay(log[..k]).Some?
    ensures Replay(log).Some?
  {
    assert log[..|log|] == log;
    if log != [] {
      var before := log[..|log| - 1];
      LegalReplays(before);
      ReplayIsView(before);
      forall k | 0 <= k < |log| ensures Replay(log[..k]).Some? { assert log[..k] == before[..k]; }
    }
  }

  /** At most one message is ever COMMITTING. */
  lemma {:induction false} AtMostOneCommitting(log: seq<Event>, a: MsgId, b: MsgId)
    requires Legal(log)
    requires IsCommitting(View(log, a)) && IsCommitting(View(log, b))
    ensures a == b
  {
    if log != [] {
      var before := log[..|log| - 1];
      var e := log[|log| - 1];
      if e.Stage? {
        assert !IsCommitting(View(before, a)) && !IsCommitting(View(before, b));
      } else {
        AtMostOneCommitting(before, a, b);
      }
    }
  }

  // ------------------------------------------------------------------
  // Facts about a message that no later event undoes
  // ------------------------------------------------------------------

  datatype Fact =
    | Live
    | AtLeastReady
    | ResultIs(r: Batch)
    | PublishedTo(r: Batch, upTo: nat)

  predicate Meets(m: Option<StoredMessage>, f: Fact) {
    && m.Some?
    && match f
       case Live => true
       case AtLeastReady => m.value.state != COMMITTING
       case ResultIs(r) => HasResult(m) && m.value.result == Some(r)
       case PublishedTo(r, n) => HasResult(m) && m.value.result == Some(r) && m.value.publishedCount >= n
  }

  /** The fact holds in every prefix of the journal from length `d` on, that is,
      wherever a crash that keeps the first `d` events may cut it. */
  ghost predicate Secured(log: seq<Event>, d: nat, id: MsgId, f: Fact) {
    forall q :: d <= q <= |log| ==> Meets(View(log[..q], id), f)
  }

  lemma {:induction false} MeetsPersists(m: Option<StoredMessage>, e: Event, f: Fact)
    requires Meets(m, f) && f != Live && LegalEvent(m, e)
    ensures Meets(Apply(m, e), f)
  {
  }

  lemma {:induction false} SecuredSnoc(log: seq<Event>, e: Event, d: nat, id: MsgId, f: Fact)
    requires d <= |log| && Secured(log, d, id, f)
    requires Meets(View(log + [e], id), f)
    ensures Secured(log + [e], d, id, f)
  {
    forall q | d <= q <= |log + [e]| ensures Meets(View((log + [e])[..q], id), f) {
      if q <= |log| {
        assert (log + [e])[..q] == log[..q];
      } else {
        assert (log + [e])[..q] == log + [e];
      }
    }
  }

  lemma {:induction false} SecuredCut(log: seq<Event>, d: nat, k: nat, id: MsgId, f: Fact)
    requires d <= k <= |log| && Secured(log, d, id, f)
    ensures Secured(log[..k], d, id, f)
  {
    forall q | d <= q <= k ensures Meets(View(log[..k][..q], id), f) {
      assert log[..k][..q] == log[..q];
    }
  }

  /** In a legal journal a fact other than Live, once true, stays true. */
  lemma {:induction false} FactsPersist(log: seq<Event>, d: nat, id: MsgId, f: Fact)
    requires Legal(log) && d <= |log| && f != Live
    requires Meets(View(log[..d], id), f)
    ensures Secured(log, d, id, f)
    ensures Meets(View(log, id), f)
  {
    if d == |log| {
      assert log[..d] == log;
    } else {
      var before := log[..|log| - 1];
      var e := log[|log| - 1];
      assert before[..d] == log[..d];
      FactsPersist(before, d, id, f);
      assert log == before + [e];
      if e.id == id {
        MeetsPersists(View(before, id), e, f);
      }
      SecuredSnoc(before, e, d, id, f);
    }
  }
}
