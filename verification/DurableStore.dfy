/** The store as one caller sees it: a map of messages kept in step with the
    journal, operation by operation. */
module DurableStoreClass {
  import opened Wrappers
  import opened Journal
  import StoreProtocol

  /** What becomes of an appended event: forced to disk, or the writer fails
      before or after the line reached the file. */
  datatype Fate = Forced | NotWritten | WrittenNotForced

  /** Normal return, the append's IOException, or the check's IllegalArgumentException. */
  datatype Outcome = Returned | IoError | Refused

  /** The messages with one of the given states, in insertion order. */
  function Select(order: seq<MsgId>, m: map<MsgId, StoredMessage>, states: set<State>): seq<MsgId> {
    if order == [] then []
    else Select(order[..|order| - 1], m, states)
         + if order[|order| - 1] in m && m[order[|order| - 1]].state in states then [order[|order| - 1]] else []
  }

  const RECOVERABLE: set<State> := {COMMITTING, READY, PROCESSING, RETRY_WAIT}

  class DurableStore {
    var messages: map<MsgId, StoredMessage>
    var order: seq<MsgId>          // LinkedHashMap iteration order
    var journal: seq<Event>        // complete lines of the file
    var journalFailure: bool
    var closing: bool

    /** Before a failure memory is the replay of the file; after it, it may be one event behind. */
    ghost predicate Valid()
      reads this
    {
      && Replay(journal).Some?
      && NoDuplicates(order) && (forall id :: id in order <==> id in messages)
      && (Replay(journal) == Some(messages)
          || (journalFailure && journal != []
              && Replay(journal[..|journal| - 1]) == Some(messages)))
      && (!journalFailure ==> Replay(journal) == Some(messages))
    }

    constructor (file: seq<Event>, recovered: map<MsgId, StoredMessage>, insertion: seq<MsgId>)
      requires Replay(file) == Some(recovered)
      requires NoDuplicates(insertion) && (forall id :: id in insertion <==> id in recovered)
      ensures Valid() && messages == recovered && journal == file && order == insertion
      ensures !journalFailure && !closing
    {
      messages := recovered;
      order := insertion;
      journal := file;
      journalFailure := false;
      closing := false;
    }

    /** append: enqueue the event and wait for its batch. That these three are all the fates a
        request can have, once its caller is released, is RequestFates in GroupCommitRefines. */
    method Append(e: Event, fate: Fate) returns (ok: bool)
      modifies this`journal, this`journalFailure
      ensures old(journalFailure) || closing ==> !ok && journal == old(journal) && journalFailure == old(journalFailure)
      ensures !old(journalFailure) && !closing ==>
        && ok == (fate == Forced) && journalFailure == (fate != Forced)
        && journal == if fate == NotWritten then old(journal) else old(journal) + [e]
    {
      if closing || journalFailure { return false; }
      if fate != NotWritten { journal := journal + [e]; }
      journalFailure := fate != Forced;
      ok := fate == Forced;
    }

    /** What every operation does whose arguments are accepted: after a failure or while
        closing nothing; otherwise its event's fate decides what is in the file, and it returns,
        with memory updated, exactly if the event was forced. */
    twostate predicate Performed(e: Event, fate: Fate, r: Outcome)
      reads this
    {
      if r == Refused then unchanged(this)
      else if old(journalFailure) || old(closing) then r == IoError && unchanged(this)
      else
        && closing == old(closing) && journalFailure == (fate != Forced)
        && journal == (if fate == NotWritten then old(journal) else old(journal) + [e])
        && r == (if fate == Forced then Returned else IoError)
        && messages == (if fate == Forced then Put(old(messages), e.id, Apply(Lookup(old(messages), e.id), e)) else old(messages))
        && (fate != Forced ==> order == old(order))
    }

    lemma ReplaySnoc(log: seq<Event>, m: map<MsgId, StoredMessage>, e: Event)
      requires Replay(log) == Some(m) && Known(Lookup(m, e.id), e)
      ensures Replay(log + [e]) == Some(Put(m, e.id, Apply(Lookup(m, e.id), e)))
      ensures (log + [e])[..|log + [e]| - 1] == log
    {
      assert (log + [e])[..|log + [e]| - 1] == log;
    }

    /** stage: an already known message is returned as it is. */
    method Stage(id: MsgId, data: Bytes, fate: Fate) returns (r: Outcome)
      requires Valid()
      modifies this
      ensures Valid()
      ensures id in old(messages) ==> r == Returned && unchanged(this)
      ensures id !in old(messages) ==> r != Refused && Performed(Event.Stage(id, data), fate, r)
      ensures id !in old(messages) && r == Returned ==> order == old(order) + [id]
    {
      if id in messages { return Returned; }
      var e := Event.Stage(id, data);
      if Replay(journal) == Some(messages) { ReplaySnoc(journal, messages, e); }
      var ok := Append(e, fate);
      if !ok { return IoError; }
      messages := messages[id := StoredMessage(data, COMMITTING, 0, None, 0)];
      order := order + [id];
      r := Returned;
    }

    method SetState(id: MsgId, state: State, fate: Fate) returns (r: Outcome)
      requires Valid()
      modifies this
      ensures Valid() && order == old(order)
      ensures r == Refused <==> id !in old(messages)
      ensures Performed(Event.SetState(id, state), fate, r)
      ensures r == Returned ==> messages == old(messages)[id := old(messages)[id].(state := state)]
    {
      if id !in messages { return Refused; }
      var e := Event.SetState(id, state);
      if Replay(journal) == Some(messages) { ReplaySnoc(journal, messages, e); }
      var ok := Append(e, fate);
      if !ok { return IoError; }
      messages := messages[id := messages[id].(state := state)];
      r := Returned;
    }

    method Discard(id: MsgId, fate: Fate) returns (r: Outcome)
      requires Valid()
      modifies this
      ensures Valid() && r != Refused
      ensures id !in old(messages) ==> r == Returned && unchanged(this)
      ensures id in old(messages) ==> Performed(Event.Discard(id), fate, r)
      ensures r == Returned ==> id !in messages
      ensures id in old(messages) && r == Returned ==> order == Without(old(order), id)
    {
      if id !in messages { return Returned; }
      var e := Event.Discard(id);
      if Replay(journal) == Some(messages) { ReplaySnoc(journal, messages, e); }
      var ok := Append(e, fate);
      if !ok { return IoError; }
      messages := messages - {id};
      order := Without(order, id);
      WithoutKeeps(old(order), id);
      r := Returned;
    }

    method SetRetry(id: MsgId, fate: Fate) returns (r: Outcome)
      requires Valid()
      modifies this
      ensures Valid() && order == old(order)
      ensures r == Refused <==> id !in old(messages)
      ensures id in old(messages) ==> Performed(Retry(id, old(messages)[id].retryCount + 1), fate, r)
    {
      if id !in messages { return Refused; }
      var next := messages[id].retryCount + 1;
      var e := Retry(id, next);
      if Replay(journal) == Some(messages) { ReplaySnoc(journal, messages, e); }
      var ok := Append(e, fate);
      if !ok { return IoError; }
      messages := messages[id := messages[id].(retryCount := next, state := RETRY_WAIT)];
      r := Returned;
    }

    method SetResultPending(id: MsgId, result: Batch, fate: Fate) returns (r: Outcome)
      requires Valid()
      modifies this
      ensures Valid() && order == old(order)
      ensures r == Refused <==> id !in old(messages)
      ensures Performed(Result(id, result), fate, r)
    {
      if id !in messages { return Refused; }
      var e := Result(id, result);
      if Replay(journal) == Some(messages) { ReplaySnoc(journal, messages, e); }
      var ok := Append(e, fate);
      if !ok { return IoError; }
      messages := messages[id := messages[id].(result := Some(result), publishedCount := 0, state := RESULT_PENDING)];
      r := Returned;
    }

    method SetPublishedCount(id: MsgId, count: nat, fate: Fate) returns (r: Outcome)
      requires Valid()
      modifies this
      ensures Valid() && order == old(order)
      ensures r == Refused <==> id !in old(messages) || count != old(messages)[id].publishedCount + 1
      ensures Performed(Published(id, count), fate, r)
      ensures r == Returned ==> messages == old(messages)[id := old(messages)[id].(publishedCount := count)]
    {
      if id !in messages || count != messages[id].publishedCount + 1 { return Refused; }
      var e := Published(id, count);
      if Replay(journal) == Some(messages) { ReplaySnoc(journal, messages, e); }
      var ok := Append(e, fate);
      if !ok { return IoError; }
      messages := messages[id := messages[id].(publishedCount := count)];
      r := Returned;
    }

    /** The messages a restart goes on with: those that wait for their XA commit's outcome and
        those that are not finished, once each and in insertion order. */
    method RecoverableMessages() returns (ids: seq<MsgId>)
      requires Valid()
      ensures forall id :: id in ids <==> IsCommitting(Lookup(messages, id)) || Unfinished(Lookup(messages, id))
      ensures NoDuplicates(ids) && KeepsOrder(order, ids)
    {
      ids := Scan(RECOVERABLE);
      SelectFinds(order, messages, RECOVERABLE);
      SelectKeepsOrder(order, messages, RECOVERABLE);
    }

    /** The messages whose result waits for publication, once each and in insertion order. */
    method PendingResults() returns (ids: seq<MsgId>)
      requires Valid()
      ensures forall id :: id in ids <==> id in messages && messages[id].state == RESULT_PENDING
      ensures NoDuplicates(ids) && KeepsOrder(order, ids)
    {
      ids := Scan({RESULT_PENDING});
      SelectFinds(order, messages, {RESULT_PENDING});
      SelectKeepsOrder(order, messages, {RESULT_PENDING});
    }

    method Scan(states: set<State>) returns (ids: seq<MsgId>)
      ensures ids == Select(order, messages, states)
    {
      ids := [];
      var i := 0;
      assert order[..|order|] == order;
      while i < |order|
        invariant i <= |order| && ids == Select(order[..i], messages, states)
      {
        assert order[..i + 1][..i] == order[..i];
        if order[i] in messages && messages[order[i]].state in states { ids := ids + [order[i]]; }
        i := i + 1;
      }
    }
  }

  function Without(order: seq<MsgId>, id: MsgId): seq<MsgId> {
    if order == [] then []
    else if order[0] == id then order[1..]
    else [order[0]] + Without(order[1..], id)
  }

  lemma {:induction false} WithoutKeeps(order: seq<MsgId>, id: MsgId)
    requires NoDuplicates(order)
    ensures NoDuplicates(Without(order, id))
    ensures forall x :: x in Without(order, id) <==> x in order && x != id
  {
    if order != [] {
      WithoutKeeps(order[1..], id);
      assert forall x :: x in order <==> x == order[0] || x in order[1..];
      assert order[0] !in order[1..];
    }
  }

  /** Removing a key takes out its place and leaves the order of the others. */
  lemma {:induction false} WithoutCuts(order: seq<MsgId>, id: MsgId) returns (i: nat)
    ensures i <= |order| && (id in order <==> i < |order|)
    ensures if i < |order| then order[i] == id && Without(order, id) == order[..i] + order[i + 1..] else Without(order, id) == order
  {
    i := 0;
    if order != [] && order[0] != id {
      i := WithoutCuts(order[1..], id);
      i := i + 1;
      var rest := Without(order[1..], id);
      if i < |order| {
        assert [order[0]] + (order[1..][..i - 1] + order[1..][i..]) == order[..i] + order[i + 1..];
      } else {
        assert [order[0]] + order[1..] == order;
      }
    }
  }

  /** Selecting finds exactly the messages in those states, once each. */
  lemma {:induction false} SelectFinds(order: seq<MsgId>, m: map<MsgId, StoredMessage>, states: set<State>)
    requires NoDuplicates(order)
    ensures NoDuplicates(Select(order, m, states))
    ensures forall id :: id in Select(order, m, states) <==> id in order && id in m && m[id].state in states
  {
    if order != [] {
      var before := order[..|order| - 1];
      assert order == before + [order[|order| - 1]];
      SelectFinds(before, m, states);
    }
  }

  lemma {:induction false} Apart(order: seq<MsgId>, p: nat)
    requires NoDuplicates(order) && p < |order|
    ensures order[p] in order[..|order| - 1] <==> p < |order| - 1
  {
  }

  /** Whatever stands before another in `ids` stands before it in `order`. */
  predicate KeepsOrder(order: seq<MsgId>, ids: seq<MsgId>) {
    forall i, j, p, q :: 0 <= i < j < |ids| && 0 <= p < |order| && 0 <= q < |order| && order[p] == ids[i] && order[q] == ids[j] ==>
      p < q
  }

  lemma {:induction false} SelectKeepsOrder(order: seq<MsgId>, m: map<MsgId, StoredMessage>, states: set<State>)
    requires NoDuplicates(order)
    ensures KeepsOrder(order, Select(order, m, states))
  {
    if order != [] {
      var before := order[..|order| - 1];
      SelectKeepsOrder(before, m, states);
      SelectFinds(before, m, states);
      var ids, first := Select(order, m, states), Select(before, m, states);
      forall i, j, p, q | 0 <= i < j < |ids| && 0 <= p < |order| && 0 <= q < |order| && order[p] == ids[i] && order[q] == ids[j]
        ensures p < q
      {
        assert ids[i] == first[i] && first[i] in before;
        Apart(order, p);
        Apart(order, q);
        if j < |first| {
          assert ids[j] == first[j] && first[j] in before;
          assert before[p] == first[i] && before[q] == first[j];
        }
      }
    }
  }

  /** Every stored message is in exactly one of recoverableMessages, pendingResults and the
      messages that are DONE. */
  lemma {:induction false} EachFoundOnce(order: seq<MsgId>, m: map<MsgId, StoredMessage>, id: MsgId)
    requires NoDuplicates(order) && (forall x :: x in order <==> x in m) && id in m
    ensures var recoverable, pending := Select(order, m, RECOVERABLE), Select(order, m, {RESULT_PENDING});
      if m[id].state == DONE then id !in recoverable && id !in pending else id in recoverable <==> id !in pending
  {
    SelectFinds(order, m, RECOVERABLE);
    SelectFinds(order, m, {RESULT_PENDING});
  }
}
