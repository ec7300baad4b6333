/** publishOne and the startup re-bundling loop, as code over the store. */
module Publisher {
  import opened Wrappers
  import opened Journal
  import opened DurableStoreClass

  /** The two output queues, as one sequence of what was enqueued. */
  class Outputs {
    var enqueued: seq<Item>

    constructor ()
      ensures enqueued == []
    {
      enqueued := [];
    }
  }

  /** publishPayload: retry until the queue accepts or the agent stops. `tries` are
      the answers of the queue to successive attempts; when they run out the agent
      is no longer running. */
  method PublishPayload(outputs: Outputs, item: Item, tries: seq<bool>) returns (done: bool)
    modifies outputs
    ensures done <==> true in tries
    ensures outputs.enqueued == if done then old(outputs.enqueued) + [item] else old(outputs.enqueued)
  {
    var i := 0;
    while i < |tries|
      invariant i <= |tries| && true !in tries[..i] && outputs.enqueued == old(outputs.enqueued)
    {
      if tries[i] {
        outputs.enqueued := outputs.enqueued + [item];
        return true;
      }
      i := i + 1;
    }
    assert tries[..|tries|] == tries;
    done := false;
  }

  /** What the environment does to one turn of the publish loop. */
  datatype Turn = Turn(tries: seq<bool>, fate: Fate)

  /** The other messages are untouched. */
  ghost predicate OnlyThis(before: map<MsgId, StoredMessage>, after: map<MsgId, StoredMessage>, id: MsgId) {
    before.Keys == after.Keys && forall other :: other in before && other != id ==> after[other] == before[other]
  }

  /** The store accepts events. */
  predicate Accepting(store: DurableStore)
    reads store
  {
    !store.journalFailure && !store.closing
  }

  /** One checkpoint. */
  method Checkpoint(store: DurableStore, id: MsgId, count: nat, fate: Fate) returns (ok: bool)
    requires store.Valid() && id in store.messages && count == store.messages[id].publishedCount + 1
    modifies store
    ensures store.Valid()
    ensures OnlyThis(old(store.messages), store.messages, id)
    ensures store.messages[id] == if ok then old(store.messages)[id].(publishedCount := count) else old(store.messages)[id]
    ensures ok == (old(Accepting(store)) && fate == Forced) && (ok ==> Accepting(store))
  {
    hide Replay, NoDuplicates;
    var r := store.SetPublishedCount(id, count, fate);
    ok := r == Returned;
  }

  /** The queue accepts the item of this turn. */
  predicate Goes(turns: seq<Turn>, k: int) { 0 <= k < |turns| && true in turns[k].tries }

  /** It does, and its checkpoint is forced. */
  predicate Succeeds(turns: seq<Turn>, k: int) { Goes(turns, k) && turns[k].fate == Forced }

  /** How far the loop got: items `from` to `to` are out, and the durable count is
      `to`, or one less when the last checkpoint failed. */
  ghost predicate Progress(items: Batch, from: nat, to: nat, count: nat, before: seq<Item>, after: seq<Item>) {
    from <= to <= |items| && after == before + items[from..to] && from <= count <= to <= count + 1
  }

  /** What stopped it: nothing before the end, or the first turn that does not succeed. */
  predicate StoppedBy(turns: seq<Turn>, accepting: bool, from: nat, to: nat, count: nat, size: nat) {
    && from <= count <= size
    && (forall k :: 0 <= k < count - from ==> Succeeds(turns, k)) && (count > from ==> accepting)
    && (count < size ==> !(accepting && Succeeds(turns, count - from)) && to == count + if Goes(turns, count - from) then 1 else 0)
  }

  /** One turn of the loop: the item goes out, and then its checkpoint. */
  method PublishTurn(store: DurableStore, outputs: Outputs, id: MsgId, item: Item, count: nat, turns: seq<Turn>, turn: nat)
    returns (out: bool, ok: bool)
    requires store.Valid() && id in store.messages && count == store.messages[id].publishedCount + 1
    modifies store, outputs
    ensures store.Valid() && OnlyThis(old(store.messages), store.messages, id)
    ensures out == Goes(turns, turn) && ok == (old(Accepting(store)) && Succeeds(turns, turn))
    ensures outputs.enqueued == if out then old(outputs.enqueued) + [item] else old(outputs.enqueued)
    ensures store.messages[id] == if ok then old(store.messages)[id].(publishedCount := count) else old(store.messages)[id]
    ensures ok ==> Accepting(store)
  {
    hide Replay, NoDuplicates;
    out, ok := false, false;
    out := PublishPayload(outputs, item, if turn < |turns| then turns[turn].tries else []);
    if out {
      ok := Checkpoint(store, id, count, if turn < |turns| then turns[turn].fate else NotWritten);
    }
  }

  /** publishOne's loop over the items that are not yet published: it gets past an item
      exactly if the queue accepts it and its checkpoint is durable, and goes on to the last. */
  method PublishItems(store: DurableStore, outputs: Outputs, id: MsgId, turns: seq<Turn>) returns (ok: bool, ghost to: nat)
    requires store.Valid() && id in store.messages && store.messages[id].result.Some?
    requires store.messages[id].publishedCount <= |store.messages[id].result.value|
    modifies store, outputs
    ensures store.Valid() && OnlyThis(old(store.messages), store.messages, id)
    ensures store.messages[id] == old(store.messages)[id].(publishedCount := store.messages[id].publishedCount)
    ensures var m := old(store.messages)[id];
      Progress(m.result.value, m.publishedCount, to, store.messages[id].publishedCount, old(outputs.enqueued), outputs.enqueued)
    ensures var m := old(store.messages)[id];
      StoppedBy(turns, old(Accepting(store)), m.publishedCount, to, store.messages[id].publishedCount, |m.result.value|)
    ensures ok == (store.messages[id].publishedCount == |old(store.messages)[id].result.value|)
    ensures ok ==> Accepting(store) == old(Accepting(store))
  {
    hide Flatten, Replay, NoDuplicates, Goes, Accepting;
    ghost var m := store.messages[id];
    ghost var accepting := Accepting(store);
    var items := store.messages[id].result.value;
    var index := store.messages[id].publishedCount;
    var turn := 0;
    to := index;
    while index < |items|
      invariant store.Valid() && OnlyThis(old(store.messages), store.messages, id)
      invariant m.publishedCount <= index <= |items| && to == index && turn == index - m.publishedCount
      invariant store.messages[id] == m.(publishedCount := index)
      invariant outputs.enqueued == old(outputs.enqueued) + items[m.publishedCount..index]
      invariant Accepting(store) == accepting && (turn > 0 ==> accepting) && forall k :: 0 <= k < turn ==> Succeeds(turns, k)
      decreases |items| - index
    {
      assert items[m.publishedCount..index] + [items[index]] == items[m.publishedCount..index + 1];
      var out, saved := PublishTurn(store, outputs, id, items[index], index + 1, turns, turn);
      if out { to := index + 1; }
      if !saved { return false, to; }
      index := index + 1;
      turn := turn + 1;
    }
    ok := true;
  }

  /** publishOne on a batch result. It succeeds exactly if the store accepts events and every
      remaining item is accepted by its queue and durably counted, and DONE is forced; the
      message is then DONE and every item from the stored count on has been enqueued once, in
      order. Otherwise it is not, and the items up to the first turn that fails have. */
  method PublishOne(store: DurableStore, outputs: Outputs, id: MsgId, turns: seq<Turn>, last: Fate) returns (ok: bool, ghost to: nat)
    requires store.Valid() && id in store.messages && store.messages[id].result.Some?
    requires store.messages[id].publishedCount <= |store.messages[id].result.value|
    modifies store, outputs
    ensures store.Valid() && OnlyThis(old(store.messages), store.messages, id)
    ensures var m := old(store.messages)[id];
      Progress(m.result.value, m.publishedCount, to, store.messages[id].publishedCount, old(outputs.enqueued), outputs.enqueued)
    ensures var m := old(store.messages)[id];
      StoppedBy(turns, old(Accepting(store)), m.publishedCount, to, store.messages[id].publishedCount, |m.result.value|)
    ensures var m := old(store.messages)[id];
      ok <==> (&& old(Accepting(store)) && last == Forced
               && forall k :: 0 <= k < |m.result.value| - m.publishedCount ==> Succeeds(turns, k))
    ensures var m := old(store.messages)[id];
      if ok then
        to == |m.result.value| && store.messages[id] == m.(publishedCount := to, state := DONE)
      else
        store.messages[id] == m.(publishedCount := store.messages[id].publishedCount)
  {
    hide Replay, NoDuplicates;
    ok, to := PublishItems(store, outputs, id, turns);
    if ok {
      var r := store.SetState(id, DONE, last);
      ok := r == Returned;
    }
  }

  // ------------------------------------------------------------------
  // Re-bundling at startup
  // ------------------------------------------------------------------

  function Flatten(bundles: seq<seq<MsgId>>): seq<MsgId> {
    if bundles == [] then [] else Flatten(bundles[..|bundles| - 1]) + bundles[|bundles| - 1]
  }

  function Largest(bundleSize: nat): nat { if bundleSize == 0 then 1 else bundleSize }

  /** The bundles concatenate exactly to the recovered list; all but the last have
      the configured size, and none is empty. A size of 0 works like 1. */
  method Rebundle(recovered: seq<MsgId>, bundleSize: nat) returns (bundles: seq<seq<MsgId>>)
    ensures Flatten(bundles) == recovered
    ensures forall i :: 0 <= i < |bundles| ==> 0 < |bundles[i]| <= Largest(bundleSize)
    ensures forall i :: 0 <= i < |bundles| - 1 ==> |bundles[i]| == Largest(bundleSize)
  {
    hide Flatten;
    bundles := [];
    var bundle: seq<MsgId> := [];
    var i := 0;
    FlattenNothing();
    while i < |recovered|
      invariant i <= |recovered| && Flatten(bundles) + bundle == recovered[..i]
      invariant forall j :: 0 <= j < |bundles| ==> |bundles[j]| == Largest(bundleSize)
      invariant |bundle| < Largest(bundleSize)
    {
      assert recovered[..i + 1] == recovered[..i] + [recovered[i]];
      bundle := bundle + [recovered[i]];
      if |bundle| >= bundleSize {
        FlattenSnoc(bundles, bundle);
        bundles := bundles + [bundle];
        bundle := [];
      }
      i := i + 1;
    }
    assert recovered[..i] == recovered;
    if bundle != [] {
      FlattenSnoc(bundles, bundle);
      bundles := bundles + [bundle];
    }
  }

  lemma {:induction false} FlattenNothing()
    ensures Flatten([]) == []
  {
  }

  lemma {:induction false} FlattenSnoc(bundles: seq<seq<MsgId>>, bundle: seq<MsgId>)
    ensures Flatten(bundles + [bundle]) == Flatten(bundles) + bundle
  {
    assert (bundles + [bundle])[..|bundles|] == bundles;
  }

  lemma {:induction false} FlattenLength(bundles: seq<seq<MsgId>>, size: nat)
    requires forall i :: 0 <= i < |bundles| ==> 0 < |bundles[i]| <= size
    requires forall i :: 0 <= i < |bundles| - 1 ==> |bundles[i]| == size
    ensures |Flatten(bundles)| <= |bundles| * size
    ensures bundles != [] ==> (|bundles| - 1) * size < |Flatten(bundles)|
  {
    if bundles != [] {
      var before := bundles[..|bundles| - 1];
      assert forall i :: 0 <= i < |before| ==> |before[i]| == size;
      SameSize(before, size);
      assert |bundles| * size == (|bundles| - 1) * size + size;
    }
  }

  lemma {:induction false} SameSize(bundles: seq<seq<MsgId>>, size: nat)
    requires forall i :: 0 <= i < |bundles| ==> |bundles[i]| == size
    ensures |Flatten(bundles)| == |bundles| * size
  {
    if bundles != [] {
      SameSize(bundles[..|bundles| - 1], size);
    }
  }

  /** The bundles are put on the bounded bundleQueue before the dispatcher thread
      exists, so startup gets past them exactly when they all fit: when the number
      of recovered messages is at most capacity times the bundle size. */
  lemma {:induction false} StartupFitsIff(recovered: seq<MsgId>, bundleSize: nat, bundles: seq<seq<MsgId>>, capacity: nat)
    requires Flatten(bundles) == recovered
    requires forall i :: 0 <= i < |bundles| ==> 0 < |bundles[i]| <= Largest(bundleSize)
    requires forall i :: 0 <= i < |bundles| - 1 ==> |bundles[i]| == Largest(bundleSize)
    ensures |bundles| <= capacity <==> |recovered| <= capacity * Largest(bundleSize)
  {
    var size := Largest(bundleSize);
    FlattenLength(bundles, size);
    if |bundles| <= capacity {
      Scale(|bundles|, capacity, size);
    } else {
      Scale(capacity, |bundles| - 1, size);
    }
  }

  lemma {:induction false} Scale(a: nat, b: nat, size: nat)
    requires a <= b
    ensures a * size <= b * size
  {
    assert b * size == a * size + (b - a) * size;
  }
}
