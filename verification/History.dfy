/** What must be true of the sequence of observations a run leaves behind. */
module History {
  import opened Journal
  import opened Pipeline

  // What has been seen since the last start (or since some later reset).

  /** `id` was put on bundleQueue since the last start. */
  predicate BundledSince(h: seq<Obs>, id: MsgId) {
    h != [] &&
    var o := h[|h| - 1];
    !o.Started? && ((o.Bundled? && id in o.ids) || BundledSince(h[..|h| - 1], id))
  }

  /** Item `i` of `id` was enqueued and neither a restart nor a failed checkpoint followed. */
  predicate EnqueuedSince(h: seq<Obs>, id: MsgId, i: nat) {
    h != [] &&
    var o := h[|h| - 1];
    !o.Started? && o != CheckpointFailed(id)
    && ((o.Enqueued? && o.id == id && o.index == i) || EnqueuedSince(h[..|h| - 1], id, i))
  }

  /** An XA commit of `id` took effect and startup has not discarded it since. */
  predicate CommittedOpen(h: seq<Obs>, id: MsgId) {
    h != [] &&
    var o := h[|h| - 1];
    o != Discarded(id) && (o == Committed(id) || CommittedOpen(h[..|h| - 1], id))
  }

  predicate CommittedSinceStart(h: seq<Obs>) {
    h != [] &&
    var o := h[|h| - 1];
    !o.Started? && (o.Committed? || CommittedSinceStart(h[..|h| - 1]))
  }

  predicate DiscardedSinceStart(h: seq<Obs>) {
    h != [] &&
    var o := h[|h| - 1];
    !o.Started? && (o.Discarded? || DiscardedSinceStart(h[..|h| - 1]))
  }

  /** Whether `o` may be observed after `h`. */
  ghost predicate Admissible(h: seq<Obs>, o: Obs) {
    match o
    case Enqueued(id, r, i) =>
      && i < |r|
      && (forall j: nat :: j < i ==> Enqueued(id, r, j) in h)
      && !EnqueuedSince(h, id, i)
      && (forall r' :: ResultAcked(id, r') in h ==> r' == r)
    case Bundled(ids) =>
      NoDuplicates(ids) && (forall id :: id in ids ==> !BundledSince(h, id))
    case Worked(id) => forall r :: ResultAcked(id, r) !in h
    case Discarded(id) =>
      && Started in h && ReadyAcked(id) !in h && !CommittedSinceStart(h) && !DiscardedSinceStart(h)
    case _ => true
  }

  ghost predicate Good(h: seq<Obs>) {
    h == [] || (Good(h[..|h| - 1]) && Admissible(h[..|h| - 1], h[|h| - 1]))
  }

  /** The results of one message are enqueued in order, without going back. */
  ghost predicate InOrder(h: seq<Obs>) {
    forall a, b :: 0 <= a < b < |h| && h[a].Enqueued? && h[b].Enqueued? && h[a].id == h[b].id
      ==> h[a].r == h[b].r && h[a].index <= h[b].index
  }

  lemma {:induction false} GoodSnoc(h: seq<Obs>, o: Obs)
    requires Good(h) && Admissible(h, o)
    ensures Good(h + [o])
  {
    assert (h + [o])[..|h|] == h;
  }

  lemma {:induction false} SinceSnoc(h: seq<Obs>, o: Obs)
    ensures forall id :: BundledSince(h + [o], id) == (!o.Started? && ((o.Bundled? && id in o.ids) || BundledSince(h, id)))
    ensures forall id, i: nat ::
      EnqueuedSince(h + [o], id, i) == (!o.Started? && o != CheckpointFailed(id) && ((o.Enqueued? && o.id == id && o.index == i) || EnqueuedSince(h, id, i)))
    ensures forall id :: CommittedOpen(h + [o], id) == (o != Discarded(id) && (o == Committed(id) || CommittedOpen(h, id)))
    ensures CommittedSinceStart(h + [o]) == (!o.Started? && (o.Committed? || CommittedSinceStart(h)))
    ensures DiscardedSinceStart(h + [o]) == (!o.Started? && (o.Discarded? || DiscardedSinceStart(h)))
  {
    assert (h + [o])[..|h|] == h;
  }

  lemma {:induction false} GoodAt(h: seq<Obs>, k: nat)
    requires Good(h) && k < |h|
    ensures Good(h[..k]) && Admissible(h[..k], h[k])
  {
    if k < |h| - 1 {
      GoodAt(h[..|h| - 1], k);
      assert h[..|h| - 1][..k] == h[..k];
    }
  }

  lemma {:induction false} StillBundled(h: seq<Obs>, a: nat, id: MsgId)
    requires a < |h| && h[a].Bundled? && id in h[a].ids
    requires forall k :: a < k < |h| ==> !h[k].Started?
    ensures BundledSince(h, id)
  {
    if a < |h| - 1 { StillBundled(h[..|h| - 1], a, id); }
  }

  lemma {:induction false} StillEnqueued(h: seq<Obs>, a: nat)
    requires a < |h| && h[a].Enqueued?
    requires forall k :: a < k < |h| ==> !h[k].Started? && h[k] != CheckpointFailed(h[a].id)
    ensures EnqueuedSince(h, h[a].id, h[a].index)
  {
    if a < |h| - 1 { StillEnqueued(h[..|h| - 1], a); }
  }

  lemma {:induction false} StillCommitted(h: seq<Obs>, a: nat)
    requires a < |h| && h[a].Committed?
    requires forall k :: a < k < |h| ==> h[k] != Discarded(h[a].id)
    ensures CommittedOpen(h, h[a].id)
  {
    if a < |h| - 1 { StillCommitted(h[..|h| - 1], a); }
  }

  lemma {:induction false} StillCommittedSinceStart(h: seq<Obs>, a: nat)
    requires a < |h| && h[a].Committed?
    requires forall k :: a < k < |h| ==> !h[k].Started?
    ensures CommittedSinceStart(h)
  {
    if a < |h| - 1 { StillCommittedSinceStart(h[..|h| - 1], a); }
  }

  lemma {:induction false} StillDiscardedSinceStart(h: seq<Obs>, a: nat)
    requires a < |h| && h[a].Discarded?
    requires forall k :: a < k < |h| ==> !h[k].Started?
    ensures DiscardedSinceStart(h)
  {
    if a < |h| - 1 { StillDiscardedSinceStart(h[..|h| - 1], a); }
  }

  // ------------------------------------------------------------------
  // Good histories, read by index
  // ------------------------------------------------------------------

  /** Between two dispatches of a message the process was restarted. */
  lemma {:induction false} DispatchedOncePerStart(h: seq<Obs>, a: nat, b: nat, id: MsgId)
    requires Good(h) && a < b < |h|
    requires h[a].Bundled? && h[b].Bundled? && id in h[a].ids && id in h[b].ids
    ensures exists k :: a < k < b && h[k].Started?
  {
    GoodAt(h, b);
    if !exists k :: a < k < b && h[k].Started? {
      StillBundled(h[..b], a, id);
    }
  }

  /** An item is preceded by all earlier items of the same result. */
  lemma {:induction false} NoGaps(h: seq<Obs>, b: nat, j: nat) returns (a: nat)
    requires Good(h) && b < |h| && h[b].Enqueued? && j < h[b].index
    ensures a < b && h[a] == Enqueued(h[b].id, h[b].r, j)
  {
    GoodAt(h, b);
    assert Enqueued(h[b].id, h[b].r, j) in h[..b];
    a :| 0 <= a < b && h[..b][a] == Enqueued(h[b].id, h[b].r, j);
  }

  /** Each extra copy of an item is matched by a restart or a failed checkpoint. */
  lemma {:induction false} CopiesAreMatched(h: seq<Obs>, a: nat, b: nat)
    requires Good(h) && a < b < |h|
    requires h[a].Enqueued? && h[b].Enqueued? && h[a].id == h[b].id && h[a].index == h[b].index
    ensures exists k :: a < k < b && (h[k].Started? || h[k] == CheckpointFailed(h[a].id))
  {
    GoodAt(h, b);
    if !exists k :: a < k < b && (h[k].Started? || h[k] == CheckpointFailed(h[a].id)) {
      StillEnqueued(h[..b], a);
    }
  }

  /** Once setResultPending has returned, the work never runs again and nothing
      but that result is published. */
  lemma {:induction false} ResultIsFinal(h: seq<Obs>, a: nat, b: nat)
    requires Good(h) && a < b < |h| && h[a].ResultAcked?
    ensures h[b] != Worked(h[a].id)
    ensures h[b].Enqueued? && h[b].id == h[a].id ==> h[b].r == h[a].r
  {
    GoodAt(h, b);
    assert h[..b][a] == ResultAcked(h[a].id, h[a].r);
  }

  /** A message whose READY was acknowledged is never discarded; a discard comes
      after a restart that followed the commit; one start discards at most once. */
  lemma {:induction false} DiscardsAreBounded(h: seq<Obs>, a: nat, b: nat)
    requires Good(h) && a < b < |h| && h[b].Discarded?
    ensures h[a] != ReadyAcked(h[b].id)
    ensures h[a].Committed? || h[a].Discarded? ==> exists k :: a < k < b && h[k].Started?
  {
    GoodAt(h, b);
    assert h[..b][a] == h[a];
    if h[a].Committed? && !exists k :: a < k < b && h[k].Started? {
      StillCommittedSinceStart(h[..b], a);
    }
    if h[a].Discarded? && !exists k :: a < k < b && h[k].Started? {
      StillDiscardedSinceStart(h[..b], a);
    }
  }

  function Count(h: seq<Obs>, discards: bool): nat {
    if h == [] then 0
    else Count(h[..|h| - 1], discards)
         + if (if discards then h[|h| - 1].Discarded? else h[|h| - 1].Started?) then 1 else 0
  }

  lemma {:induction false} CountStarts(h: seq<Obs>)
    requires Started in h
    ensures Count(h, false) > 0
  {
    if !h[|h| - 1].Started? { CountStarts(h[..|h| - 1]); }
  }

  /** No more messages are discarded than the process was started times. */
  lemma {:induction false} LossIsBounded(h: seq<Obs>)
    requires Good(h)
    ensures Count(h, true) <= Count(h, false)
    ensures Count(h, true) > 0 && !DiscardedSinceStart(h) ==> Count(h, true) < Count(h, false)
  {
    if h != [] {
      LossIsBounded(h[..|h| - 1]);
      if h[|h| - 1].Discarded? { CountStarts(h[..|h| - 1]); }
    }
  }
}
