/** How the journal half of the pipeline's invariant survives each kind of change:
    an appended event, a longer durable part, a cut, an observation. */
module PipelineJournal {
  import opened Wrappers
  import opened Journal
  import opened StoreProtocol
  import opened Pipeline
  import opened History
  import opened PipelineInvariant

  /** What must hold of an event before it is appended. */
  ghost predicate MayAppend(log: seq<Event>, durable: nat, h: seq<Obs>, e: Event) {
    && LegalEvent(View(log, e.id), e)
    && (e.Stage? ==> Quiet(log))
    && (e == SetState(e.id, READY) ==> Secured(log, durable, e.id, Live))
    && (e.Discard? ==> !CommittedOpen(h, e.id))
    && (e.Published? ==>
          && e.count > 0 && View(log, e.id).Some? && View(log, e.id).value.result.Some?
          && Enqueued(e.id, View(log, e.id).value.result.value, e.count - 1) in h)
  }

  lemma {:induction false} DurablyAppend(log: seq<Event>, durable: nat, h: seq<Obs>, e: Event)
    requires JournalOK(log, durable, h) && MayAppend(log, durable, h, e)
    ensures Durably(log + [e], durable, h)
  {
    forall id ensures PastCommit(View(log + [e], id)) ==> Secured(log + [e], durable, id, Live) {
      ViewSnoc(log, e, id);
      if PastCommit(View(log + [e], id)) {
        assert PastCommit(View(log, id)) || e == SetState(id, READY);
        SecuredSnoc(log, e, durable, id, Live);
      }
    }
    forall id | CommittedOpen(h, id) ensures Secured(log + [e], durable, id, Live) {
      ViewSnoc(log, e, id);
      assert log[..|log|] == log;
      SecuredSnoc(log, e, durable, id, Live);
    }
    LegalSnoc(log, e);
    var log' := log + [e];
    assert log'[..durable] == log[..durable];
    forall id | ReadyAcked(id) in h ensures Secured(log', durable, id, AtLeastReady) {
      FactsPersist(log', durable, id, AtLeastReady);
    }
    forall id, r | ResultAcked(id, r) in h ensures Secured(log', durable, id, ResultIs(r)) {
      FactsPersist(log', durable, id, ResultIs(r));
    }
  }

  lemma {:induction false} WitnessedAppend(log: seq<Event>, durable: nat, h: seq<Obs>, e: Event)
    requires JournalOK(log, durable, h) && MayAppend(log, durable, h, e)
    ensures Witnessed(log + [e], h)
  {
    var log' := log + [e];
    forall p | 0 <= p < |log'| && log'[p].Published?
      ensures var m := View(log'[..p], log'[p].id);
        && m.Some? && m.value.result.Some? && log'[p].count > 0
        && Enqueued(log'[p].id, m.value.result.value, log'[p].count - 1) in h
    {
      if p < |log| {
        assert log'[..p] == log[..p];
      } else {
        assert log'[..p] == log;
      }
    }
  }

  lemma {:induction false} JournalAppend(log: seq<Event>, durable: nat, h: seq<Obs>, e: Event)
    requires JournalOK(log, durable, h) && MayAppend(log, durable, h, e)
    ensures JournalOK(log + [e], durable, h)
  {
    LegalSnoc(log, e);
    DurablyAppend(log, durable, h, e);
    WitnessedAppend(log, durable, h, e);
  }

  lemma {:induction false} TailAppend(log: seq<Event>, stable: nat, h: seq<Obs>, e: Event)
    requires Legal(log + [e]) && TailOK(log, stable, h)
    ensures TailOK(log + [e], stable, h)
  {
    var log' := log + [e];
    assert log'[..stable] == log[..stable];
    forall id, r, i: nat | Enqueued(id, r, i) in h ensures Secured(log', stable, id, PublishedTo(r, i)) {
      FactsPersist(log', stable, id, PublishedTo(r, i));
    }
  }

  lemma {:induction false} JournalGrow(log: seq<Event>, durable: nat, further: nat, h: seq<Obs>)
    requires JournalOK(log, durable, h) && durable <= further <= |log|
    ensures JournalOK(log, further, h)
  {
  }

  lemma {:induction false} TailGrow(log: seq<Event>, stable: nat, further: nat, h: seq<Obs>)
    requires TailOK(log, stable, h) && stable <= further <= |log|
    ensures TailOK(log, further, h)
  {
  }

  lemma {:induction false} DurablyCut(log: seq<Event>, durable: nat, k: nat, h: seq<Obs>)
    requires JournalOK(log, durable, h) && durable <= k <= |log|
    ensures Durably(log[..k], durable, h)
  {
    forall id | PastCommit(View(log[..k], id)) ensures Secured(log[..k], durable, id, Live) {
      FactsPersist(log, k, id, AtLeastReady);
      SecuredCut(log, durable, k, id, Live);
    }
    forall id | CommittedOpen(h, id) ensures Secured(log[..k], durable, id, Live) {
      SecuredCut(log, durable, k, id, Live);
    }
    forall id | ReadyAcked(id) in h ensures Secured(log[..k], durable, id, AtLeastReady) {
      SecuredCut(log, durable, k, id, AtLeastReady);
    }
    forall id, r | ResultAcked(id, r) in h ensures Secured(log[..k], durable, id, ResultIs(r)) {
      SecuredCut(log, durable, k, id, ResultIs(r));
    }
  }

  lemma {:induction false} JournalCut(log: seq<Event>, durable: nat, k: nat, h: seq<Obs>)
    requires JournalOK(log, durable, h) && durable <= k <= |log|
    ensures JournalOK(log[..k], durable, h)
  {
    LegalPrefix(log, k);
    DurablyCut(log, durable, k, h);
    forall p | 0 <= p < k ensures log[..k][..p] == log[..p] {
    }
  }

  lemma {:induction false} TailCut(log: seq<Event>, stable: nat, k: nat, h: seq<Obs>)
    requires TailOK(log, stable, h) && stable <= k <= |log|
    ensures TailOK(log[..k], stable, h)
  {
    forall id, r, i: nat | Enqueued(id, r, i) in h ensures Secured(log[..k], stable, id, PublishedTo(r, i)) {
      SecuredCut(log, stable, k, id, PublishedTo(r, i));
    }
  }

  /** What must hold of an observation before it is made. */
  ghost predicate MayObserve(log: seq<Event>, durable: nat, h: seq<Obs>, o: Obs) {
    && Admissible(h, o)
    && (o.Committed? ==> Secured(log, durable, o.id, Live))
    && (o.ReadyAcked? ==> Secured(log, durable, o.id, AtLeastReady))
    && (o.ResultAcked? ==> Secured(log, durable, o.id, ResultIs(o.r)))
  }

  lemma {:induction false} JournalObserve(log: seq<Event>, durable: nat, h: seq<Obs>, o: Obs)
    requires JournalOK(log, durable, h) && MayObserve(log, durable, h, o)
    ensures JournalOK(log, durable, h + [o])
  {
    GoodSnoc(h, o);
    SinceSnoc(h, o);
  }

  lemma {:induction false} TailObserve(log: seq<Event>, stable: nat, h: seq<Obs>, o: Obs)
    requires TailOK(log, stable, h)
    requires o.Enqueued? ==> Secured(log, stable, o.id, PublishedTo(o.r, o.index))
    requires o.Enqueued? ==> forall r, i: nat :: Enqueued(o.id, r, i) in h ==> r == o.r && i <= o.index
    ensures TailOK(log, stable, h + [o])
  {
    forall a, b | 0 <= a < b < |h + [o]| && (h + [o])[a].Enqueued? && (h + [o])[b].Enqueued? && (h + [o])[a].id == (h + [o])[b].id
      ensures (h + [o])[a].r == (h + [o])[b].r && (h + [o])[a].index <= (h + [o])[b].index
    {
      assert h[a] == Enqueued(h[a].id, h[a].r, h[a].index) && h[a] in h;
    }
  }

  /** Checkpoints record enqueues: whatever state a message is in, the items its
      count covers have been enqueued. */
  lemma {:induction false} CountedWereEnqueued(log: seq<Event>, h: seq<Obs>, id: MsgId, j: nat)
    requires Legal(log) && Witnessed(log, h)
    requires HasResult(View(log, id)) && j < View(log, id).value.publishedCount
    ensures View(log, id).value.result.Some?
    ensures Enqueued(id, View(log, id).value.result.value, j) in h
  {
    var before := log[..|log| - 1];
    var e := log[|log| - 1];
    forall p | 0 <= p < |before| ensures before[..p] == log[..p] {
    }
    assert Witnessed(before, h);
    if e.id != id {
      CountedWereEnqueued(before, h, id, j);
    } else if e.Published? && e.count == j + 1 {
      assert log[|log| - 1].Published?;
    } else {
      assert HasResult(View(before, id));
      CountedWereEnqueued(before, h, id, j);
    }
  }
}
