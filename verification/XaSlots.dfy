/** The JNI wrapper's queue table: 32 slots guarded by one mutex, each with at most
    one XA dequeue outstanding. Every method is one critical section, so any order
    of calls is an interleaving of threads. */
module XaSlots {
  import opened Wrappers

  const JNI_MAX_QUEUES := 32
  const JNI_RECV_BUFFER_SIZE := 65536
  const EN_NORMAL_MODE := 0
  const EN_FULL_BACKUP_MODE := 2

  datatype Slot = Slot(open: bool, xaPending: bool, xaSeq: int)

  /** Calls on queues that reached the FileQueue library. */
  datatype NativeCall =
    | En(slot: int, mode: int)
    | DeXA(slot: int, seqNo: int)
    | CommitXA(slot: int, seqNo: int)
    | CancelXA(slot: int, seqNo: int)

  /** The sequence number of the dequeue the library still waits to see resolved. */
  function Owed(calls: seq<NativeCall>, slot: int): Option<int> {
    if calls == [] then None
    else
      var c := calls[|calls| - 1];
      if c.slot != slot || c.En? then Owed(calls[..|calls| - 1], slot)
      else if c.DeXA? then Some(c.seqNo)
      else None
  }

  /** Whether the call may follow: an enqueue or a dequeue while nothing is owed on its slot,
      a resolution of the dequeue that is. */
  predicate MayCall(calls: seq<NativeCall>, c: NativeCall) {
    if c.DeXA? || c.En? then Owed(calls, c.slot) == None else Owed(calls, c.slot) == Some(c.seqNo)
  }

  /** Dequeues and resolutions alternate in every slot, with matching numbers, and no enqueue
      falls between the two. */
  predicate WellBracketed(calls: seq<NativeCall>) {
    calls == [] ||
    var before := calls[..|calls| - 1];
    var c := calls[|calls| - 1];
    WellBracketed(before) && MayCall(before, c)
  }

  function Count(calls: seq<NativeCall>, slot: int, dequeues: bool): nat {
    if calls == [] then 0
    else
      var c := calls[|calls| - 1];
      Count(calls[..|calls| - 1], slot, dequeues) + if c.slot == slot && !c.En? && c.DeXA? == dequeues then 1 else 0
  }

  /** Dequeues minus resolutions is 1 while one is owed and 0 otherwise. */
  lemma {:induction false} Balanced(calls: seq<NativeCall>, slot: int)
    requires WellBracketed(calls)
    ensures Count(calls, slot, true) == Count(calls, slot, false) + if Owed(calls, slot).Some? then 1 else 0
  {
    if calls != [] { Balanced(calls[..|calls| - 1], slot); }
  }

  lemma {:induction false} OwedSnoc(calls: seq<NativeCall>, c: NativeCall, slot: int)
    ensures Owed(calls + [c], slot) ==
      if c.slot != slot || c.En? then Owed(calls, slot) else if c.DeXA? then Some(c.seqNo) else None
    ensures WellBracketed(calls + [c]) == (WellBracketed(calls) && MayCall(calls, c))
  {
    assert (calls + [c])[..|calls|] == calls;
  }

  /** No enqueue reaches the library on a slot between a dequeue and its resolution. */
  lemma {:induction false} EnqueuesFallBetween(calls: seq<NativeCall>, i: nat)
    requires WellBracketed(calls) && i < |calls| && calls[i].En?
    ensures Owed(calls[..i], calls[i].slot) == None
    decreases |calls|
  {
    var before := calls[..|calls| - 1];
    if i < |before| {
      EnqueuesFallBetween(before, i);
      assert before[..i] == calls[..i];
    }
  }

  class SlotTable {
    var loggerOpen: bool
    const slots: array<Slot>
    ghost var calls: seq<NativeCall>

    ghost predicate Consistent()
      reads this, slots
    {
      && slots.Length == JNI_MAX_QUEUES
      && (forall i :: 0 <= i < slots.Length ==> (slots[i].open ==> loggerOpen) && (slots[i].xaPending ==> slots[i].open))
    }

    /** The table's pending marks are the library's outstanding dequeues. */
    ghost predicate Tracks()
      reads this, slots
    {
      && WellBracketed(calls)
      && (forall i :: 0 <= i < slots.Length ==>
            Owed(calls, i) == if slots[i].xaPending then Some(slots[i].xaSeq) else None)
    }

    ghost predicate Valid()
      reads this, slots
    {
      Consistent() && Tracks()
    }

    constructor ()
      ensures Valid() && !loggerOpen && fresh(slots)
      ensures slots.Length == 32 && forall i :: 0 <= i < 32 ==> slots[i] == Slot(false, false, 0)
    {
      loggerOpen := false;
      slots := new Slot[JNI_MAX_QUEUES](_ => Slot(false, false, 0));
      calls := [];
    }

    /** The queue with this id is open. */
    ghost predicate IsOpen(id: int)
      reads this, slots
    {
      0 <= id < slots.Length && slots[id].open
    }

    /** Its dequeue with this number is outstanding. */
    ghost predicate IsPending(id: int, seqNo: int)
      reads this, slots
    {
      IsOpen(id) && slots[id].xaPending && slots[id].xaSeq == seqNo
    }

    predicate ValidQueueId(id: int)
      reads this, slots
    {
      0 <= id < JNI_MAX_QUEUES && id < slots.Length && slots[id].open
    }

    /** A token matches the one dequeue outstanding on its slot. */
    predicate Holds(id: int, seqNo: int)
      reads this, slots
    {
      ValidQueueId(id) && slots[id].xaPending && slots[id].xaSeq == seqNo && loggerOpen
    }

    method OpenLogger(rc: int) returns (r: int)
      requires Valid()
      modifies this`loggerOpen
      ensures Valid()
      ensures r == if old(loggerOpen) then -1 else rc
      ensures loggerOpen <==> old(loggerOpen) || rc > 0
    {
      if loggerOpen { return -1; }
      loggerOpen := rc > 0;
      r := rc;
    }

    /** `stillSet`: whether the library left the logger pointer set. */
    method CloseLogger(rc: int, stillSet: bool) returns (r: int)
      requires Valid()
      modifies this`loggerOpen
      ensures Valid()
      ensures !old(loggerOpen) || (exists i :: 0 <= i < slots.Length && slots[i].open) ==> r == -1 && loggerOpen == old(loggerOpen)
      ensures old(loggerOpen) && (forall i :: 0 <= i < slots.Length ==> !slots[i].open) ==> r == rc && loggerOpen == stillSet
    {
      if !loggerOpen { return -1; }
      for i := 0 to JNI_MAX_QUEUES
        invariant forall j :: 0 <= j < i ==> !slots[j].open
      {
        if slots[i].open { return -1; }
      }
      loggerOpen := stillSet;
      r := rc;
    }

    /** The lowest free slot is taken; `granted` is the library's answer. */
    method OpenQueue(granted: bool) returns (r: int)
      requires Valid()
      modifies slots
      ensures Valid()
      ensures r == -1 <==> !loggerOpen || !granted || (forall i :: 0 <= i < slots.Length ==> old(slots[i].open))
      ensures r == -1 ==> forall i :: 0 <= i < slots.Length ==> slots[i] == old(slots[i])
      ensures r != -1 ==>
        && 0 <= r < slots.Length && !old(slots[r].open) && slots[r] == Slot(true, false, 0)
        && (forall i :: 0 <= i < r ==> old(slots[i].open))
        && (forall i :: 0 <= i < slots.Length && i != r ==> slots[i] == old(slots[i]))
    {
      if !loggerOpen { return -1; }
      var i := 0;
      while i < JNI_MAX_QUEUES && slots[i].open
        invariant 0 <= i <= JNI_MAX_QUEUES && forall j :: 0 <= j < i ==> slots[j].open
      {
        i := i + 1;
      }
      if i == JNI_MAX_QUEUES || !granted { return -1; }
      slots[i] := Slot(true, false, 0);
      r := i;
    }

    method CloseQueue(id: int, rc: int) returns (r: int)
      requires Valid()
      modifies slots
      ensures Valid()
      ensures var taken := old(IsOpen(id) && !slots[id].xaPending);
        && r == (if taken then rc else -1)
        && (taken && rc == 1 ==> slots[id] == Slot(false, false, 0))
        && (forall i :: 0 <= i < slots.Length && !(taken && rc == 1 && i == id) ==> slots[i] == old(slots[i]))
    {
      if !ValidQueueId(id) || slots[id].xaPending { return -1; }
      if rc == 1 { slots[id] := Slot(false, false, 0); }
      r := rc;
    }

    /** None stands for Java null. The call reaches the library exactly for a known mode on an
        open queue for which the library waits for no resolution; the answer is then the
        library's. The table stays as it is. */
    method EnQueue(id: int, mode: int, rc: int) returns (r: Option<int>)
      requires Valid()
      modifies this`calls
      ensures Valid()
      ensures r.Some? <==>
        (&& 0 <= mode <= 2 && loggerOpen && IsOpen(id)
         && Owed(old(calls), id) == None)
      ensures if r.Some? then r.value == rc && calls == old(calls) + [En(id, mode)] else calls == old(calls)
    {
      if mode < EN_NORMAL_MODE || mode > EN_FULL_BACKUP_MODE { return None; }
      if !ValidQueueId(id) || !loggerOpen || slots[id].xaPending { return None; }
      forall i | 0 <= i < slots.Length ensures Owed(calls + [En(id, mode)], i) == Owed(calls, i) {
        OwedSnoc(calls, En(id, mode), i);
      }
      OwedSnoc(calls, En(id, mode), id);
      calls := calls + [En(id, mode)];
      r := Some(rc);
    }

    /** deQueueXA up to the release of the mutex; `rc` and `seqNo` are the library's
        answer. The table keeps track of the library exactly when the library returns
        no more than the buffer holds. */
    method DeQueueXA(id: int, rc: int, seqNo: int) returns (token: bool)
      requires Valid()
      modifies slots, this`calls
      ensures var asked := old(IsOpen(id) && loggerOpen && !slots[id].xaPending);
        && token == (asked && 0 < rc <= 65536)
        && calls == (if asked && rc > 0 then old(calls) + [DeXA(id, seqNo)] else old(calls))
        && Consistent()
        && (Valid() <==> !(asked && rc > 65536))
      ensures token ==> IsPending(id, seqNo)
      ensures forall i :: 0 <= i < slots.Length && !(token && i == id) ==> slots[i] == old(slots[i])
    {
      if !ValidQueueId(id) || !loggerOpen || slots[id].xaPending { return false; }
      if rc > 0 {
        forall i | 0 <= i < slots.Length ensures Owed(calls + [DeXA(id, seqNo)], i) == if i == id then Some(seqNo) else Owed(calls, i) {
          OwedSnoc(calls, DeXA(id, seqNo), i);
        }
        OwedSnoc(calls, DeXA(id, seqNo), id);
        calls := calls + [DeXA(id, seqNo)];
      }
      if rc <= 0 || rc > JNI_RECV_BUFFER_SIZE { return false; }
      slots[id] := slots[id].(xaPending := true, xaSeq := seqNo);
      token := true;
    }

    lemma ResolveOwed(c: NativeCall)
      requires Valid() && !c.DeXA? && !c.En? && IsPending(c.slot, c.seqNo)
      ensures WellBracketed(calls + [c])
      ensures forall i :: 0 <= i < slots.Length ==> Owed(calls + [c], i) == if i == c.slot then None else Owed(calls, i)
    {
      OwedSnoc(calls, c, c.slot);
      forall i | 0 <= i < slots.Length ensures Owed(calls + [c], i) == if i == c.slot then None else Owed(calls, i) {
        OwedSnoc(calls, c, i);
      }
    }

    /** The second critical section of deQueueXA, entered when the JVM could not
        build the message object. */
    method AbandonDequeue(id: int, seqNo: int)
      requires Valid()
      modifies slots, this`calls
      ensures Valid()
      ensures calls == if old(IsPending(id, seqNo)) then old(calls) + [CancelXA(id, seqNo)] else old(calls)
      ensures forall i :: 0 <= i < slots.Length ==>
        slots[i] == if old(IsPending(id, seqNo)) && i == id then old(slots[i]).(xaPending := false, xaSeq := 0) else old(slots[i])
    {
      if ValidQueueId(id) && slots[id].xaPending && slots[id].xaSeq == seqNo {
        ResolveOwed(CancelXA(id, seqNo));
        calls := calls + [CancelXA(id, seqNo)];
        slots[id] := slots[id].(xaPending := false, xaSeq := 0);
      }
    }

    /** commit: the mark is cleared whatever the library answers. */
    method Commit(id: int, seqNo: int, rc: int) returns (r: int)
      requires Valid()
      modifies slots, this`calls
      ensures Valid()
      ensures r == if old(IsPending(id, seqNo)) then rc else -1
      ensures calls == if old(IsPending(id, seqNo)) then old(calls) + [CommitXA(id, seqNo)] else old(calls)
      ensures forall i :: 0 <= i < slots.Length ==>
        slots[i] == if old(IsPending(id, seqNo)) && i == id then old(slots[i]).(xaPending := false, xaSeq := 0) else old(slots[i])
    {
      if !Holds(id, seqNo) { return -1; }
      ResolveOwed(CommitXA(id, seqNo));
      calls := calls + [CommitXA(id, seqNo)];
      slots[id] := slots[id].(xaPending := false, xaSeq := 0);
      r := rc;
    }

    method Cancel(id: int, seqNo: int, rc: int) returns (r: int)
      requires Valid()
      modifies slots, this`calls
      ensures Valid()
      ensures r == if old(IsPending(id, seqNo)) then rc else -1
      ensures calls == if old(IsPending(id, seqNo)) then old(calls) + [CancelXA(id, seqNo)] else old(calls)
      ensures forall i :: 0 <= i < slots.Length ==>
        slots[i] == if old(IsPending(id, seqNo)) && i == id then old(slots[i]).(xaPending := false, xaSeq := 0) else old(slots[i])
    {
      if !Holds(id, seqNo) { return -1; }
      ResolveOwed(CancelXA(id, seqNo));
      calls := calls + [CancelXA(id, seqNo)];
      slots[id] := slots[id].(xaPending := false, xaSeq := 0);
      r := rc;
    }
  }

  /** One call on the table, with what the library answers to it. */
  datatype Request =
    | OpenLogger(rc: int)
    | CloseLogger(rc: int, stillSet: bool)
    | OpenQueue(granted: bool)
    | CloseQueue(id: int, rc: int)
    | EnQueue(id: int, mode: int, rc: int)
    | DeQueueXA(id: int, rc: int, seqNo: int)
    | AbandonDequeue(id: int, seqNo: int)
    | Commit(id: int, seqNo: int, rc: int)
    | Cancel(id: int, seqNo: int, rc: int)

  /** The call of the library that a call on the table may come to. */
  function Reaching(request: Request): Option<NativeCall> {
    match request
    case EnQueue(id, mode, _) => Some(En(id, mode))
    case DeQueueXA(id, _, seqNo) => Some(DeXA(id, seqNo))
    case AbandonDequeue(id, seqNo) => Some(CancelXA(id, seqNo))
    case Commit(id, seqNo, _) => Some(CommitXA(id, seqNo))
    case Cancel(id, seqNo, _) => Some(CancelXA(id, seqNo))
    case _ => None
  }

  /** Serves one call that is no dequeue, or a dequeue whose answer fits the buffer. */
  method Serve(table: SlotTable, request: Request)
    requires table.Valid() && (request.DeQueueXA? ==> request.rc <= JNI_RECV_BUFFER_SIZE)
    modifies table, table.slots
    ensures table.Valid() && old(table.calls) <= table.calls
    ensures table.calls == old(table.calls)
      || (|table.calls| == |old(table.calls)| + 1 && Some(table.calls[|table.calls| - 1]) == Reaching(request))
  {
    match request
    case OpenLogger(rc) => var _ := table.OpenLogger(rc);
    case CloseLogger(rc, stillSet) => var _ := table.CloseLogger(rc, stillSet);
    case OpenQueue(granted) => var _ := table.OpenQueue(granted);
    case CloseQueue(id, rc) => var _ := table.CloseQueue(id, rc);
    case EnQueue(id, mode, rc) => var _ := table.EnQueue(id, mode, rc);
    case DeQueueXA(id, rc, seqNo) => var _ := table.DeQueueXA(id, rc, seqNo);
    case AbandonDequeue(id, seqNo) => table.AbandonDequeue(id, seqNo);
    case Commit(id, seqNo, rc) => var _ := table.Commit(id, seqNo, rc);
    case Cancel(id, seqNo, rc) => var _ := table.Cancel(id, seqNo, rc);
  }

  /** Any calls in any order: up to the first dequeue whose answer does not fit the buffer, the
      marks of the table are the library's outstanding dequeues, so that per slot the dequeues
      exceed the resolutions by one exactly while the slot is marked. From that answer on they
      are not. */
  method ServeAll(table: SlotTable, requests: seq<Request>) returns (served: nat)
    requires table.Valid()
    modifies table, table.slots
    ensures served <= |requests| && old(table.calls) <= table.calls
    ensures table.Valid() <==> served == |requests|
    ensures served < |requests| ==> requests[served].DeQueueXA? && requests[served].rc > 65536
    ensures served == |requests| ==> forall i :: 0 <= i < table.slots.Length ==>
      Count(table.calls, i, true) == Count(table.calls, i, false) + if table.slots[i].xaPending then 1 else 0
  {
    served := 0;
    while served < |requests|
      invariant served <= |requests| && table.Valid() && old(table.calls) <= table.calls
    {
      var request := requests[served];
      if request.DeQueueXA? && request.rc > JNI_RECV_BUFFER_SIZE {
        var asked := table.ValidQueueId(request.id) && table.loggerOpen && !table.slots[request.id].xaPending;
        var _ := table.DeQueueXA(request.id, request.rc, request.seqNo);
        if asked { return; }
      } else {
        Serve(table, request);
      }
      served := served + 1;
    }
    forall i | 0 <= i < table.slots.Length
      ensures Count(table.calls, i, true) == Count(table.calls, i, false) + if table.slots[i].xaPending then 1 else 0
    {
      Balanced(table.calls, i);
    }
  }

  /** BundleAgent's startup opens the input queue first: its id, and with it every
      message id, is the same in each life of the process. */
  method InitializeQueues(loggerRc: int, granted: seq<bool>) returns (table: SlotTable, ids: Option<(int, int, int)>)
    requires |granted| == 3
    ensures fresh(table) && table.Valid()
    ensures ids == if loggerRc > 0 && granted[0] && granted[1] && granted[2] then Some((0, 1, 2)) else None
  {
    table := new SlotTable();
    var rc := table.OpenLogger(loggerRc);
    if rc <= 0 { return table, None; }
    assert !table.slots[0].open && !table.slots[1].open && !table.slots[2].open;
    var input := table.OpenQueue(granted[0]);
    if input < 0 { return table, None; }
    assert input == 0 && !table.slots[1].open && !table.slots[2].open;
    var output := table.OpenQueue(granted[1]);
    if output < 0 { return table, None; }
    assert output == 1 && !table.slots[2].open;
    var error := table.OpenQueue(granted[2]);
    if error < 0 { return table, None; }
    ids := Some((input, output, error));
  }
}
