/** A line encoder of the kind that JournalBytes assumes, so that its results speak of something. */
module JournalEncoder {
  import opened Wrappers
  import opened Journal
  import opened JournalBytes

  /** A number in base one, with its end. */
  function Strokes(n: nat): Bytes { if n == 0 then [1] else [2] + Strokes(n - 1) }

  function Line(ns: seq<nat>): Bytes { if ns == [] then [] else Strokes(ns[0]) + Line(ns[1..]) }

  function Unsigned(x: int): nat { if x >= 0 then 2 * x else -2 * x - 1 }

  function OfBytes(b: Bytes): seq<nat> { seq(|b|, i requires 0 <= i < |b| => b[i] as nat) }

  function OfBatch(r: Batch): seq<nat> {
    if r == [] then []
    else [if r[0].destination == OUTPUT then 1 else 0, |r[0].payload|] + (OfBytes(r[0].payload) + OfBatch(r[1..]))
  }

  function OfState(s: State): nat {
    match s
    case COMMITTING => 0
    case READY => 1
    case PROCESSING => 2
    case RETRY_WAIT => 3
    case RESULT_PENDING => 4
    case DONE => 5
  }

  function Kind(e: Event): nat {
    match e
    case Stage(_, _) => 0
    case SetState(_, _) => 1
    case Retry(_, _) => 2
    case Result(_, _) => 3
    case Published(_, _) => 4
    case Discard(_) => 5
  }

  function Rest(e: Event): seq<nat> {
    match e
    case Stage(_, data) => OfBytes(data)
    case SetState(_, s) => [OfState(s)]
    case Retry(_, n) => [n]
    case Result(_, r) => OfBatch(r)
    case Published(_, n) => [n]
    case Discard(_) => []
  }

  function Numbers(e: Event): seq<nat> { [Kind(e), Unsigned(e.id.queueId), Unsigned(e.id.seqNo)] + Rest(e) }

  lemma {:induction false} StrokesEnd(n: nat, m: nat, x: Bytes, y: Bytes)
    requires Strokes(n) + x == Strokes(m) + y
    ensures n == m && x == y
  {
    var a, b := Strokes(n) + x, Strokes(m) + y;
    assert a[0] == b[0];
    if n > 0 && m > 0 {
      assert a[1..] == Strokes(n - 1) + x && b[1..] == Strokes(m - 1) + y;
      StrokesEnd(n - 1, m - 1, x, y);
    } else {
      assert a[1..] == x && b[1..] == y;
    }
  }

  lemma {:induction false} LineIsInjective(ns: seq<nat>, ms: seq<nat>)
    requires Line(ns) == Line(ms)
    ensures ns == ms
  {
    if ns != [] && ms != [] {
      StrokesEnd(ns[0], ms[0], Line(ns[1..]), Line(ms[1..]));
      LineIsInjective(ns[1..], ms[1..]);
      assert ns == [ns[0]] + ns[1..] && ms == [ms[0]] + ms[1..];
    }
  }

  lemma {:induction false} BytesAreInjective(a: Bytes, b: Bytes)
    requires OfBytes(a) == OfBytes(b)
    ensures a == b
  {
    forall i | 0 <= i < |a| ensures i < |b| && a[i] == b[i] {
      assert OfBytes(a)[i] == OfBytes(b)[i];
    }
    assert |OfBytes(a)| == |OfBytes(b)|;
  }

  lemma {:induction false} BatchIsInjective(a: Batch, b: Batch)
    requires OfBatch(a) == OfBatch(b)
    ensures a == b
    decreases |a|
  {
    if a != [] && b != [] {
      var p, q := a[0].payload, b[0].payload;
      var x, y := OfBytes(p) + OfBatch(a[1..]), OfBytes(q) + OfBatch(b[1..]);
      assert OfBatch(a)[0] == OfBatch(b)[0] && OfBatch(a)[1] == OfBatch(b)[1];
      assert x == OfBatch(a)[2..] == OfBatch(b)[2..] == y;
      assert OfBytes(p) == x[..|p|] && OfBytes(q) == y[..|q|];
      BytesAreInjective(p, q);
      assert OfBatch(a[1..]) == x[|p|..] && OfBatch(b[1..]) == y[|q|..];
      BatchIsInjective(a[1..], b[1..]);
      assert a == [a[0]] + a[1..] && b == [b[0]] + b[1..];
    }
  }

  lemma {:induction false} NumbersAreInjective(e: Event, f: Event)
    requires Numbers(e) == Numbers(f)
    ensures e == f
  {
    hide OfBytes, OfBatch;
    var a, b := Numbers(e), Numbers(f);
    assert a[0] == b[0] && a[1] == b[1] && a[2] == b[2];
    assert Rest(e) == a[3..] == b[3..] == Rest(f);
    assert e.id == f.id;
    match e
    case Stage(_, data) => BytesAreInjective(data, f.data);
    case Result(_, r) => BatchIsInjective(r, f.result);
    case SetState(_, s) => assert Rest(e)[0] == Rest(f)[0];
    case Retry(_, n) => assert Rest(e)[0] == Rest(f)[0];
    case Published(_, n) => assert Rest(e)[0] == Rest(f)[0];
    case Discard(_) =>
  }

  lemma {:induction false} NoNewlineInStrokes(n: nat)
    ensures NEWLINE !in Strokes(n)
  {
    if n > 0 { NoNewlineInStrokes(n - 1); }
  }

  lemma {:induction false} NoNewline(ns: seq<nat>)
    ensures NEWLINE !in Line(ns)
  {
    if ns != [] {
      NoNewlineInStrokes(ns[0]);
      NoNewline(ns[1..]);
    }
  }

  /** What the model of the file asks of the encoder of events can be met. */
  lemma {:induction false} EncoderExists() returns (enc: Event -> Bytes, dec: Bytes -> Option<Event>)
    ensures Faithful(enc, dec)
  {
    hide Numbers, Line;
    enc := (e: Event) => Line(Numbers(e));
    dec := (b: Bytes) => if exists e :: Line(Numbers(e)) == b then Some(var e :| Line(Numbers(e)) == b; e) else None;
    forall e ensures enc(e) != [] && NEWLINE !in enc(e) && dec(enc(e)) == Some(e) {
      LineIsNotEmpty(e);
      NoNewline(Numbers(e));
      forall f | Line(Numbers(f)) == Line(Numbers(e)) ensures f == e {
        LineIsInjective(Numbers(f), Numbers(e));
        NumbersAreInjective(f, e);
      }
    }
  }

  lemma {:induction false} LineIsNotEmpty(e: Event)
    ensures Line(Numbers(e)) != []
  {
  }
}
