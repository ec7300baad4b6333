/** One life of the journal after the other: each starts on the file that the last one left. */
module GroupCommitLives {
  import opened Wrappers
  import opened Journal
  import opened JournalBytes
  import GroupCommit
  import S = StoreProtocol
  import opened GroupCommitRefines

  /** What a life did, where its end cut the file, and how many of the events read back are
      then known to be on the disk: those forced before it, or all if they outlived a power
      loss or recovery forced the file after truncating its tail. */
  datatype Life = Life(acts: seq<Act>, cut: nat, durable: nat)

  /** Where the life stood when it ended. */
  function Ended(enc: Event -> Bytes, b: Start, l: Life): Joint
    requires b.durable <= |b.recovered| && Runs(enc, b, Open(enc, b), l.acts)
  {
    After(enc, b, Open(enc, b), l.acts)
  }

  /** A crash leaves at least what was forced. */
  predicate Ends(enc: Event -> Bytes, dec: Bytes -> Option<Event>, b: Start, l: Life) {
    && b.durable <= |b.recovered| && Runs(enc, b, Open(enc, b), l.acts)
    && var j := Ended(enc, b, l);
    && j.w.forced <= l.cut <= |j.w.file|
    && j.st.durable <= l.durable && (ReadBack(dec, j.w.file[..l.cut]).Some? ==> l.durable <= |Left(dec, j, l)|)
  }

  /** The events the next start reads. */
  function Left(dec: Bytes -> Option<Event>, j: Joint, l: Life): seq<Event>
    requires l.cut <= |j.w.file| && ReadBack(dec, j.w.file[..l.cut]).Some?
  {
    ReadBack(dec, j.w.file[..l.cut]).value
  }

  /** recoverJournal, on what the life left; it fails on a file that does not read back. */
  function NextStart(enc: Event -> Bytes, dec: Bytes -> Option<Event>, b: Start, l: Life): Option<Start>
    requires Ends(enc, dec, b, l)
  {
    var j := Ended(enc, b, l);
    if ReadBack(dec, j.w.file[..l.cut]).None? || Replay(Left(dec, j, l)).None? then None
    else Some(Start(Left(dec, j, l), l.durable, Replay(Left(dec, j, l)).value))
  }

  /** The lives follow each other, each recovering what the one before has left. */
  predicate Lives(enc: Event -> Bytes, dec: Bytes -> Option<Event>, b: Start, lives: seq<Life>)
    decreases |lives|
  {
    lives == [] ||
    (&& Ends(enc, dec, b, lives[0])
     && (NextStart(enc, dec, b, lives[0]).Some? ==> Lives(enc, dec, NextStart(enc, dec, b, lives[0]).value, lives[1..])))
  }

  /** What the start after the last of them has read, if all of them recovered. */
  function LastStart(enc: Event -> Bytes, dec: Bytes -> Option<Event>, b: Start, lives: seq<Life>): Option<Start>
    requires Lives(enc, dec, b, lives)
    decreases |lives|
  {
    if lives == [] then Some(b)
    else if NextStart(enc, dec, b, lives[0]).None? then None
    else LastStart(enc, dec, NextStart(enc, dec, b, lives[0]).value, lives[1..])
  }

  /** The durable events of `a` stand first in `b`, and are durable there. */
  predicate Keeps(a: S.Store, b: Start) {
    && a.durable <= |a.log| && a.durable <= b.durable <= |b.recovered|
    && b.recovered[..a.durable] == a.log[..a.durable]
  }

  /** The file cut at or after its forced part reads back as a beginning of the journal that
      has every durable event. */
  lemma {:induction false} CutOfLife(enc: Event -> Bytes, dec: Bytes -> Option<Event>, b: Start, j: Joint, cut: nat)
    returns (k: nat)
    requires ValidStart(enc, dec, b) && JointInv(enc, b, j) && j.w.forced <= cut <= |j.w.file|
    ensures j.st.durable <= k <= j.st.written <= |j.st.log|
    ensures ReadBack(dec, j.w.file[..cut]) == Some(j.st.log[..k]) && Replay(j.st.log[..k]).Some?
  {
    hide GroupCommit.Inv, S.StoreInv, ReleasesOK, Encode, CompleteIn, ReadBack, Replay, Faithful, GroupCommit.Through;
    var all, st := b.recovered + j.events, j.st;
    FileBounds(enc, b, j.w, j.events, st);
    k := CompleteIn(enc, all, cut);
    CutReadsPrefix(enc, dec, all, st.durable, cut);
    CompleteGrows(enc, all, cut, |j.w.file|);
    assert Encode(enc, all)[..cut] == j.w.file[..cut];
    assert st.log[..k] == all[..k];
    LogReplays(st);
    S.ReplayPrefix(st.log, k);
  }

  lemma {:induction false} LogReplays(st: S.Store)
    requires S.StoreInv(st)
    ensures Replay(st.log).Some?
  {
  }

  /** The life after a life is a valid start, with every durable event of it. */
  lemma {:induction false} NextLife(enc: Event -> Bytes, dec: Bytes -> Option<Event>, b: Start, l: Life)
    requires ValidStart(enc, dec, b) && Ends(enc, dec, b, l)
    ensures NextStart(enc, dec, b, l).Some? && ValidStart(enc, dec, NextStart(enc, dec, b, l).value)
    ensures Keeps(Ended(enc, b, l).st, NextStart(enc, dec, b, l).value)
    ensures b.recovered <= Ended(enc, b, l).st.log && b.durable <= Ended(enc, b, l).st.durable
  {
    hide GroupCommit.Inv, S.StoreInv, Matches, ReleasesOK, Encode, CompleteIn, ReadBack, Replay, Faithful, Runs, After, Open;
    var j := Ended(enc, b, l);
    OpenMatches(enc, dec, b);
    RunKeeps(enc, dec, b, Open(enc, b), l.acts);
    FileReads(enc, dec, b, j);
    var k := CutOfLife(enc, dec, b, j, l.cut);
    DurableGrows(enc, b, j);
    assert j.st.log[..k][..j.st.durable] == j.st.log[..j.st.durable];
  }

  /** Over any number of lives: every start finds a file that reads back and a journal that
      replays, what was durable at a start stays, and the last start has every event that was
      durable when the first of the lives ended. */
  lemma {:induction false} EveryStartIsValid(enc: Event -> Bytes, dec: Bytes -> Option<Event>, b: Start, lives: seq<Life>)
    requires ValidStart(enc, dec, b) && Lives(enc, dec, b, lives)
    ensures LastStart(enc, dec, b, lives).Some? && ValidStart(enc, dec, LastStart(enc, dec, b, lives).value)
    ensures KeepsStart(b, LastStart(enc, dec, b, lives).value)
    ensures lives != [] ==> Keeps(Ended(enc, b, lives[0]).st, LastStart(enc, dec, b, lives).value)
    decreases |lives|
  {
    hide ValidStart, NextStart, Ended, Runs, ReadBack, Open;
    StartIsBounded(enc, dec, b);
    if lives != [] {
      NextLife(enc, dec, b, lives[0]);
      var next := NextStart(enc, dec, b, lives[0]).value;
      EveryStartIsValid(enc, dec, next, lives[1..]);
      KeepsOn(Ended(enc, b, lives[0]).st, b, next, LastStart(enc, dec, next, lives[1..]).value);
    }
  }

  /** The durable events of one start are durable in a later one. */
  predicate KeepsStart(a: Start, b: Start) {
    && a.durable <= |a.recovered| && a.durable <= b.durable <= |b.recovered|
    && b.recovered[..a.durable] == a.recovered[..a.durable]
  }

  lemma {:induction false} StartIsBounded(enc: Event -> Bytes, dec: Bytes -> Option<Event>, b: Start)
    requires ValidStart(enc, dec, b)
    ensures KeepsStart(b, b)
  {
  }

  lemma {:induction false} KeepsOn(st: S.Store, b: Start, next: Start, last: Start)
    requires Keeps(st, next) && KeepsStart(next, last)
    requires b.recovered <= st.log && b.durable <= |b.recovered| && b.durable <= st.durable
    ensures Keeps(st, last) && KeepsStart(b, last)
  {
    assert last.recovered[..st.durable] == last.recovered[..next.durable][..st.durable];
    assert next.recovered[..st.durable] == next.recovered[..next.durable][..st.durable];
    assert st.log[..b.durable] == st.log[..st.durable][..b.durable];
    assert last.recovered[..b.durable] == last.recovered[..st.durable][..b.durable];
  }

  lemma {:induction false} DurableGrows(enc: Event -> Bytes, b: Start, j: Joint)
    requires Matches(enc, b, j.w, j.events, j.st) && b.durable <= |b.recovered|
    ensures b.durable <= j.st.durable
  {
    hide CompleteIn, Encode;
  }
}
