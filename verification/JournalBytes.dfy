/** The journal as a file: one line per event, a torn last line after a crash. */
module JournalBytes {
  import opened Wrappers
  import opened Journal

  const NEWLINE: byte := 10

  /** The event encoder: injective, never empty, never containing a newline. */
  ghost predicate Faithful(enc: Event -> Bytes, dec: Bytes -> Option<Event>) {
    forall e :: enc(e) != [] && NEWLINE !in enc(e) && dec(enc(e)) == Some(e)
  }

  function Encode(enc: Event -> Bytes, log: seq<Event>): Bytes {
    if log == [] then [] else Encode(enc, log[..|log| - 1]) + enc(log[|log| - 1]) + [NEWLINE]
  }

  // ------------------------------------------------------------------
  // Reading a file back
  // ------------------------------------------------------------------

  /** The file without an incomplete last line. */
  function Trim(file: Bytes): (r: Bytes)
    ensures r <= file
    ensures r == [] || r[|r| - 1] == NEWLINE
    ensures NEWLINE !in file[|r|..]
  {
    if file == [] || file[|file| - 1] == NEWLINE then file
    else
      var r := Trim(file[..|file| - 1]);
      assert file[|r|..] == file[..|file| - 1][|r|..] + [file[|file| - 1]];
      r
  }

  /** The complete lines of a file, and what follows the last newline. */
  datatype Scan = Scan(lines: seq<Bytes>, rest: Bytes)

  function ScanFile(file: Bytes): Scan {
    if file == [] then Scan([], [])
    else
      var s := ScanFile(file[..|file| - 1]);
      if file[|file| - 1] == NEWLINE then Scan(s.lines + [s.rest], [])
      else Scan(s.lines, s.rest + [file[|file| - 1]])
  }

  /** Decoding the non-empty lines, in order; None if one of them is no event. */
  function DecodeLines(dec: Bytes -> Option<Event>, lines: seq<Bytes>): Option<seq<Event>> {
    if lines == [] then Some([])
    else
      var before := DecodeLines(dec, lines[..|lines| - 1]);
      var line := lines[|lines| - 1];
      if before.None? || line == [] then before
      else if dec(line).None? then None
      else Some(before.value + [dec(line).value])
  }

  /** What recovery reads from a file. */
  function ReadBack(dec: Bytes -> Option<Event>, file: Bytes): Option<seq<Event>> {
    DecodeLines(dec, ScanFile(Trim(file)).lines)
  }

  lemma {:induction false} ScanAppend(file: Bytes, part: Bytes)
    requires NEWLINE !in part
    ensures ScanFile(file + part) == Scan(ScanFile(file).lines, ScanFile(file).rest + part)
  {
    if part == [] {
      assert file + part == file;
    } else {
      var p := part[..|part| - 1];
      assert (file + part)[..|file + part| - 1] == file + p;
      ScanAppend(file, p);
      assert ScanFile(file).rest + part == ScanFile(file).rest + p + [part[|part| - 1]];
    }
  }

  lemma {:induction false} ScanLine(file: Bytes, line: Bytes)
    requires NEWLINE !in line && ScanFile(file).rest == []
    ensures ScanFile(file + line + [NEWLINE]) == Scan(ScanFile(file).lines + [line], [])
  {
    ScanAppend(file, line);
    var whole := file + line + [NEWLINE];
    assert whole[..|whole| - 1] == file + line;
    assert [] + line == line;
  }

  lemma {:induction false} TrimAppend(file: Bytes, part: Bytes)
    requires NEWLINE !in part && (file == [] || file[|file| - 1] == NEWLINE)
    ensures Trim(file + part) == file
  {
    if part == [] {
      assert file + part == file;
    } else {
      assert (file + part)[..|file + part| - 1] == file + part[..|part| - 1];
      TrimAppend(file, part[..|part| - 1]);
    }
  }

  /** Writing then reading gives the events back, whatever incomplete line follows. */
  lemma {:induction false} ReadBackWritten(enc: Event -> Bytes, dec: Bytes -> Option<Event>, log: seq<Event>, part: Bytes)
    requires Faithful(enc, dec) && NEWLINE !in part
    ensures Trim(Encode(enc, log) + part) == Encode(enc, log)
    ensures ScanFile(Encode(enc, log)).rest == []
    ensures ReadBack(dec, Encode(enc, log) + part) == Some(log)
  {
    hide Trim;
    TrimAppend(Encode(enc, log), part);
    if log != [] {
      var before := log[..|log| - 1];
      var e := log[|log| - 1];
      ReadBackWritten(enc, dec, before, []);
      assert Encode(enc, before) + [] == Encode(enc, before);
      ScanLine(Encode(enc, before), enc(e));
      var lines := ScanFile(Encode(enc, log)).lines;
      assert lines[..|lines| - 1] == ScanFile(Encode(enc, before)).lines;
      assert log == before + [e];
    }
  }

  lemma {:induction false} EncodePrefix(enc: Event -> Bytes, log: seq<Event>, k: nat)
    requires k <= |log|
    ensures Encode(enc, log[..k]) <= Encode(enc, log)
  {
    if k < |log| {
      EncodePrefix(enc, log[..|log| - 1], k);
      assert log[..|log| - 1][..k] == log[..k];
    } else {
      assert log[..k] == log;
    }
  }

  lemma {:induction false} EncodeMore(enc: Event -> Bytes, a: seq<Event>, b: seq<Event>)
    ensures Encode(enc, a + b) == Encode(enc, a) + Encode(enc, b)
  {
    if b == [] {
      assert a + b == a;
    } else {
      var b' := b[..|b| - 1];
      assert (a + b)[..|a + b| - 1] == a + b';
      EncodeMore(enc, a, b');
    }
  }

  // ------------------------------------------------------------------
  // Crashes
  // ------------------------------------------------------------------

  /** The number of complete events in the first `cut` bytes. */
  function CompleteIn(enc: Event -> Bytes, log: seq<Event>, cut: nat): (k: nat)
    ensures k <= |log|
  {
    if log == [] || |Encode(enc, log)| <= cut then |log|
    else CompleteIn(enc, log[..|log| - 1], cut)
  }

  /** Cut a file anywhere at or after its forced part: what is read back is a
      prefix of the events that contains all the forced ones, and truncation
      leaves exactly the bytes of that prefix. */
  lemma {:induction false} CutReadsPrefix(enc: Event -> Bytes, dec: Bytes -> Option<Event>, log: seq<Event>, forced: nat, cut: nat)
    requires Faithful(enc, dec) && forced <= |log|
    requires |Encode(enc, log[..forced])| <= cut <= |Encode(enc, log)|
    ensures var k := CompleteIn(enc, log, cut);
      && forced <= k <= |log|
      && ReadBack(dec, Encode(enc, log)[..cut]) == Some(log[..k])
      && Trim(Encode(enc, log)[..cut]) == Encode(enc, log[..k])
  {
    if log == [] || |Encode(enc, log)| <= cut {
      CutNothing(enc, dec, log);
    } else {
      var before := log[..|log| - 1];
      assert log == before + [log[|log| - 1]];
      assert forced < |log| by {
        assert log[..|log|] == log;
      }
      if cut <= |Encode(enc, before)| {
        CutEarlier(enc, before, log[|log| - 1], cut);
        assert before[..forced] == log[..forced];
        CutReadsPrefix(enc, dec, before, forced, cut);
        assert before[..CompleteIn(enc, before, cut)] == log[..CompleteIn(enc, before, cut)];
      } else {
        CutLastLine(enc, dec, before, log[|log| - 1], cut);
      }
    }
  }

  lemma {:induction false} CutNothing(enc: Event -> Bytes, dec: Bytes -> Option<Event>, log: seq<Event>)
    requires Faithful(enc, dec)
    ensures log[..|log|] == log
    ensures ReadBack(dec, Encode(enc, log)[..|Encode(enc, log)|]) == Some(log)
    ensures Trim(Encode(enc, log)[..|Encode(enc, log)|]) == Encode(enc, log)
  {
    assert Encode(enc, log)[..|Encode(enc, log)|] == Encode(enc, log) + [];
    ReadBackWritten(enc, dec, log, []);
  }

  /** The cut falls before the last line. */
  lemma {:induction false} CutEarlier(enc: Event -> Bytes, before: seq<Event>, e: Event, cut: nat)
    requires cut <= |Encode(enc, before)|
    ensures cut < |Encode(enc, before + [e])|
    ensures Encode(enc, before + [e])[..cut] == Encode(enc, before)[..cut]
    ensures CompleteIn(enc, before + [e], cut) == CompleteIn(enc, before, cut)
  {
    assert (before + [e])[..|before + [e]| - 1] == before;
  }

  /** The cut falls inside the last line. */
  lemma {:induction false} CutLastLine(enc: Event -> Bytes, dec: Bytes -> Option<Event>, before: seq<Event>, e: Event, cut: nat)
    requires Faithful(enc, dec) && |Encode(enc, before)| < cut < |Encode(enc, before + [e])|
    ensures CompleteIn(enc, before + [e], cut) == |before|
    ensures (before + [e])[..|before|] == before
    ensures ReadBack(dec, Encode(enc, before + [e])[..cut]) == Some(before)
    ensures Trim(Encode(enc, before + [e])[..cut]) == Encode(enc, before)
  {
    var log := before + [e];
    assert log[..|log| - 1] == before;
    var part := enc(e)[..cut - |Encode(enc, before)|];
    assert Encode(enc, log)[..cut] == Encode(enc, before) + part;
    ReadBackWritten(enc, dec, before, part);
  }

  /** Conversely every such prefix is what some cut leaves. */
  lemma {:induction false} EveryPrefixIsACut(enc: Event -> Bytes, dec: Bytes -> Option<Event>, log: seq<Event>, forced: nat, k: nat)
    requires Faithful(enc, dec) && forced <= k <= |log|
    ensures var cut := |Encode(enc, log[..k])|;
      && |Encode(enc, log[..forced])| <= cut <= |Encode(enc, log)|
      && ReadBack(dec, Encode(enc, log)[..cut]) == Some(log[..k])
  {
    EncodePrefix(enc, log, k);
    EncodePrefix(enc, log[..k], forced);
    assert log[..k][..forced] == log[..forced];
    var file := Encode(enc, log)[..|Encode(enc, log[..k])|];
    assert file == Encode(enc, log[..k]) + [];
    ReadBackWritten(enc, dec, log[..k], []);
  }

  // ------------------------------------------------------------------
  // Any number of rounds
  // ------------------------------------------------------------------

  /** One life of the process: it recovers, appends events of which the first
      `acked` are forced, and the file is cut at `cut`. */
  datatype Round = Round(events: seq<Event>, acked: nat, cut: nat)

  /** A file and how much of it is known to be on the disk. */
  datatype Disk = Disk(file: Bytes, forced: nat)

  /** The file just before the cut. Recovery forces only what it truncates. */
  function Grown(enc: Event -> Bytes, d: Disk, r: Round): (g: Disk)
    requires r.acked <= |r.events|
  {
    var kept := Trim(d.file);
    var forced := if |kept| < |d.file| then |kept| else d.forced;
    Disk(kept + Encode(enc, r.events),
         if r.acked > 0 then |kept + Encode(enc, r.events[..r.acked])| else forced)
  }

  predicate RoundOK(enc: Event -> Bytes, d: Disk, r: Round) {
    && r.acked <= |r.events|
    && Grown(enc, d, r).forced <= r.cut <= |Grown(enc, d, r).file|
  }

  function AfterRound(enc: Event -> Bytes, d: Disk, r: Round): Disk
    requires RoundOK(enc, d, r)
  {
    Disk(Grown(enc, d, r).file[..r.cut], Grown(enc, d, r).forced)
  }

  predicate RoundsOK(enc: Event -> Bytes, d: Disk, rounds: seq<Round>)
    decreases |rounds|
  {
    rounds == [] || (RoundOK(enc, d, rounds[0]) && RoundsOK(enc, AfterRound(enc, d, rounds[0]), rounds[1..]))
  }

  function AfterRounds(enc: Event -> Bytes, d: Disk, rounds: seq<Round>): Disk
    requires RoundsOK(enc, d, rounds)
    decreases |rounds|
  {
    if rounds == [] then d else AfterRounds(enc, AfterRound(enc, d, rounds[0]), rounds[1..])
  }

  /** The disk holds `log` and perhaps an incomplete line; `log[..durable]` is forced. */
  ghost predicate Holds(enc: Event -> Bytes, d: Disk, log: seq<Event>, durable: nat) {
    && durable <= |log|
    && d.forced == |Encode(enc, log[..durable])|
    && Trim(d.file) == Encode(enc, log)
  }

  /** Events recovered and then appended in a round. */
  lemma {:induction false} RoundKeeps(enc: Event -> Bytes, dec: Bytes -> Option<Event>, d: Disk, r: Round, log: seq<Event>, durable: nat)
    returns (log': seq<Event>, durable': nat)
    requires Faithful(enc, dec) && Holds(enc, d, log, durable) && RoundOK(enc, d, r)
    ensures Holds(enc, AfterRound(enc, d, r), log', durable')
    ensures durable <= durable' && log'[..durable] == log[..durable]
    ensures r.acked > 0 ==> durable' == |log| + r.acked && log'[..durable'] == log + r.events[..r.acked]
    ensures ReadBack(dec, AfterRound(enc, d, r).file) == Some(log')
  {
    hide Encode, Faithful, Trim;
    var all := log + r.events;
    EncodeMore(enc, log, r.events);
    durable' := if r.acked > 0 then |log| + r.acked else if |Trim(d.file)| < |d.file| then |log| else durable;
    if r.acked > 0 {
      EncodeMore(enc, log, r.events[..r.acked]);
      assert all[..durable'] == log + r.events[..r.acked];
    } else {
      assert log[..|log|] == log;
      assert all[..durable'] == log[..durable'];
    }
    CutReadsPrefix(enc, dec, all, durable', r.cut);
    var k := CompleteIn(enc, all, r.cut);
    log' := all[..k];
    assert log'[..durable'] == all[..durable'];
    assert log'[..durable] == log[..durable];
  }

  lemma {:induction false} HeldReadsBack(enc: Event -> Bytes, dec: Bytes -> Option<Event>, d: Disk, log: seq<Event>, durable: nat)
    requires Faithful(enc, dec) && Holds(enc, d, log, durable)
    ensures ReadBack(dec, d.file) == Some(log)
  {
    hide Faithful, ReadBack, Encode;
    var part := d.file[|Trim(d.file)|..];
    assert Trim(d.file) + part == d.file;
    ReadBackWritten(enc, dec, log, part);
  }

  /** Through any number of crashes and recoveries, reading back always succeeds
      and the events forced at any point stay where they are. */
  lemma {:induction false} RoundsKeep(enc: Event -> Bytes, dec: Bytes -> Option<Event>, d: Disk, rounds: seq<Round>, log: seq<Event>, durable: nat)
    returns (log': seq<Event>, durable': nat)
    requires Faithful(enc, dec) && Holds(enc, d, log, durable) && RoundsOK(enc, d, rounds)
    ensures Holds(enc, AfterRounds(enc, d, rounds), log', durable')
    ensures durable <= durable' && log'[..durable] == log[..durable]
    ensures ReadBack(dec, AfterRounds(enc, d, rounds).file) == Some(log')
    decreases |rounds|
  {
    hide Faithful, ReadBack, Trim, RoundOK, Encode, AfterRound;
    if rounds == [] {
      log', durable' := log, durable;
      HeldReadsBack(enc, dec, d, log, durable);
    } else {
      var l, n := RoundKeeps(enc, dec, d, rounds[0], log, durable);
      log', durable' := RoundsKeep(enc, dec, AfterRound(enc, d, rounds[0]), rounds[1..], l, n);
      assert log'[..durable] == log'[..n][..durable] == l[..n][..durable];
    }
  }

  /** Events acknowledged in one round are read back after it and after any rounds
      that follow, in place and in order. */
  lemma {:induction false} AcknowledgedAreReadBack(enc: Event -> Bytes, dec: Bytes -> Option<Event>,
      earlier: seq<Round>, r: Round, later: seq<Round>)
    returns (before: seq<Event>, log: seq<Event>)
    requires Faithful(enc, dec) && r.acked > 0
    requires RoundsOK(enc, Disk([], 0), earlier)
    requires RoundOK(enc, AfterRounds(enc, Disk([], 0), earlier), r)
    requires RoundsOK(enc, AfterRound(enc, AfterRounds(enc, Disk([], 0), earlier), r), later)
    ensures var d := AfterRounds(enc, Disk([], 0), earlier);
      && ReadBack(dec, d.file) == Some(before)
      && ReadBack(dec, AfterRounds(enc, AfterRound(enc, d, r), later).file) == Some(log)
      && before + r.events[..r.acked] <= log
  {
    var d := AfterRounds(enc, Disk([], 0), earlier);
    var n;
    before, n := RoundsKeep(enc, dec, Disk([], 0), earlier, [], 0);
    var l, m := RoundKeeps(enc, dec, d, r, before, n);
    var m';
    log, m' := RoundsKeep(enc, dec, AfterRound(enc, d, r), later, l, m);
    assert log[..m] == before + r.events[..r.acked];
  }

  // ------------------------------------------------------------------
  // The code: recoverJournal's loops
  // ------------------------------------------------------------------

  /** The scan for the last newline. */
  method ValidLength(bytes: Bytes) returns (validLength: nat)
    ensures validLength <= |bytes| && bytes[..validLength] == Trim(bytes)
    ensures (validLength == 0 || bytes[validLength - 1] == 10) && 10 !in bytes[validLength..]
  {
    validLength := |bytes|;
    assert bytes[..|bytes|] == bytes;
    while validLength > 0 && bytes[validLength - 1] != NEWLINE
      invariant validLength <= |bytes| && Trim(bytes[..validLength]) == Trim(bytes)
    {
      assert bytes[..validLength][..validLength - 1] == bytes[..validLength - 1];
      validLength := validLength - 1;
    }
  }

  /** Truncate, split into lines, decode and replay each. None stands for the
      exceptions: a line that is no event, or an event for an unknown message. */
  method RecoverJournal(bytes: Bytes, dec: Bytes -> Option<Event>) returns (file: Bytes, messages: Option<map<MsgId, StoredMessage>>)
    ensures file == Trim(bytes)
    ensures messages == match ReadBack(dec, bytes) case None => None case Some(log) => Replay(log)
  {
    hide DecodeLines, Replay, Known, Apply, Put, Trim, ScanFile;
    var validLength := ValidLength(bytes);
    file := bytes[..validLength];
    messages := Some(map[]);
    var lines := SplitLines(file);
    ghost var log: seq<Event> := [];
    var i := 0;
    assert lines[..|lines|] == lines;
    NoLinesYet(dec, lines);
    while i < |lines|
      invariant i <= |lines|
      invariant messages.Some? && DecodeLines(dec, lines[..i]) == Some(log) && Replay(log) == messages
    {
      OneLineMore(dec, lines, i, log);
      if lines[i] != [] {
        var e := dec(lines[i]);
        if e.None? || !Known(Lookup(messages.value, e.value.id), e.value) {
          StaysNone(dec, lines, i, log);
          messages := None;
          return;
        }
        OneEventMore(log, messages.value, e.value);
        messages := Some(Put(messages.value, e.value.id, Apply(Lookup(messages.value, e.value.id), e.value)));
        log := log + [e.value];
      }
      i := i + 1;
    }
  }

  lemma {:induction false} NoLinesYet(dec: Bytes -> Option<Event>, lines: seq<Bytes>)
    ensures DecodeLines(dec, lines[..0]) == Some([]) && Replay([]) == Some(map[])
  {
  }

  lemma {:induction false} OneLineMore(dec: Bytes -> Option<Event>, lines: seq<Bytes>, i: nat, log: seq<Event>)
    requires i < |lines|
    ensures DecodeLines(dec, lines[..i]) == Some(log) ==>
      DecodeLines(dec, lines[..i + 1]) ==
        if lines[i] == [] then Some(log) else if dec(lines[i]).None? then None else Some(log + [dec(lines[i]).value])
    ensures DecodeLines(dec, lines[..i]) == None ==> DecodeLines(dec, lines[..i + 1]) == None
  {
    assert lines[..i + 1][..i] == lines[..i];
  }

  lemma {:induction false} OneEventMore(log: seq<Event>, m: map<MsgId, StoredMessage>, e: Event)
    requires Replay(log) == Some(m) && Known(Lookup(m, e.id), e)
    ensures Replay(log + [e]) == Some(Put(m, e.id, Apply(Lookup(m, e.id), e)))
  {
    assert (log + [e])[..|log|] == log;
  }

  /** Once a line cannot be replayed the whole journal cannot. */
  lemma {:induction false} StaysNone(dec: Bytes -> Option<Event>, lines: seq<Bytes>, i: nat, log: seq<Event>)
    requires i < |lines| && lines[i] != []
    requires DecodeLines(dec, lines[..i]) == Some(log) && Replay(log).Some?
    requires dec(lines[i]).None? || !Known(Lookup(Replay(log).value, dec(lines[i]).value.id), dec(lines[i]).value)
    ensures match DecodeLines(dec, lines) case None => true case Some(l) => Replay(l) == None
    decreases |lines|
  {
    var before := lines[..|lines| - 1];
    if i == |before| {
      assert lines[..i] == before;
      if dec(lines[i]).Some? {
        assert (log + [dec(lines[i]).value])[..|log|] == log;
      }
    } else {
      assert before[..i] == lines[..i] && before[i] == lines[i];
      StaysNone(dec, before, i, log);
      if DecodeLines(dec, before).Some? && lines[|lines| - 1] != [] && dec(lines[|lines| - 1]).Some? {
        var l := DecodeLines(dec, before).value;
        assert (l + [dec(lines[|lines| - 1]).value])[..|l|] == l;
      }
    }
  }

  method SplitLines(file: Bytes) returns (lines: seq<Bytes>)
    ensures lines == ScanFile(file).lines
  {
    lines := [];
    var rest: Bytes := [];
    var i := 0;
    assert file[..|file|] == file;
    while i < |file|
      invariant i <= |file| && Scan(lines, rest) == ScanFile(file[..i])
    {
      assert file[..i + 1][..i] == file[..i];
      if file[i] == NEWLINE {
        lines, rest := lines + [rest], [];
      } else {
        rest := rest + [file[i]];
      }
      i := i + 1;
    }
  }
}
