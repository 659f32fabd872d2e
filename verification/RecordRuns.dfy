/**
  Runs of appends over one record file, with power lost at any durable effect of any
  append.  The bytes on disk always refine a log of whole records plus one tail.
 */
module RecordRuns {
  import opened Wrappers
  import opened RecordLog

  /** What follows the last newline: nothing, a whole record without its newline, or a fragment. */
  datatype Tail = Clean | Whole(rec: Line) | Torn(rec: Line, n: nat)

  datatype Log = Log(records: seq<Line>, tail: Tail)

  /** One call of the append; the caller may or may not have rendered the newline. */
  datatype Event = Append(rec: Line, terminated: bool, repairTorn: bool, power: Power)

  function Rendered(ev: Event): Line {
    if ev.terminated then ev.rec + [NEWLINE] else ev.rec
  }

  function Lines(records: seq<Line>): seq<Byte> {
    if records == [] then [] else records[0] + [NEWLINE] + Lines(records[1..])
  }

  function TailBytes(tail: Tail): Line
    requires tail.Torn? ==> tail.n <= |tail.rec|
  {
    match tail
    case Clean => []
    case Whole(rec) => rec
    case Torn(rec, n) => rec[..n]
  }

  ghost predicate Good(parses: Line -> bool, records: seq<Line>) {
    forall k | 0 <= k < |records| :: IsRecord(parses, records[k])
  }

  ghost predicate ValidLog(parses: Line -> bool, log: Log) {
    && Good(parses, log.records)
    && (!log.tail.Clean? ==> IsRecord(parses, log.tail.rec))
    && (log.tail.Torn? ==> 0 < log.tail.n < |log.tail.rec|)
  }

  function Image(log: Log): seq<Byte>
    requires log.tail.Torn? ==> log.tail.n <= |log.tail.rec|
  {
    Lines(log.records) + TailBytes(log.tail)
  }

  function AllRecords(log: Log): seq<Line> {
    log.records + (if log.tail.Whole? then [log.tail.rec] else [])
  }

  /** Writing a record and its newline after whole lines, `power` effects at most. */
  function Write(whole: seq<Line>, rec: Line, power: Power): Log {
    match power
    case Stays => Log(whole + [rec], Clean)
    case LostAfter(m) =>
      if m == 0 then Log(whole, Clean)
      else if m < |rec| then Log(whole, Torn(rec, m))
      else if m == |rec| then Log(whole, Whole(rec))
      else Log(whole + [rec], Clean)
  }

  function OneLess(power: Power): Power {
    if power.Stays? || power.effects == 0 then power else LostAfter(power.effects - 1)
  }

  function RepairOf(tail: Tail): Option<Repair> {
    match tail
    case Clean => None
    case Whole(_) => Some(NewlineRepaired)
    case Torn(_, n) => Some(TornTruncated(n))
  }

  /** One append on the log: an unterminated tail costs one effect, then the record is written. */
  function Step(log: Log, ev: Event): (Log, Outcome)
  {
    if log.tail.Torn? && !ev.repairTorn then (log, RefusedTorn(log.tail.n))
    else if log.tail.Clean? then (Write(log.records, ev.rec, ev.power), Done(ev.power, None))
    else if ev.power == LostAfter(0) then (log, Died)
    else (Write(AllRecords(log), ev.rec, OneLess(ev.power)), Done(ev.power, RepairOf(log.tail)))
  }

  // ------------------------------------------------------------ bytes of a log

  lemma {:induction false} LinesAppend(records: seq<Line>, rec: Line)
    ensures Lines(records + [rec]) == Lines(records) + rec + [NEWLINE]
  {
    if records == [] {
      assert records + [rec] == [rec];
      assert Lines([rec]) == rec + [NEWLINE] + Lines([]);
    } else {
      LinesAppend(records[1..], rec);
      assert (records + [rec])[1..] == records[1..] + [rec];
      assert (records + [rec])[0] == records[0];
    }
  }

  lemma {:induction false} LinesEndTerminated(records: seq<Line>)
    ensures Lines(records) == [] <==> records == []
    ensures records != [] ==> Lines(records)[|Lines(records)| - 1] == NEWLINE
  {
    if records != [] {
      var init, last := records[..|records| - 1], records[|records| - 1];
      LinesAppend(init, last);
      assert init + [last] == records;
    }
  }

  lemma TailOfLines(records: seq<Line>, tail: Line)
    requires NEWLINE !in tail
    ensures TailOf(Lines(records) + tail) == if tail == [] then None else Some(tail)
  {
    var head, data := Lines(records), Lines(records) + tail;
    LinesEndTerminated(records);
    if tail == [] {
      assert data == head;
    } else {
      assert data[|data| - 1] == tail[|tail| - 1];
      assert forall k | |head| <= k < |data| :: data[k] == tail[k - |head|];
      assert head != [] ==> data[|head| - 1] == NEWLINE;
      assert RFind(data) == |head| - 1;
      assert data[|head|..] == tail;
    }
  }

  /** The lines of whole records and what follows them. */
  function WithTail(records: seq<Line>, tail: Line): seq<Line> {
    if tail == [] then records else records + [tail]
  }

  lemma SplitTail(tail: Line)
    requires NEWLINE !in tail
    ensures SplitLines(tail) == WithTail([], tail)
  {
    if tail != [] { assert FirstNewline(tail) == |tail|; }
  }

  lemma WithTailHead(rec: Line, rest: seq<Line>, tail: Line)
    ensures [rec] + WithTail(rest, tail) == WithTail([rec] + rest, tail)
  {
    Assoc([rec], rest, [tail]);
  }

  lemma {:induction false} SplitOfLines(parses: Line -> bool, records: seq<Line>, tail: Line)
    requires Good(parses, records)
    requires NEWLINE !in tail
    ensures SplitLines(Lines(records) + tail) == WithTail(records, tail)
  {
    if records == [] {
      assert Lines(records) + tail == tail;
      SplitTail(tail);
    } else {
      var rec, rest := records[0], records[1..];
      SplitOfLines(parses, rest, tail);
      Assoc(rec + [NEWLINE], Lines(rest), tail);
      SplitFirst(rec, Lines(rest) + tail);
      WithTailHead(rec, rest, tail);
      assert [rec] + rest == records;
    }
  }

  lemma SplitFirst(rec: Line, rest: seq<Byte>)
    requires NEWLINE !in rec
    ensures SplitLines(rec + [NEWLINE] + rest) == [rec] + SplitLines(rest)
  {
    var data := rec + [NEWLINE] + rest;
    assert data[|rec|] == NEWLINE;
    assert forall k | 0 <= k < |rec| :: data[k] == rec[k];
    assert FirstNewline(data) == |rec|;
    assert data[..|rec|] == rec && data[|rec| + 1..] == rest;
  }

  lemma {:induction false} ParsedOfRecords(parses: Line -> bool, records: seq<Line>)
    requires Good(parses, records)
    ensures Parsed(parses, records) == records
  {
    if records != [] {
      var last := records[|records| - 1];
      ParsedOfRecords(parses, records[..|records| - 1]);
      RecordIsGood(parses, last, |last|);
      assert records[..|records| - 1] + [last] == records;
    }
  }

  /** A record is never blank, and a non-empty fragment of one is neither blank nor parseable. */
  lemma RecordIsGood(parses: Line -> bool, rec: Line, n: nat)
    requires IsRecord(parses, rec) && 0 < n <= |rec|
    ensures !Blank(rec[..n]) && rec[..|rec|] == rec
    ensures Bad(parses, rec[..n]) <==> n < |rec|
  {
    assert rec[..1][0] == rec[..n][0];
    assert rec[..|rec|] == rec;
  }

  function After(parses: Line -> bool, disk: seq<Byte>, ev: Event): (seq<Byte>, Outcome) {
    AppendBytes(parses, disk, Rendered(ev), ev.repairTorn, ev.power)
  }

  // -------------------------------------------------------------- refinement

  lemma TailOfImage(parses: Line -> bool, log: Log)
    requires ValidLog(parses, log)
    ensures TailOf(Image(log)) == if log.tail.Clean? then None else Some(TailBytes(log.tail))
  {
    TailOfLines(log.records, TailBytes(log.tail));
  }

  lemma StepKeepsLog(parses: Line -> bool, log: Log, ev: Event)
    requires ValidLog(parses, log) && IsRecord(parses, ev.rec)
    ensures ValidLog(parses, Step(log, ev).0)
  {
  }

  /** What a write of `bytes` = the record and its newline leaves, after the old tail is settled. */
  lemma LandingOfRecord(whole: seq<Line>, rec: Line, power: Power)
    ensures var disk := Landing(Lines(whole), rec + [NEWLINE], power);
            match power
            case Stays => disk == Lines(whole + [rec])
            case LostAfter(m) =>
              disk == if m <= |rec| then Lines(whole) + rec[..m] else Lines(whole + [rec])
  {
    LinesAppend(whole, rec);
    if power.LostAfter? {
      if power.effects <= |rec| {
        assert (rec + [NEWLINE])[..power.effects] == rec[..power.effects];
      } else {
        assert (rec + [NEWLINE])[..|rec| + 1] == rec + [NEWLINE];
      }
    }
  }

  lemma LandingAfterNewline(head: seq<Byte>, rec: Line, power: Power)
    requires power.LostAfter? ==> power.effects > 0
    ensures Landing(head, [NEWLINE] + (rec + [NEWLINE]), power)
         == Landing(head + [NEWLINE], rec + [NEWLINE],
                    if power.Stays? then Stays else LostAfter(power.effects - 1))
  {
    var bytes := [NEWLINE] + (rec + [NEWLINE]);
    if power.LostAfter? {
      var n := if power.effects < |bytes| then power.effects else |bytes|;
      assert bytes[..n] == [NEWLINE] + (rec + [NEWLINE])[..n - 1];
    }
  }

  lemma ImageOfClean(records: seq<Line>)
    ensures Image(Log(records, Clean)) == Lines(records)
  {
  }

  lemma CleanRefines(parses: Line -> bool, records: seq<Line>, ev: Event)
    requires NEWLINE !in ev.rec && TailOf(Lines(records)) == None
    ensures After(parses, Lines(records), ev).0 == Image(Step(Log(records, Clean), ev).0)
    ensures After(parses, Lines(records), ev).1 == Step(Log(records, Clean), ev).1
  {
    SettledAppend(records, ev, ev.power);
  }

  /** Appending after a whole unterminated record, unfolded. */
  lemma AppendAfterWhole(parses: Line -> bool, disk: seq<Byte>, rec: Line, ev: Event)
    requires NEWLINE !in ev.rec && TailOf(disk) == Some(rec) && parses(rec)
    ensures After(parses, disk, ev)
         == (Landing(disk, [NEWLINE] + (ev.rec + [NEWLINE]), ev.power), Done(ev.power, Some(NewlineRepaired)))
  {
    SettledAppend([], ev, ev.power);
  }

  lemma WholeRefines(parses: Line -> bool, records: seq<Line>, rec: Line, ev: Event)
    requires NEWLINE !in ev.rec && TailOf(Lines(records) + rec) == Some(rec) && parses(rec)
    ensures After(parses, Lines(records) + rec, ev).0 == Image(Step(Log(records, Whole(rec)), ev).0)
    ensures After(parses, Lines(records) + rec, ev).1 == Step(Log(records, Whole(rec)), ev).1
  {
    AppendAfterWhole(parses, Lines(records) + rec, rec, ev);
    if ev.power != LostAfter(0) {
      WholeSettles(records, rec, ev);
    }
  }

  /** The repair newline completes the old record before the new one is written. */
  lemma WholeSettles(records: seq<Line>, rec: Line, ev: Event)
    requires NEWLINE !in ev.rec && ev.power != LostAfter(0)
    ensures Landing(Lines(records) + rec, [NEWLINE] + (ev.rec + [NEWLINE]), ev.power)
         == Image(Write(records + [rec], ev.rec, OneLess(ev.power)))
  {
    LinesAppend(records, rec);
    LandingAfterNewline(Lines(records) + rec, ev.rec, ev.power);
    SettledAppend(records + [rec], ev, OneLess(ev.power));
  }

  lemma TornRefines(parses: Line -> bool, records: seq<Line>, rec: Line, n: nat, ev: Event)
    requires n <= |rec| && NEWLINE !in ev.rec
    requires TailOf(Lines(records) + rec[..n]) == Some(rec[..n]) && !parses(rec[..n])
    ensures After(parses, Lines(records) + rec[..n], ev).0 == Image(Step(Log(records, Torn(rec, n)), ev).0)
    ensures After(parses, Lines(records) + rec[..n], ev).1 == Step(Log(records, Torn(rec, n)), ev).1
  {
    var disk := Lines(records) + rec[..n];
    assert disk[..|disk| - n] == Lines(records);
    SettledAppend(records, ev, OneLess(ev.power));
    assert AllRecords(Log(records, Torn(rec, n))) == records;
  }

  /** The append on the bytes refines the append on the log, wherever power is lost. */
  lemma AppendRefinesStep(parses: Line -> bool, log: Log, ev: Event)
    requires ValidLog(parses, log) && IsRecord(parses, ev.rec)
    ensures ValidLog(parses, Step(log, ev).0)
    ensures After(parses, Image(log), ev) == (Image(Step(log, ev).0), Step(log, ev).1)
  {
    TailOfImage(parses, log);
    StepKeepsLog(parses, log, ev);
    match log.tail
    case Clean =>
      ImageOfClean(log.records);
      CleanRefines(parses, log.records, ev);
    case Whole(rec) => WholeRefines(parses, log.records, rec, ev);
    case Torn(rec, n) => TornRefines(parses, log.records, rec, n, ev);
  }

  /** The write itself, once the old tail is settled and `power` has effects left. */
  lemma SettledAppend(whole: seq<Line>, ev: Event, power: Power)
    requires NEWLINE !in ev.rec
    ensures Terminated(Rendered(ev)) == ev.rec + [NEWLINE]
    ensures Landing(Lines(whole), ev.rec + [NEWLINE], power) == Image(Write(whole, ev.rec, power))
  {
    LandingOfRecord(whole, ev.rec, power);
    ImageOfClean(whole);
    ImageOfClean(whole + [ev.rec]);
    assert Lines(whole) + ev.rec[..0] == Lines(whole) && ev.rec[..|ev.rec|] == ev.rec;
  }

  lemma ReadOfLines(parses: Line -> bool, records: seq<Line>)
    requires Good(parses, records)
    ensures Readable(parses, Lines(records)) && Parsed(parses, SplitLines(Lines(records))) == records
  {
    SplitOfLines(parses, records, []);
    assert Lines(records) + [] == Lines(records);
    ParsedOfRecords(parses, records);
    GoodRecords(parses, records);
  }

  /** An unterminated tail, whole or torn, never stops the read. */
  lemma ReadOfTail(parses: Line -> bool, records: seq<Line>, tail: Line)
    requires Good(parses, records) && NEWLINE !in tail && tail != [] && !Blank(tail)
    ensures Readable(parses, Lines(records) + tail)
    ensures Parsed(parses, SplitLines(Lines(records) + tail)) == if parses(tail) then records + [tail] else records
  {
    var data := Lines(records) + tail;
    SplitOfLines(parses, records, tail);
    ParsedOfRecords(parses, records);
    GoodRecords(parses, records);
    TailParsed(parses, records, tail);
    assert data[|data| - 1] == tail[|tail| - 1];
    assert (records + [tail])[..|records|] == records;
  }

  /** A log is always readable: never the corruption error, exactly its whole records. */
  lemma ReadOfImage(parses: Line -> bool, log: Log)
    requires ValidLog(parses, log)
    ensures Readable(parses, Image(log))
    ensures Parsed(parses, SplitLines(Image(log))) == AllRecords(log)
    ensures TornOf(parses, Image(log)) == if log.tail.Torn? then Some(log.tail.n) else None
  {
    TailOfImage(parses, log);
    match log.tail
    case Clean =>
      ImageOfClean(log.records);
      ReadOfLines(parses, log.records);
    case Whole(rec) =>
      RecordIsGood(parses, rec, |rec|);
      ReadOfTail(parses, log.records, rec);
    case Torn(rec, n) =>
      RecordIsGood(parses, rec, n);
      ReadOfTail(parses, log.records, rec[..n]);
  }

  lemma GoodRecords(parses: Line -> bool, records: seq<Line>)
    requires Good(parses, records)
    ensures forall k | 0 <= k < |records| :: !Bad(parses, records[k])
  {
    forall k | 0 <= k < |records| ensures !Bad(parses, records[k]) {
      RecordIsGood(parses, records[k], |records[k]|);
    }
  }

  lemma TailParsed(parses: Line -> bool, records: seq<Line>, tail: Line)
    ensures Parsed(parses, records + [tail])
         == Parsed(parses, records) + (if !Blank(tail) && parses(tail) then [tail] else [])
  {
    assert (records + [tail])[..|records|] == records;
  }

  // ------------------------------------------------------------------- runs

  ghost predicate GoodEvents(parses: Line -> bool, events: seq<Event>) {
    forall k | 0 <= k < |events| :: IsRecord(parses, events[k].rec)
  }

  function Run(parses: Line -> bool, disk: seq<Byte>, events: seq<Event>): seq<Byte>
    decreases |events|
  {
    if events == [] then disk else Run(parses, After(parses, disk, events[0]).0, events[1..])
  }

  /** An event's record is kept unless the append refused, or power was lost before every byte
      of the record had landed (one earlier effect settles an unterminated tail).  In
      particular every append that returned is kept. */
  predicate Kept(parses: Line -> bool, disk: seq<Byte>, ev: Event) {
    && !After(parses, disk, ev).1.RefusedTorn?
    && (ev.power.Stays? || ev.power.effects >= |ev.rec| + (if TailOf(disk).Some? then 1 else 0))
  }

  function KeptRecord(parses: Line -> bool, disk: seq<Byte>, ev: Event): seq<Line> {
    if Kept(parses, disk, ev) then [ev.rec] else []
  }

  function Survivors(parses: Line -> bool, disk: seq<Byte>, events: seq<Event>): seq<Line>
    decreases |events|
  {
    if events == [] then []
    else
      KeptRecord(parses, disk, events[0])
      + Survivors(parses, After(parses, disk, events[0]).0, events[1..])
  }

  lemma WriteKeeps(whole: seq<Line>, rec: Line, power: Power)
    requires rec != []
    ensures AllRecords(Write(whole, rec, power))
         == if power.Stays? || power.effects >= |rec| then whole + [rec] else whole
  {
  }

  lemma StepKeepsRecord(parses: Line -> bool, log: Log, ev: Event)
    requires ValidLog(parses, log) && IsRecord(parses, ev.rec)
    ensures ValidLog(parses, Step(log, ev).0)
    ensures After(parses, Image(log), ev).0 == Image(Step(log, ev).0)
    ensures AllRecords(Step(log, ev).0) == AllRecords(log) + KeptRecord(parses, Image(log), ev)
  {
    AppendRefinesStep(parses, log, ev);
    TailOfImage(parses, log);
    var disk := Image(log);
    WriteKeeps(log.records, ev.rec, ev.power);
    WriteKeeps(AllRecords(log), ev.rec, OneLess(ev.power));
    assert AllRecords(Step(log, ev).0)
        == if Kept(parses, disk, ev) then AllRecords(log) + [ev.rec] else AllRecords(log);
  }

  lemma {:induction false} RunRefinesLog(parses: Line -> bool, log: Log, events: seq<Event>) returns (last: Log)
    requires ValidLog(parses, log)
    requires GoodEvents(parses, events)
    ensures ValidLog(parses, last)
    ensures Run(parses, Image(log), events) == Image(last)
    ensures AllRecords(last) == AllRecords(log) + Survivors(parses, Image(log), events)
    decreases |events|
  {
    if events == [] {
      last := log;
    } else {
      var ev := events[0];
      var next := Step(log, ev).0;
      StepKeepsRecord(parses, log, ev);
      last := RunRefinesLog(parses, next, events[1..]);
      Assoc(AllRecords(log), KeptRecord(parses, Image(log), ev), Survivors(parses, Image(next), events[1..]));
    }
  }

  /** Any run from an absent file: the reader never refuses, and returns the acknowledged
      records in order plus exactly the unacknowledged ones that landed whole. */
  lemma RunIsReadable(parses: Line -> bool, events: seq<Event>)
    requires GoodEvents(parses, events)
    ensures Readable(parses, Run(parses, [], events))
    ensures Parsed(parses, SplitLines(Run(parses, [], events))) == Survivors(parses, [], events)
  {
    ImageOfEmpty();
    var last := RunRefinesLog(parses, Log([], Clean), events);
    ReadOfImage(parses, last);
    assert AllRecords(last) == [] + Survivors(parses, [], events);
  }

  lemma ImageOfEmpty()
    ensures Image(Log([], Clean)) == [] && AllRecords(Log([], Clean)) == []
  {
  }

  /** Over ANY bytes, an append keeps every terminated line, and a tail that parses. */
  lemma RepairRemovesOnlyTornBytes(parses: Line -> bool, disk: seq<Byte>, ev: Event)
    ensures var after := After(parses, disk, ev).0;
            match TailOf(disk)
            case None => disk <= after
            case Some(tail) =>
              && |tail| <= |disk| && disk[..|disk| - |tail|] <= after
              && (parses(tail) || !ev.repairTorn ==> disk <= after)
  {
  }

  /** Why no proper prefix may parse: cut after one byte, the number 12 reads back as 1. */
  lemma PrefixThatParsesIsMisread()
    ensures var digits := (l: Line) => l != [] && forall k | 0 <= k < |l| :: 48 <= l[k] <= 57;
            var disk := Run(digits, [], [Append([49, 50], false, true, LostAfter(1))]);
            Readable(digits, disk) && Parsed(digits, SplitLines(disk)) == [[49]]
  {
    var digits := (l: Line) => l != [] && forall k | 0 <= k < |l| :: 48 <= l[k] <= 57;
    var ev := Append([49, 50], false, true, LostAfter(1));
    assert Run(digits, [], [ev]) == After(digits, [], ev).0 == [49];
    assert SplitLines([49]) == [[49]];
  }
}
