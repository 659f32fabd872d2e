/**
  Append-only record files under power loss: the one append rule
  (engine/contracts/atomic.py) and the one reader (engine/contracts/jsonl.py).

  A record is identified with the bytes of its rendered line.  `parses` stands for
  `json.loads` succeeding on a line; the facts assumed of it are in IsRecord.
 */
module RecordLog {
  import opened Wrappers

  type Byte = b: int | 0 <= b < 256
  type Line = seq<Byte>
  const NEWLINE: Byte := 10

  /** `str.strip()` leaves nothing: only ASCII white space. */
  predicate Blank(line: Line) {
    forall k | 0 <= k < |line| :: line[k] == 32 || 9 <= line[k] <= 13
  }

  /** What the writers guarantee of one rendered record (a JSON object, ASCII-escaped). */
  ghost predicate IsRecord(parses: Line -> bool, rec: Line) {
    && rec != [] && !Blank(rec[..1])
    && NEWLINE !in rec
    && parses(rec)
    && forall n {:trigger parses(rec[..n])} | 0 <= n < |rec| :: !parses(rec[..n])
  }

  // ---------------------------------------------------------------- the tail

  /** `bytes.rfind(b"\n")`. */
  function RFind(data: seq<Byte>): (cut: int)
    ensures -1 <= cut < |data|
    ensures cut >= 0 ==> data[cut] == NEWLINE
    ensures forall k | cut < k < |data| :: data[k] != NEWLINE
  {
    if data == [] then -1
    else if data[|data| - 1] == NEWLINE then |data| - 1
    else RFind(data[..|data| - 1])
  }

  /** The whole-file form: where an unterminated final line starts. */
  function TornTailOffset(data: seq<Byte>): Option<nat> {
    if data == [] || data[|data| - 1] == NEWLINE then None else Some(RFind(data) + 1)
  }

  function TailOf(data: seq<Byte>): Option<Line> {
    match TornTailOffset(data)
    case None => None
    case Some(offset) => Some(data[offset..])
  }

  // --------------------------------------------------------------- the append

  /** When the machine dies: never, or once that many durable effects have landed
      (a truncation is one effect, every appended byte is one effect). */
  datatype Power = Stays | LostAfter(effects: nat)

  datatype Repair = NewlineRepaired | TornTruncated(bytes: nat)

  datatype Outcome = Returned(repair: Option<Repair>) | RefusedTorn(bytes: nat) | Died

  function Terminated(line: Line): Line {
    if line != [] && line[|line| - 1] == NEWLINE then line else line + [NEWLINE]
  }

  function Landing(disk: seq<Byte>, bytes: seq<Byte>, power: Power): seq<Byte> {
    match power
    case Stays => disk + bytes
    case LostAfter(n) => disk + bytes[..if n < |bytes| then n else |bytes|]
  }

  function Done(power: Power, repair: Option<Repair>): Outcome {
    if power.Stays? then Returned(repair) else Died
  }

  /** One append over any file content, stated with the whole-file tail. */
  function AppendBytes(parses: Line -> bool, disk: seq<Byte>, line: Line, repairTorn: bool, power: Power)
    : (seq<Byte>, Outcome)
  {
    match TailOf(disk)
    case None => (Landing(disk, Terminated(line), power), Done(power, None))
    case Some(tail) =>
      if parses(tail) then
        (Landing(disk, [NEWLINE] + Terminated(line), power), Done(power, Some(NewlineRepaired)))
      else if !repairTorn then
        (disk, RefusedTorn(|tail|))
      else if power == LostAfter(0) then
        (disk, Died)
      else
        var rest := if power.Stays? then Stays else LostAfter(power.effects - 1);
        (Landing(disk[..|disk| - |tail|], Terminated(line), rest), Done(power, Some(TornTruncated(|tail|))))
  }

  // --------------------------------------------------------------- the reader

  /** `str.splitlines()` on newline alone: no final empty line. */
  function SplitLines(data: seq<Byte>): seq<Line> {
    if data == [] then []
    else
      var cut := FirstNewline(data);
      if cut == |data| then [data] else [data[..cut]] + SplitLines(data[cut + 1..])
  }

  function FirstNewline(data: seq<Byte>): (cut: nat)
    ensures cut <= |data|
    ensures cut < |data| ==> data[cut] == NEWLINE
    ensures forall k | 0 <= k < cut :: data[k] != NEWLINE
  {
    if data == [] || data[0] == NEWLINE then 0 else 1 + FirstNewline(data[1..])
  }

  datatype ReadOutcome = Records(records: seq<Line>, torn: Option<nat>) | Corrupt(lineNumber: nat)

  /** The lines `json.loads` accepts, in order, blank lines skipped. */
  function Parsed(parses: Line -> bool, lines: seq<Line>): seq<Line> {
    if lines == [] then []
    else
      var last := lines[|lines| - 1];
      Parsed(parses, lines[..|lines| - 1])
      + (if !Blank(last) && parses(last) then [last] else [])
  }

  predicate Bad(parses: Line -> bool, line: Line) {
    !Blank(line) && !parses(line)
  }

  /** Line k stops the read: unparseable, and not an unterminated final line. */
  predicate Stops(parses: Line -> bool, lines: seq<Line>, terminated: bool, k: nat)
    requires k < |lines|
  {
    Bad(parses, lines[k]) && !(k == |lines| - 1 && !terminated)
  }

  predicate ReadsThrough(parses: Line -> bool, lines: seq<Line>, terminated: bool, n: nat)
    requires n <= |lines|
  {
    forall k: nat | k < n :: !Stops(parses, lines, terminated, k)
  }

  predicate EndsInNewline(data: seq<Byte>) {
    data != [] && data[|data| - 1] == NEWLINE
  }

  /** `read_jsonl` does not raise. */
  predicate Readable(parses: Line -> bool, data: seq<Byte>) {
    ReadsThrough(parses, SplitLines(data), EndsInNewline(data), |SplitLines(data)|)
  }

  function TornOf(parses: Line -> bool, data: seq<Byte>): Option<nat> {
    match TailOf(data)
    case None => None
    case Some(tail) => if Bad(parses, tail) then Some(|tail|) else None
  }

  // ----------------------------------------------------------- the file object

  class RecordFile {
    const parses: Line -> bool
    var present: bool
    var data: seq<Byte>

    ghost predicate Valid() reads this { !present ==> data == [] }

    constructor (parses: Line -> bool)
      ensures Valid() && data == [] && this.parses == parses
    {
      this.parses := parses;
      present, data := false, [];
    }

    /** Scans backwards in chunks of 4096, 16384, ... bytes, never the whole file at once. */
    method UnterminatedTail() returns (tail: Option<Line>)
      requires Valid()
      ensures tail == TailOf(data)
    {
      if !present { return None; }
      var size := |data|;
      if size == 0 { return None; }
      var chunk := 4096;
      while true
        invariant 4096 <= chunk
        decreases size - chunk
      {
        var start := if size - chunk > 0 then size - chunk else 0;
        var buf := data[start..];
        if buf[|buf| - 1] == NEWLINE { return None; }
        var cut := RFind(buf);
        if cut >= 0 {
          TailFromSuffix(data, start);
          return Some(buf[cut + 1..]);
        }
        if start == 0 { return Some(buf); }
        chunk := chunk * 4;
      }
    }

    method AppendFsync(line: Line, repairTorn: bool, power: Power) returns (outcome: Outcome)
      requires Valid()
      modifies this
      ensures Valid()
      ensures (data, outcome) == AppendBytes(parses, old(data), line, repairTorn, power)
    {
      var bytes := line;
      if bytes == [] || bytes[|bytes| - 1] != NEWLINE {
        bytes := bytes + [NEWLINE];
      }
      var repaired: Option<Repair> := None;
      var left := power;
      var tail := UnterminatedTail();
      if tail.Some? {
        if parses(tail.value) {
          bytes := [NEWLINE] + bytes;
          repaired := Some(NewlineRepaired);
        } else if !repairTorn {
          return RefusedTorn(|tail.value|);
        } else {
          if left == LostAfter(0) { return Died; }
          data := data[..|data| - |tail.value|];
          repaired := Some(TornTruncated(|tail.value|));
          left := if left.Stays? then Stays else LostAfter(left.effects - 1);
        }
      }
      present := true;
      data := Landing(data, bytes, left);
      outcome := Done(power, repaired);
    }

    method ReadJsonl() returns (r: ReadOutcome)
      requires Valid()
      ensures r.Records? <==> Readable(parses, data)
      ensures r.Records? ==> r == Records(Parsed(parses, SplitLines(data)), TornOf(parses, data))
      ensures r.Corrupt? ==>
                var lines := SplitLines(data);
                && 1 <= r.lineNumber <= |lines|
                && ReadsThrough(parses, lines, EndsInNewline(data), r.lineNumber - 1)
                && Stops(parses, lines, EndsInNewline(data), r.lineNumber - 1)
    {
      if !present { return Records([], None); }
      var lines, terminated := SplitLines(data), EndsInNewline(data);
      LastLineIsTail(data);
      var records: seq<Line> := [];
      var torn: Option<nat> := None;
      var index := 0;
      while index < |lines|
        invariant 0 <= index <= |lines|
        invariant records == Parsed(parses, lines[..index])
        invariant ReadsThrough(parses, lines, terminated, index)
        invariant torn == if index == |lines| then TornOf(parses, data) else None
      {
        var line := lines[index];
        ParsedAppend(parses, lines, index);
        if Blank(line) {
        } else if parses(line) {
          records := records + [line];
        } else if index == |lines| - 1 && !terminated {
          torn := Some(|line|);
        } else {
          assert Stops(parses, lines, terminated, index);
          return Corrupt(index + 1);
        }
        index := index + 1;
      }
      assert lines[..|lines|] == lines;
      return Records(records, torn);
    }
  }

  // ------------------------------------------------------ facts about bytes

  lemma TailFromSuffix(data: seq<Byte>, start: nat)
    requires start < |data|
    requires data[|data| - 1] != NEWLINE
    requires RFind(data[start..]) >= 0
    ensures RFind(data) == start + RFind(data[start..])
  {
    var cut := RFind(data[start..]);
    assert data[start..][cut] == data[start + cut];
    forall k | start + cut < k < |data| ensures data[k] != NEWLINE {
      assert data[k] == data[start..][k - start];
    }
  }

  lemma ParsedAppend(parses: Line -> bool, lines: seq<Line>, k: nat)
    requires k < |lines|
    ensures Parsed(parses, lines[..k + 1])
         == Parsed(parses, lines[..k]) + (if !Blank(lines[k]) && parses(lines[k]) then [lines[k]] else [])
  {
    assert lines[..k + 1][..k] == lines[..k];
  }

  lemma TailAfterCut(data: seq<Byte>, cut: nat)
    requires cut < |data| && data[cut] == NEWLINE
    ensures TailOf(data) == TailOf(data[cut + 1..])
  {
    var rest := data[cut + 1..];
    if rest != [] && rest[|rest| - 1] != NEWLINE {
      var a := RFind(rest);
      if a >= 0 {
        TailFromSuffix(data, cut + 1);
      } else {
        assert forall k | cut < k < |data| :: data[k] == rest[k - cut - 1];
      }
      assert RFind(data) == cut + 1 + a;
    }
  }

  /** Both forms of the tail agree with the last line of the split. */
  lemma {:induction false} LastLineIsTail(data: seq<Byte>)
    ensures data == [] <==> SplitLines(data) == []
    ensures TailOf(data).Some? ==> SplitLines(data)[|SplitLines(data)| - 1] == TailOf(data).value
    decreases |data|
  {
    if data != [] {
      var cut := FirstNewline(data);
      if cut == |data| {
        assert RFind(data) == -1;
      } else {
        LastLineIsTail(data[cut + 1..]);
        TailAfterCut(data, cut);
      }
    }
  }
}
