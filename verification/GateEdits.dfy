/**
  The edits a Gate 0 approval applies to the brief in memory (engine/intake/gate.py, lines 52 to
  186): corrections to the assumption register, answers and skips to the intake gaps.
  Every instruction is honoured or the whole approval raises.
 */
module GateEdits {
  import opened Wrappers

  /** A register field path: the part before the last dot, and the leaf after it. */
  datatype Path = Path(parent: string, leaf: string)

  datatype Value = Text(text: string) | Number(number: real)

  datatype EntryStatus = Unconfirmed | Confirmed | Corrected

  /** `code`: the value was parsed from model text, so it takes no correction of its own. */
  datatype Entry = Entry(field: Path, code: bool, value: Value, status: EntryStatus,
                         correctedTo: Option<Value>, correctedBy: Option<string>)

  datatype GapStatus = Open | Answered | Skipped

  datatype Gap = Gap(id: string, status: GapStatus, answer: Option<string>, answeredBy: Option<string>,
                      answeredAt: Option<string>)

  /** `parents` are the paths that resolve to a dictionary. */
  datatype Brief = Brief(parents: set<string>, values: map<Path, Value>, register: seq<Entry>, gaps: seq<Gap>)

  datatype Correction = Correction(field: Path, value: Option<Value>)

  datatype Answer = Answer(gap: string, text: string)

  datatype GapLine = GapLine(gap: string, at: Option<string>, resolution: string)

  type Parse = string -> Option<(real, string)>

  // --------------------------------------------------------------- corrections

  /** The register as a dictionary by field; the last entry of a field wins. */
  function Register(entries: seq<Entry>): map<Path, Entry> {
    if entries == [] then map[]
    else
      var last := entries[|entries| - 1];
      Register(entries[..|entries| - 1])[last.field := last]
  }

  function Fix(entry: Entry, value: Value, actor: string): Entry {
    entry.(status := Corrected, correctedTo := Some(value), correctedBy := Some(actor))
  }

  /** Replaces the entry the dictionary points at: the last one of the field. */
  function SetLast(entries: seq<Entry>, field: Path, edit: Entry -> Entry): seq<Entry> {
    if entries == [] then []
    else
      var front, last := entries[..|entries| - 1], entries[|entries| - 1];
      if last.field == field then front + [edit(last)] else SetLast(front, field, edit) + [last]
  }

  function Dropping(entries: seq<Entry>, field: Path): seq<Entry> {
    if entries == [] then []
    else
      var rest := Dropping(entries[..|entries| - 1], field);
      if entries[|entries| - 1].field == field then rest else rest + [entries[|entries| - 1]]
  }

  /** The number follows its text; a number the text no longer states is removed. */
  function Reparsed(brief: Brief, parent: string, parsed: Option<(real, string)>): Brief {
    var weight, basis := Path(parent, "weight"), Path(parent, "weight_basis");
    match parsed
    case None => brief.(values := brief.values - {weight, basis}, register := Dropping(brief.register, weight))
    case Some(found) => brief.(
      values := brief.values[weight := Number(found.0)][basis := Text(found.1)],
      register := SetLast(brief.register, weight, (e: Entry) => e.(value := Number(found.0))))
  }

  predicate Lower(c: char) { 'a' <= c <= 'z' || c == '_' }

  predicate Digit(c: char) { '0' <= c <= '9' }

  /** `[a-z_]+\[\d+\]`: the leaf addresses a whole row. */
  predicate Indexed(leaf: string) {
    exists i | 0 < i < |leaf| - 2 ::
      leaf[i] == '[' && leaf[|leaf| - 1] == ']'
      && (forall j | 0 <= j < i :: Lower(leaf[j])) && (forall j | i < j < |leaf| - 1 :: Digit(leaf[j]))
  }

  function Fixed(brief: Brief, item: Correction, actor: string): Brief
    requires item.value.Some?
  {
    brief.(values := brief.values[item.field := item.value.value],
           register := SetLast(brief.register, item.field, (e: Entry) => Fix(e, item.value.value, actor)))
  }

  function CorrectOne(brief: Brief, register: map<Path, Entry>, item: Correction, actor: string, parse: Parse)
    : Result<Brief, string>
  {
    if item.field !in register then Raised("not on the assumption register")
    else if register[item.field].code then Raised("code-parsed")
    else if item.value.None? then Raised("needs a value")
    else if item.field.parent !in brief.parents || Indexed(item.field.leaf) then Raised("does not resolve")
    else
      var fixed := Fixed(brief, item, actor);
      if item.field.leaf != "weight_text" then Ok(fixed)
      else if item.value.value.Number? then Raised("the weight parser takes text")
      else Ok(Reparsed(fixed, item.field.parent, parse(item.value.value.text)))
  }

  function CorrectTo(brief: Brief, items: seq<Correction>, actor: string, parse: Parse, n: nat): Result<Brief, string>
    requires n <= |items|
  {
    if n == 0 then Ok(brief)
    else
      match CorrectTo(brief, items, actor, parse, n - 1)
      case Raised(why) => Raised(why)
      case Ok(before) => CorrectOne(before, Register(brief.register), items[n - 1], actor, parse)
  }

  lemma {:induction false} CorrectStops(brief: Brief, items: seq<Correction>, actor: string, parse: Parse, k: nat,
                                        n: nat)
    requires k <= n <= |items|
    requires CorrectTo(brief, items, actor, parse, k).Raised?
    ensures CorrectTo(brief, items, actor, parse, n) == CorrectTo(brief, items, actor, parse, k)
  {
    if k < n { CorrectStops(brief, items, actor, parse, k, n - 1); }
  }

  lemma CorrectTurn(given: Brief, items: seq<Correction>, actor: string, parse: Parse, k: nat, brief: Brief)
    requires k < |items| && CorrectTo(given, items, actor, parse, k) == Ok(brief)
    ensures CorrectTo(given, items, actor, parse, k + 1)
        == CorrectOne(brief, Register(given.register), items[k], actor, parse)
    ensures CorrectTo(given, items, actor, parse, k + 1).Raised?
        ==> CorrectTo(given, items, actor, parse, |items|) == CorrectTo(given, items, actor, parse, k + 1)
  {
    if CorrectTo(given, items, actor, parse, k + 1).Raised? {
      CorrectStops(given, items, actor, parse, k + 1, |items|);
    }
  }

  method ApplyCorrections(given: Brief, items: seq<Correction>, actor: string, parse: Parse)
    returns (r: Result<Brief, string>)
    ensures r == CorrectTo(given, items, actor, parse, |items|)
  {
    var register := Register(given.register);
    r := Ok(given);
    for k := 0 to |items|
      invariant r.Ok? && r == CorrectTo(given, items, actor, parse, k)
    {
      CorrectTurn(given, items, actor, parse, k, r.value);
      r := CorrectOne(r.value, register, items[k], actor, parse);
      if r.Raised? { return; }
    }
  }

  // --------------------------------------------------------- what a correction keeps

  predicate DistinctFields(entries: seq<Entry>) {
    forall i, j | 0 <= i < j < |entries| :: entries[i].field != entries[j].field
  }

  lemma {:induction false} RegisterMeans(entries: seq<Entry>)
    requires DistinctFields(entries)
    ensures forall e | e in entries :: e.field in Register(entries) && Register(entries)[e.field] == e
    ensures forall f | f in Register(entries) :: Register(entries)[f] in entries && Register(entries)[f].field == f
  {
    if entries != [] {
      var front, last := entries[..|entries| - 1], entries[|entries| - 1];
      RegisterMeans(front);
      assert entries == front + [last];
    }
  }

  lemma {:induction false} SetLastMeans(entries: seq<Entry>, field: Path, edit: Entry -> Entry)
    requires DistinctFields(entries)
    ensures |SetLast(entries, field, edit)| == |entries|
    ensures forall i | 0 <= i < |entries| ::
              SetLast(entries, field, edit)[i] == if entries[i].field == field then edit(entries[i]) else entries[i]
  {
    if entries != [] {
      var front, last := entries[..|entries| - 1], entries[|entries| - 1];
      assert entries == front + [last];
      if last.field != field { SetLastMeans(front, field, edit); }
    }
  }

  lemma {:induction false} DroppingMeans(entries: seq<Entry>, field: Path)
    requires DistinctFields(entries)
    ensures DistinctFields(Dropping(entries, field))
    ensures forall e :: e in Dropping(entries, field) <==> e in entries && e.field != field
  {
    if entries != [] {
      var front, last := entries[..|entries| - 1], entries[|entries| - 1];
      assert entries == front + [last];
      DroppingMeans(front, field);
    }
  }

  predicate RowAgrees(values: map<Path, Value>, parent: string, parse: Parse) {
    var text, weight, basis := Path(parent, "weight_text"), Path(parent, "weight"), Path(parent, "weight_basis");
    text in values && values[text].Text? ==>
      match parse(values[text].text)
      case None => weight !in values && basis !in values
      case Some(found) => weight in values && values[weight] == Number(found.0)
                          && basis in values && values[basis] == Text(found.1)
  }

  /** Every stated weight is what its text parses to, and a code entry shows the brief's number. */
  ghost predicate WeightsAgree(brief: Brief, parse: Parse) {
    && (forall parent :: RowAgrees(brief.values, parent, parse))
    && (forall e | e in brief.register && e.field.leaf == "weight" ::
          e.field in brief.values && e.value == brief.values[e.field])
  }

  /** As intake builds it: one entry a field, and the weights on it are code-parsed. */
  predicate Registered(entries: seq<Entry>) {
    && DistinctFields(entries)
    && forall e | e in entries :: (e.field.leaf == "weight" ==> e.code) && e.field.leaf != "weight_basis"
  }

  /** The entries still on the brief are entries of the dictionary the edits started from. */
  predicate Within(entries: seq<Entry>, register: map<Path, Entry>) {
    && Registered(entries)
    && (forall e | e in entries :: e.field in register && register[e.field].code == e.code)
    && (forall f | f in register :: (f.leaf == "weight" ==> register[f].code) && f.leaf != "weight_basis")
  }

  lemma StartWithin(entries: seq<Entry>)
    requires Registered(entries)
    ensures Within(entries, Register(entries))
  {
    RegisterMeans(entries);
  }

  lemma SetLastWithin(entries: seq<Entry>, register: map<Path, Entry>, field: Path, edit: Entry -> Entry)
    requires Within(entries, register)
    requires forall e :: edit(e).field == e.field && edit(e).code == e.code
    ensures Within(SetLast(entries, field, edit), register)
  {
    SetLastMeans(entries, field, edit);
  }

  /** Writing one uncoded field leaves every row's number beside its text, but for that row. */
  lemma FixKeepsWeights(brief: Brief, register: map<Path, Entry>, field: Path, value: Value, actor: string,
                        parse: Parse)
    requires Within(brief.register, register) && WeightsAgree(brief, parse)
    requires field in register && !register[field].code
    ensures var fixed := brief.(values := brief.values[field := value],
                                register := SetLast(brief.register, field, (e: Entry) => Fix(e, value, actor)));
            && Within(fixed.register, register)
            && (forall p | p != field.parent || field.leaf != "weight_text" :: RowAgrees(fixed.values, p, parse))
            && (forall e | e in fixed.register && e.field.leaf == "weight" ::
                  e.field in fixed.values && e.value == fixed.values[e.field])
  {
    var edit := (e: Entry) => Fix(e, value, actor);
    SetLastWithin(brief.register, register, field, edit);
    SetLastMeans(brief.register, field, edit);
    var fixed := SetLast(brief.register, field, edit);
    var values := brief.values[field := value];
    forall p | p != field.parent || field.leaf != "weight_text" ensures RowAgrees(values, p, parse) {
      assert RowAgrees(brief.values, p, parse);
    }
    forall e | e in fixed && e.field.leaf == "weight"
      ensures e.field in brief.values && e.value == brief.values[e.field] && e.field != field
    {
      var i :| 0 <= i < |fixed| && fixed[i] == e;
      assert brief.register[i] in brief.register;
    }
  }

  lemma ReparseAgrees(brief: Brief, register: map<Path, Entry>, parent: string, parse: Parse)
    requires Within(brief.register, register)
    requires Path(parent, "weight_text") in brief.values && brief.values[Path(parent, "weight_text")].Text?
    requires forall p | p != parent :: RowAgrees(brief.values, p, parse)
    requires forall e | e in brief.register && e.field.leaf == "weight" ::
               e.field in brief.values && e.value == brief.values[e.field]
    ensures var after := Reparsed(brief, parent, parse(brief.values[Path(parent, "weight_text")].text));
            WeightsAgree(after, parse) && Within(after.register, register)
  {
    var parsed := parse(brief.values[Path(parent, "weight_text")].text);
    var after, weight := Reparsed(brief, parent, parsed), Path(parent, "weight");
    forall p ensures RowAgrees(after.values, p, parse) {
      assert p != parent ==> RowAgrees(brief.values, p, parse);
    }
    match parsed
    case None => DroppingMeans(brief.register, weight);
    case Some(found) =>
      var edit := (e: Entry) => e.(value := Number(found.0));
      SetLastWithin(brief.register, register, weight, edit);
      SetLastMeans(brief.register, weight, edit);
      forall e | e in after.register && e.field.leaf == "weight"
        ensures e.field in after.values && e.value == after.values[e.field]
      {
        var i :| 0 <= i < |after.register| && after.register[i] == e;
        assert brief.register[i] in brief.register;
      }
  }

  /** What one correction that does not raise does. */
  lemma CorrectOneMeans(brief: Brief, register: map<Path, Entry>, item: Correction, actor: string, parse: Parse)
    requires Within(brief.register, register) && WeightsAgree(brief, parse)
    requires CorrectOne(brief, register, item, actor, parse).Ok?
    ensures var after := CorrectOne(brief, register, item, actor, parse).value;
            && WeightsAgree(after, parse) && Within(after.register, register)
            && after.parents == brief.parents && after.gaps == brief.gaps
  {
    FixKeepsWeights(brief, register, item.field, item.value.value, actor, parse);
    if item.field.leaf == "weight_text" {
      var fixed := Fixed(brief, item, actor);
      assert item.field == Path(item.field.parent, "weight_text");
      ReparseAgrees(fixed, register, item.field.parent, parse);
    }
  }

  /** Whatever the corrections, a brief that is not refused states no weight its text does not. */
  lemma {:induction false} CorrectionsKeepWeights(brief: Brief, items: seq<Correction>, actor: string, parse: Parse,
                                                  n: nat)
    requires n <= |items| && Registered(brief.register) && WeightsAgree(brief, parse)
    requires CorrectTo(brief, items, actor, parse, n).Ok?
    ensures var after := CorrectTo(brief, items, actor, parse, n).value;
            && WeightsAgree(after, parse) && Within(after.register, Register(brief.register))
            && after.parents == brief.parents && after.gaps == brief.gaps
  {
    if n == 0 {
      StartWithin(brief.register);
    } else {
      CorrectionsKeepWeights(brief, items, actor, parse, n - 1);
      var before := CorrectTo(brief, items, actor, parse, n - 1).value;
      CorrectOneMeans(before, Register(brief.register), items[n - 1], actor, parse);
    }
  }

  predicate EntryStands(entries: seq<Entry>, item: Correction, actor: string) {
    forall e | e in entries && e.field == item.field ::
      e.status == Corrected && e.correctedTo == item.value && e.correctedBy == Some(actor)
  }

  /** The correction is on the brief and on its register entry. */
  predicate Stands(brief: Brief, item: Correction, actor: string) {
    && item.field in brief.values && Some(brief.values[item.field]) == item.value
    && EntryStands(brief.register, item, actor)
  }

  lemma FixStands(entries: seq<Entry>, item: Correction, actor: string)
    requires DistinctFields(entries) && item.value.Some?
    ensures EntryStands(SetLast(entries, item.field, (e: Entry) => Fix(e, item.value.value, actor)), item, actor)
  {
    SetLastMeans(entries, item.field, (e: Entry) => Fix(e, item.value.value, actor));
  }

  lemma OtherEditStands(entries: seq<Entry>, field: Path, edit: Entry -> Entry, item: Correction, actor: string)
    requires DistinctFields(entries) && EntryStands(entries, item, actor) && field != item.field
    requires forall e :: edit(e).field == e.field
    ensures EntryStands(SetLast(entries, field, edit), item, actor)
  {
    SetLastMeans(entries, field, edit);
    var after := SetLast(entries, field, edit);
    forall e | e in after && e.field == item.field
      ensures e.status == Corrected && e.correctedTo == item.value && e.correctedBy == Some(actor)
    {
      var i :| 0 <= i < |after| && after[i] == e;
      assert entries[i] in entries;
    }
  }

  lemma ReparsedStands(brief: Brief, parent: string, parsed: Option<(real, string)>, item: Correction, actor: string)
    requires DistinctFields(brief.register) && Stands(brief, item, actor)
    requires item.field.leaf != "weight" && item.field.leaf != "weight_basis"
    ensures Stands(Reparsed(brief, parent, parsed), item, actor)
  {
    match parsed
    case None => DroppingMeans(brief.register, Path(parent, "weight"));
    case Some(found) =>
      OtherEditStands(brief.register, Path(parent, "weight"), (e: Entry) => e.(value := Number(found.0)), item, actor);
  }

  lemma StandsAfterFix(brief: Brief, register: map<Path, Entry>, item: Correction, actor: string, parse: Parse,
                       held: Correction)
    requires Within(brief.register, register)
    requires CorrectOne(brief, register, item, actor, parse).Ok?
    requires held.field in register && !register[held.field].code
    requires Stands(Fixed(brief, item, actor), held, actor)
    ensures Stands(CorrectOne(brief, register, item, actor, parse).value, held, actor)
  {
    SetLastWithin(brief.register, register, item.field, (e: Entry) => Fix(e, item.value.value, actor));
    if item.field.leaf == "weight_text" {
      ReparsedStands(Fixed(brief, item, actor), item.field.parent, parse(item.value.value.text), held, actor);
    }
  }

  lemma CorrectOneStands(brief: Brief, register: map<Path, Entry>, item: Correction, actor: string, parse: Parse)
    requires Within(brief.register, register)
    requires CorrectOne(brief, register, item, actor, parse).Ok?
    ensures Stands(CorrectOne(brief, register, item, actor, parse).value, item, actor)
  {
    FixStands(brief.register, item, actor);
    StandsAfterFix(brief, register, item, actor, parse, item);
  }

  lemma OtherStillStands(brief: Brief, register: map<Path, Entry>, item: Correction, actor: string, parse: Parse,
                         earlier: Correction)
    requires Within(brief.register, register)
    requires CorrectOne(brief, register, item, actor, parse).Ok?
    requires earlier.field in register && !register[earlier.field].code
    requires earlier.field != item.field && Stands(brief, earlier, actor)
    ensures Stands(CorrectOne(brief, register, item, actor, parse).value, earlier, actor)
  {
    OtherEditStands(brief.register, item.field, (e: Entry) => Fix(e, item.value.value, actor), earlier, actor);
    StandsAfterFix(brief, register, item, actor, parse, earlier);
  }

  /** Never dropped: an accepted correction stands on the brief until a later one of its field. */
  lemma {:induction false} CorrectionsStand(brief: Brief, items: seq<Correction>, actor: string, parse: Parse, k: nat,
                                            n: nat)
    requires k < n <= |items| && Registered(brief.register) && WeightsAgree(brief, parse)
    requires CorrectTo(brief, items, actor, parse, n).Ok?
    requires forall j | k < j < n :: items[j].field != items[k].field
    ensures Stands(CorrectTo(brief, items, actor, parse, n).value, items[k], actor)
  {
    var before := CorrectTo(brief, items, actor, parse, n - 1).value;
    var register := Register(brief.register);
    CorrectionsKeepWeights(brief, items, actor, parse, n - 1);
    if k == n - 1 {
      CorrectOneStands(before, register, items[k], actor, parse);
    } else {
      CorrectionsStand(brief, items, actor, parse, k, n - 1);
      Uncoded(brief, items, actor, parse, k, n - 1);
      OtherStillStands(before, register, items[n - 1], actor, parse, items[k]);
    }
  }

  lemma {:induction false} Uncoded(brief: Brief, items: seq<Correction>, actor: string, parse: Parse, k: nat, n: nat)
    requires k < n <= |items| && CorrectTo(brief, items, actor, parse, n).Ok?
    ensures var register := Register(brief.register);
            items[k].field in register && !register[items[k].field].code
  {
    if k < n - 1 { Uncoded(brief, items, actor, parse, k, n - 1); }
  }

  /** A deadline's date as parsed from its text. */
  predicate DateAgrees(values: map<Path, Value>, parent: string, parseDate: string -> Option<string>) {
    var text, date := Path(parent, "date_text"), Path(parent, "date");
    text in values && values[text].Text? ==>
      match parseDate(values[text].text)
      case None => date !in values
      case Some(found) => date in values && values[date] == Text(found)
  }

  /** The parse follows the text for weights only: after a corrected deadline text the date is
      right exactly when the new text parses as the old one did. */
  lemma CorrectedDeadlineDate(brief: Brief, register: map<Path, Entry>, item: Correction, actor: string,
                              parse: Parse, parseDate: string -> Option<string>)
    requires item.field.leaf == "date_text" && DateAgrees(brief.values, item.field.parent, parseDate)
    requires item.field in brief.values && brief.values[item.field].Text?
    requires CorrectOne(brief, register, item, actor, parse).Ok? && item.value.value.Text?
    ensures DateAgrees(CorrectOne(brief, register, item, actor, parse).value.values, item.field.parent, parseDate)
       <==> parseDate(item.value.value.text) == parseDate(brief.values[item.field].text)
  {
    assert item.field == Path(item.field.parent, "date_text");
  }

  // ------------------------------------------------------------- gap actions

  predicate Blank(text: string) { forall c | c in text :: c == ' ' || '\t' <= c <= '\r' }

  function FindGap(gaps: seq<Gap>, id: string): (g: Option<Gap>)
    ensures g.Some? ==> g.value in gaps && g.value.id == id
  {
    if gaps == [] then None
    else if gaps[|gaps| - 1].id == id then Some(gaps[|gaps| - 1])
    else FindGap(gaps[..|gaps| - 1], id)
  }

  function SetGap(gaps: seq<Gap>, gap: Gap): seq<Gap> {
    if gaps == [] then []
    else
      var front, last := gaps[..|gaps| - 1], gaps[|gaps| - 1];
      if last.id == gap.id then front + [gap] else SetGap(front, gap) + [last]
  }

  function OpenGap(gaps: seq<Gap>, id: string): Result<Gap, string> {
    var gap := FindGap(gaps, id);
    if gap.None? then Raised("unknown intake gap")
    else if gap.value.status != Open then Raised("only an open gap takes an action")
    else Ok(gap.value)
  }

  function AnswerOne(gaps: seq<Gap>, item: Answer, actor: string, at: string): Result<seq<Gap>, string> {
    match OpenGap(gaps, item.gap)
    case Raised(why) => Raised(why)
    case Ok(gap) =>
      if Blank(item.text) then Raised("an answer needs text")
      else Ok(SetGap(gaps,
          gap.(status := Answered, answer := Some(item.text), answeredBy := Some(actor), answeredAt := Some(at))))
  }

  function SkipOne(gaps: seq<Gap>, id: string): Result<seq<Gap>, string> {
    match OpenGap(gaps, id)
    case Raised(why) => Raised(why)
    case Ok(gap) => Ok(SetGap(gaps, gap.(status := Skipped)))
  }

  /** One action after another: the answers, then the skips. */
  function ActTo(gaps: seq<Gap>, answers: seq<Answer>, skips: seq<string>, actor: string, at: string, n: nat)
    : Result<seq<Gap>, string>
    requires n <= |answers| + |skips|
  {
    if n == 0 then Ok(gaps)
    else
      match ActTo(gaps, answers, skips, actor, at, n - 1)
      case Raised(why) => Raised(why)
      case Ok(before) =>
        if n <= |answers| then AnswerOne(before, answers[n - 1], actor, at)
        else SkipOne(before, skips[n - 1 - |answers|])
  }

  function LinesTo(answers: seq<Answer>, skips: seq<string>, at: string, n: nat): (lines: seq<GapLine>)
    requires n <= |answers| + |skips|
    ensures |lines| == n
  {
    if n == 0 then []
    else if n <= |answers|
    then LinesTo(answers, skips, at, n - 1) + [GapLine(answers[n - 1].gap, Some(at), "answered")]
    else LinesTo(answers, skips, at, n - 1) + [GapLine(skips[n - 1 - |answers|], None, "descoped")]
  }

  lemma {:induction false} ActStops(gaps: seq<Gap>, answers: seq<Answer>, skips: seq<string>, actor: string,
                                    at: string, k: nat, n: nat)
    requires k <= n <= |answers| + |skips|
    requires ActTo(gaps, answers, skips, actor, at, k).Raised?
    ensures ActTo(gaps, answers, skips, actor, at, n) == ActTo(gaps, answers, skips, actor, at, k)
  {
    if k < n { ActStops(gaps, answers, skips, actor, at, k, n - 1); }
  }

  method ApplyAnswers(given: seq<Gap>, answers: seq<Answer>, skips: seq<string>, actor: string, at: string)
    returns (r: Result<seq<Gap>, string>, lines: seq<GapLine>)
    ensures r == ActTo(given, answers, skips, actor, at, |answers|)
    ensures r.Ok? ==> lines == LinesTo(answers, skips, at, |answers|)
  {
    var gaps := given;
    lines := [];
    for k := 0 to |answers|
      invariant ActTo(given, answers, skips, actor, at, k) == Ok(gaps)
      invariant lines == LinesTo(answers, skips, at, k)
    {
      var one := AnswerOne(gaps, answers[k], actor, at);
      if one.Raised? {
        ActStops(given, answers, skips, actor, at, k + 1, |answers|);
        return one, [];
      }
      gaps := one.value;
      lines := lines + [GapLine(answers[k].gap, Some(at), "answered")];
    }
    return Ok(gaps), lines;
  }

  /** Where the loop over the skips stands after k of them. */
  predicate SkippedTo(given: seq<Gap>, answers: seq<Answer>, skips: seq<string>, actor: string, at: string,
                      k: nat, gaps: seq<Gap>, lines: seq<GapLine>)
    requires k <= |skips|
  {
    && ActTo(given, answers, skips, actor, at, |answers| + k) == Ok(gaps)
    && LinesTo(answers, skips, at, |answers|) + lines == LinesTo(answers, skips, at, |answers| + k)
  }

  lemma SkipTurn(given: seq<Gap>, answers: seq<Answer>, skips: seq<string>, actor: string, at: string,
                 k: nat, gaps: seq<Gap>, lines: seq<GapLine>)
    requires k < |skips| && SkippedTo(given, answers, skips, actor, at, k, gaps, lines)
    ensures var one := SkipOne(gaps, skips[k]);
            && (one.Ok? ==> SkippedTo(given, answers, skips, actor, at, k + 1, one.value,
                                      lines + [GapLine(skips[k], None, "descoped")]))
            && (one.Raised? ==> ActTo(given, answers, skips, actor, at, |answers| + |skips|) == one)
  {
    assert ActTo(given, answers, skips, actor, at, |answers| + k + 1) == SkipOne(gaps, skips[k]);
    if SkipOne(gaps, skips[k]).Raised? {
      ActStops(given, answers, skips, actor, at, |answers| + k + 1, |answers| + |skips|);
    } else {
      Assoc(LinesTo(answers, skips, at, |answers|), lines, [GapLine(skips[k], None, "descoped")]);
    }
  }

  /** The skips, after the answers left `begun`. */
  method ApplySkips(given: seq<Gap>, answers: seq<Answer>, skips: seq<string>, actor: string, at: string,
                    begun: seq<Gap>)
    returns (r: Result<seq<Gap>, string>, lines: seq<GapLine>)
    requires ActTo(given, answers, skips, actor, at, |answers|) == Ok(begun)
    ensures r == ActTo(given, answers, skips, actor, at, |answers| + |skips|)
    ensures r.Ok? ==> LinesTo(answers, skips, at, |answers|) + lines == LinesTo(answers, skips, at, |answers| + |skips|)
  {
    var gaps := begun;
    lines := [];
    for k := 0 to |skips|
      invariant SkippedTo(given, answers, skips, actor, at, k, gaps, lines)
    {
      SkipTurn(given, answers, skips, actor, at, k, gaps, lines);
      var one := SkipOne(gaps, skips[k]);
      if one.Raised? { return one, []; }
      gaps, lines := one.value, lines + [GapLine(skips[k], None, "descoped")];
    }
    return Ok(gaps), lines;
  }

  method ApplyGapActions(given: seq<Gap>, answers: seq<Answer>, skips: seq<string>, actor: string, at: string)
    returns (r: Result<seq<Gap>, string>, lines: seq<GapLine>)
    ensures r == ActTo(given, answers, skips, actor, at, |answers| + |skips|)
    ensures r.Ok? ==> lines == LinesTo(answers, skips, at, |answers| + |skips|)
  {
    r, lines := ApplyAnswers(given, answers, skips, actor, at);
    if r.Raised? {
      ActStops(given, answers, skips, actor, at, |answers|, |answers| + |skips|);
      return;
    }
    var more;
    r, more := ApplySkips(given, answers, skips, actor, at, r.value);
    lines := lines + more;
  }

  lemma {:induction false} SetGapFinds(gaps: seq<Gap>, gap: Gap, id: string)
    ensures FindGap(SetGap(gaps, gap), id)
         == if id == gap.id && FindGap(gaps, id).Some? then Some(gap) else FindGap(gaps, id)
  {
    if gaps != [] {
      var front, last := gaps[..|gaps| - 1], gaps[|gaps| - 1];
      var set1 := SetGap(gaps, gap);
      assert set1[..|set1| - 1] == if last.id == gap.id then front else SetGap(front, gap);
      if last.id != gap.id { SetGapFinds(front, gap, id); }
    }
  }

  function Acted(gap: Gap, answers: seq<Answer>, skips: seq<string>, k: nat, actor: string, at: string): Gap
    requires k < |answers| + |skips|
  {
    if k < |answers|
    then gap.(status := Answered, answer := Some(answers[k].text), answeredBy := Some(actor), answeredAt := Some(at))
    else gap.(status := Skipped)
  }

  function ActedOn(answers: seq<Answer>, skips: seq<string>, k: nat): string
    requires k < |answers| + |skips|
  {
    if k < |answers| then answers[k].gap else skips[k - |answers|]
  }

  lemma ActStep(gaps: seq<Gap>, answers: seq<Answer>, skips: seq<string>, actor: string, at: string, n: nat, id: string)
    requires 0 < n <= |answers| + |skips| && ActTo(gaps, answers, skips, actor, at, n).Ok?
    ensures ActTo(gaps, answers, skips, actor, at, n - 1).Ok?
    ensures var before, after := ActTo(gaps, answers, skips, actor, at, n - 1).value,
        ActTo(gaps, answers, skips, actor, at, n).value;
            var gap := FindGap(before, ActedOn(answers, skips, n - 1));
            && gap.Some? && gap.value.status == Open
            && FindGap(after, id) == if id == ActedOn(answers, skips, n - 1)
                                     then Some(Acted(gap.value, answers, skips, n - 1, actor, at))
                                         else FindGap(before, id)
  {
    var before := ActTo(gaps, answers, skips, actor, at, n - 1).value;
    var gap := FindGap(before, ActedOn(answers, skips, n - 1));
    SetGapFinds(before, Acted(gap.value, answers, skips, n - 1, actor, at), id);
  }

  lemma {:induction false} Untouched(gaps: seq<Gap>, answers: seq<Answer>, skips: seq<string>, actor: string,
                                     at: string, n: nat, id: string)
    requires n <= |answers| + |skips| && ActTo(gaps, answers, skips, actor, at, n).Ok?
    requires forall k | 0 <= k < n :: ActedOn(answers, skips, k) != id
    ensures FindGap(ActTo(gaps, answers, skips, actor, at, n).value, id) == FindGap(gaps, id)
  {
    if n > 0 {
      ActStep(gaps, answers, skips, actor, at, n, id);
      Untouched(gaps, answers, skips, actor, at, n - 1, id);
    }
  }

  lemma {:induction false} ClosedStays(gaps: seq<Gap>, answers: seq<Answer>, skips: seq<string>, actor: string,
                                       at: string, k: nat, n: nat)
    requires k < n <= |answers| + |skips| && ActTo(gaps, answers, skips, actor, at, n).Ok?
    ensures ActTo(gaps, answers, skips, actor, at, k).Ok?
    ensures var was := FindGap(ActTo(gaps, answers, skips, actor, at, k).value, ActedOn(answers, skips, k));
            && was.Some? && was.value.status == Open
            && FindGap(ActTo(gaps, answers, skips, actor, at, n).value, ActedOn(answers, skips, k))
                 == Some(Acted(was.value, answers, skips, k, actor, at))
  {
    var id := ActedOn(answers, skips, k);
    ActStep(gaps, answers, skips, actor, at, n, id);
    if k < n - 1 {
      ClosedStays(gaps, answers, skips, actor, at, k, n - 1);
      assert ActedOn(answers, skips, n - 1) != id;
    }
  }

  lemma NotReacted(gaps: seq<Gap>, answers: seq<Answer>, skips: seq<string>, actor: string, at: string, j: nat, k: nat)
    requires j < k < |answers| + |skips| && ActTo(gaps, answers, skips, actor, at, k + 1).Ok?
    ensures ActedOn(answers, skips, j) != ActedOn(answers, skips, k)
  {
    ActStep(gaps, answers, skips, actor, at, k + 1, ActedOn(answers, skips, k));
    ClosedStays(gaps, answers, skips, actor, at, j, k);
  }

  /** Two accepted actions never name one gap. */
  lemma ActionsDistinct(gaps: seq<Gap>, answers: seq<Answer>, skips: seq<string>, actor: string, at: string, j: nat,
                        k: nat)
    requires j < k < |answers| + |skips|
    requires ActTo(gaps, answers, skips, actor, at, |answers| + |skips|).Ok?
    ensures ActedOn(answers, skips, j) != ActedOn(answers, skips, k)
  {
    if k + 1 < |answers| + |skips| { ClosedStays(gaps, answers, skips, actor, at, k + 1, |answers| + |skips|); }
    NotReacted(gaps, answers, skips, actor, at, j, k);
  }

  /** Each accepted action names a gap that was open, and closes it as asked. */
  lemma ActionMeans(gaps: seq<Gap>, answers: seq<Answer>, skips: seq<string>, actor: string, at: string, k: nat)
    requires k < |answers| + |skips|
    requires ActTo(gaps, answers, skips, actor, at, |answers| + |skips|).Ok?
    ensures var id := ActedOn(answers, skips, k);
            && FindGap(gaps, id).Some? && FindGap(gaps, id).value.status == Open
            && FindGap(ActTo(gaps, answers, skips, actor, at, |answers| + |skips|).value, id)
                 == Some(Acted(FindGap(gaps, id).value, answers, skips, k, actor, at))
  {
    ClosedStays(gaps, answers, skips, actor, at, k, |answers| + |skips|);
    forall j | 0 <= j < k ensures ActedOn(answers, skips, j) != ActedOn(answers, skips, k) {
      ActionsDistinct(gaps, answers, skips, actor, at, j, k);
    }
    Untouched(gaps, answers, skips, actor, at, k, ActedOn(answers, skips, k));
  }
}
