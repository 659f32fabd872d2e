/**
  Filling the firm's template in place (engine/assembly/template_fill.py): surgery on a
  document body that builds a change set, and the replay of that set over the source.
 */
module TemplateFill {
  import opened Wrappers
  import opened FillRendering

  /** A body child; Other is anything that is neither a paragraph nor a table. */
  datatype Elem = Para(text: string, style: string) | Tbl(rows: Rows, columns: nat) | Other(tag: string)

  /** What the verifier compares. */
  datatype Item = P(text: string, style: string) | T(rows: Rows)

  datatype Action = Remove | Replace(parts: seq<string>) | Cells(rows: Rows) | PText(text: string)

  function ItemsOf(elem: Elem): seq<Item> {
    match elem
    case Para(text, style) => [P(text, style)]
    case Tbl(rows, _) => [T(rows)]
    case Other(_) => []
  }

  /** `_body_stream`. */
  function Stream(body: seq<Elem>): seq<Item> {
    if body == [] then [] else Stream(body[..|body| - 1]) + ItemsOf(body[|body| - 1])
  }

  // ---------------------------------------------------------------- set_table

  function Blank(width: nat): seq<string> {
    seq(width, _ => "")
  }

  /** The row a target row is written over: the template's, or one added with blank cells. */
  function Base(rows: Rows, columns: nat, r: nat): seq<string> {
    if r < |rows| then rows[r] else Blank(columns)
  }

  function SetRows(rows: Rows, columns: nat, target: Rows): Result<Rows, string> {
    if exists r | 0 <= r < |target| :: |target[r]| > |Base(rows, columns, r)| then Raised("cell index out of range")
    else Ok(seq(|target|, r requires 0 <= r < |target| => target[r] + Base(rows, columns, r)[|target[r]|..]))
  }

  /** Every target row is as wide as the row it is written over. */
  predicate Fits(rows: Rows, columns: nat, target: Rows) {
    forall r | 0 <= r < |target| :: |target[r]| == |Base(rows, columns, r)|
  }

  /** The table reads back exactly the target when, and only when, the widths fit. */
  lemma ReadsBackIff(rows: Rows, columns: nat, target: Rows)
    ensures SetRows(rows, columns, target) == Ok(target) <==> Fits(rows, columns, target)
  {
    if Fits(rows, columns, target) {
      forall r | 0 <= r < |target| ensures target[r] + Base(rows, columns, r)[|target[r]|..] == target[r] {
      }
      assert SetRows(rows, columns, target).value == target;
    } else if SetRows(rows, columns, target).Ok? {
      var r :| 0 <= r < |target| && |target[r]| != |Base(rows, columns, r)|;
      assert |SetRows(rows, columns, target).value[r]| != |target[r]|;
    }
  }

  class Table {
    var rows: Rows
    const columns: nat

    constructor (rows: Rows, columns: nat)
      ensures this.rows == rows && this.columns == columns
    {
      this.rows := rows;
      this.columns := columns;
    }

    /** Rows past the template's are added, cells rewritten in place, the surplus dropped. */
    method SetTable(target: Rows) returns (r: Result<(), string>)
      modifies this
      ensures match SetRows(old(rows), columns, target)
              case Ok(done) => r.Ok? && rows == done
              case Raised(why) => r == Raised(why)
    {
      ghost var before := rows;
      while |rows| < |target|
        invariant |before| <= |rows|
        invariant |rows| == |before| || |rows| <= |target|
        invariant forall r | 0 <= r < |rows| :: rows[r] == Base(before, columns, r)
      {
        rows := rows + [Blank(columns)];
      }
      for r := 0 to |target|
        invariant |target| <= |rows| && |before| <= |rows|
        invariant forall i | 0 <= i < r ::
                    |target[i]| <= |Base(before, columns, i)|
                    && rows[i] == target[i] + Base(before, columns, i)[|target[i]|..]
        invariant forall i | r <= i < |rows| :: rows[i] == Base(before, columns, i)
      {
        ghost var base := Base(before, columns, r);
        for c := 0 to |target[r]|
          invariant |target| <= |rows| && |before| <= |rows|
          invariant forall i | 0 <= i < r ::
                      |target[i]| <= |Base(before, columns, i)|
                      && rows[i] == target[i] + Base(before, columns, i)[|target[i]|..]
          invariant forall i | r < i < |rows| :: rows[i] == Base(before, columns, i)
          invariant c <= |base| && rows[r] == target[r][..c] + base[c..]
        {
          if c >= |rows[r]| { return Raised("cell index out of range"); }
          if rows[r][c] != target[r][c] {
            rows := rows[r := rows[r][c := target[r][c]]];
          }
        }
      }
      rows := rows[..|target|];
      return Ok(());
    }
  }

  // ------------------------------------------------------------- text helpers

  predicate IsSpace(c: char) { c == ' ' || '\t' <= c <= '\r' }

  function StripLeft(s: string): string {
    if s != "" && IsSpace(s[0]) then StripLeft(s[1..]) else s
  }

  function Strip(s: string): string {
    var t := StripLeft(s);
    StripRight(t)
  }

  function StripRight(s: string): string {
    if s != "" && IsSpace(s[|s| - 1]) then StripRight(s[..|s| - 1]) else s
  }

  function Digits(s: string): (n: nat)
    ensures n <= |s|
  {
    if s == "" || !('0' <= s[0] <= '9') then 0 else 1 + Digits(s[1..])
  }

  /** `^(\d+)\.\s+` matches. */
  predicate Numbered(s: string) {
    var n := Digits(s);
    0 < n && n + 1 < |s| && s[n] == '.' && IsSpace(s[n + 1])
  }

  function IndexOf(s: string, c: char): (i: nat)
    ensures i <= |s|
  {
    if s == "" || s[0] == c then 0 else 1 + IndexOf(s[1..], c)
  }

  /** The first bracketed span, `\[[^\]]*\]`, replaced once. */
  function SubBracket(text: string, value: string): string {
    var a := IndexOf(text, '[');
    var b := IndexOf(text[a..], ']');
    if a == |text| || b == |text| - a then text else text[..a] + value + text[a + b + 1..]
  }

  // -------------------------------------------------------------- the decision

  /** What the fill is given.  `filled`: anchor to delivered paragraphs; `questions`: anchor and
      guidance text of the prose slots, in order; `hand`: table index to hand slot; `inline`:
      paragraph text to value; `guidance`: texts of the boxes above hand-completed tables. */
  datatype Context = Context(
    filled: map<string, seq<string>>,
    questions: seq<(string, string)>,
    hand: map<nat, Slot>,
    values: map<string, Value>,
    inline: map<string, string>,
    guidance: set<string>,
    buyer: bool)

  datatype State = State(
    inFront: bool,
    pending: bool,
    tables: nat,
    filled: map<string, seq<string>>,
    used: seq<string>)

  function Start(ctx: Context): State {
    State(true, false, 0, ctx.filled, [])
  }

  datatype Decision = Decision(next: State, action: Option<Action>)

  /** The first filled anchor whose guidance text this is. */
  function MatchOf(questions: seq<(string, string)>, filled: map<string, seq<string>>, text: string)
    : (a: Option<string>)
    ensures a.Some? ==> a.value in filled && (a.value, text) in questions
  {
    if questions == [] then None
    else if questions[0].1 == text && questions[0].0 in filled then Some(questions[0].0)
    else MatchOf(questions[1..], filled, text)
  }

  predicate StartsBody(text: string, style: string) {
    style == "Heading 1" && Numbered(Strip(text))
  }

  predicate EmptyTable(rows: Rows) { rows == [] || rows[0] == [] }

  function FirstCell(rows: Rows): string
    requires !EmptyTable(rows)
  {
    Strip(rows[0][0])
  }

  function DecidePara(ctx: Context, st: State, text: string, style: string): Decision {
    if st.inFront && !StartsBody(text, style) then Decision(st, Some(Remove))
    else
      var next := st.(inFront := false);
      if Strip(text) in ctx.inline then Decision(next, Some(PText(SubBracket(text, ctx.inline[Strip(text)]))))
      else Decision(next, None)
  }

  function DecideHand(ctx: Context, st: State, slot: Slot, rows: Rows, columns: nat): Result<Decision, string>
    requires !EmptyTable(rows)
  {
    var next := st.(pending := false);
    if slot.id !in ctx.values then Ok(Decision(next, None))
    else
      match Rendered(rows, columns, slot, ctx.values[slot.id], ctx.buyer)
      case Raised(why) => Raised(why)
      case Ok(target) => Ok(Decision(next, Some(Cells(target))))
  }

  function DecideGuidance(ctx: Context, st: State, first: string): Decision {
    match MatchOf(ctx.questions, st.filled, first)
    case None => Decision(st, if first in ctx.guidance then Some(Remove) else None)
    case Some(a) =>
      Decision(st.(filled := st.filled - {a}, used := st.used + [a], pending := true), Some(Replace(st.filled[a])))
  }

  function DecideTable(ctx: Context, st: State, rows: Rows, columns: nat): Result<Decision, string> {
    var at := st.(tables := st.tables + 1);
    if EmptyTable(rows) then Ok(Decision(at, None))
    else if st.tables in ctx.hand then DecideHand(ctx, at, ctx.hand[st.tables], rows, columns)
    else if st.inFront then Ok(Decision(at, Some(Remove)))
    else if st.pending && FirstCell(rows) != "" && FirstCell(rows)[0] == '[' then
      Ok(Decision(at.(pending := false), Some(Remove)))
    else Ok(DecideGuidance(ctx, at.(pending := false), FirstCell(rows)))
  }

  function Decide(ctx: Context, st: State, elem: Elem): Result<Decision, string>
    requires !elem.Other?
  {
    match elem
    case Para(text, style) => Ok(DecidePara(ctx, st, text, style))
    case Tbl(rows, columns) => DecideTable(ctx, st, rows, columns)
  }

  // ---------------------------------------------------------------- the surgery

  const NORMAL := "Normal"

  function Paragraphs(parts: seq<string>): seq<Elem> {
    seq(|parts|, k requires 0 <= k < |parts| => Para(parts[k], NORMAL))
  }

  /** What stands in the element's place afterwards. */
  function Operate(elem: Elem, action: Option<Action>): Result<seq<Elem>, string> {
    match action
    case None => Ok([elem])
    case Some(Remove) => Ok([])
    case Some(Replace(parts)) => Ok(Paragraphs(parts))
    case Some(PText(text)) => Ok(if elem.Para? then [Para(text, elem.style)] else [elem])
    case Some(Cells(target)) =>
      if !elem.Tbl? then Ok([elem])
      else
        match SetRows(elem.rows, elem.columns, target)
        case Raised(why) => Raised(why)
        case Ok(rows) => Ok([Tbl(rows, elem.columns)])
  }

  datatype Progress = Progress(st: State, out: seq<Elem>, acts: seq<Option<Action>>)

  /** One element: decided, operated on, and recorded under its stream position. */
  function StepOver(ctx: Context, p: Progress, elem: Elem): Result<Progress, string> {
    if elem.Other? then Ok(Progress(p.st, p.out + [elem], p.acts))
    else
      match Decide(ctx, p.st, elem)
      case Raised(why) => Raised(why)
      case Ok(d) =>
        match Operate(elem, d.action)
        case Raised(why) => Raised(why)
        case Ok(elems) => Ok(Progress(d.next, p.out + elems, p.acts + [d.action]))
  }

  function FillTo(ctx: Context, body: seq<Elem>, n: nat): Result<Progress, string>
    requires n <= |body|
  {
    if n == 0 then Ok(Progress(Start(ctx), [], []))
    else
      match FillTo(ctx, body, n - 1)
      case Raised(why) => Raised(why)
      case Ok(p) => StepOver(ctx, p, body[n - 1])
  }

  /** The whole fill: refused when a filled anchor's guidance box was not met. */
  function Fill(ctx: Context, body: seq<Elem>): Result<Progress, string> {
    match FillTo(ctx, body, |body|)
    case Raised(why) => Raised(why)
    case Ok(p) => if p.st.filled != map[] then Raised("guidance box not located") else Ok(p)
  }

  /** A change set keyed by stream position. */
  ghost predicate Records(intended: map<nat, Action>, acts: seq<Option<Action>>) {
    forall k: nat :: (k in intended <==> k < |acts| && acts[k].Some?)
                  && (k in intended ==> Some(intended[k]) == acts[k])
  }

  /** One more child, after a walk that has not raised. */
  lemma FillTurn(ctx: Context, body: seq<Elem>, n: nat, p: Progress)
    requires n < |body| && FillTo(ctx, body, n) == Ok(p)
    ensures FillTo(ctx, body, n + 1) == StepOver(ctx, p, body[n])
    ensures StepOver(ctx, p, body[n]).Raised? ==> FillTo(ctx, body, |body|) == StepOver(ctx, p, body[n])
  {
    FillStops(ctx, body, n + 1, |body|);
  }

  class Document {
    var body: seq<Elem>

    constructor (body: seq<Elem>)
      ensures this.body == body
    {
      this.body := body;
    }

    /** The children present at the start are visited in order while `body` changes under the
        walk: `at` is where the current child now stands. */
    method FillDocument(ctx: Context) returns (r: Result<map<nat, Action>, string>)
      modifies this
      ensures match Fill(ctx, old(body))
              case Raised(why) => r == Raised(why)
              case Ok(p) => r.Ok? && body == p.out && Records(r.value, p.acts)
    {
      ghost var acts: seq<Option<Action>> := [];
      var children := body;
      var intended: map<nat, Action> := map[];
      var st := Start(ctx);
      var k := 0;
      var at := 0;
      for n := 0 to |children|
        invariant 0 <= at <= |body|
        invariant FillTo(ctx, children, n) == Ok(Progress(st, body[..at], acts))
        invariant body[at..] == children[n..]
        invariant k == |acts| && Records(intended, acts)
      {
        var elem := children[n];
        FillTurn(ctx, children, n, Progress(st, body[..at], acts));
        assert body[at] == children[n..][0];
        if elem.Other? {
          assert body[..at + 1] == body[..at] + [elem];
          at := at + 1;
          continue;
        }
        var d := Decide(ctx, st, elem);
        if d.Raised? { return Raised(d.why); }
        var elems := OperateOn(elem, d.value.action);
        if elems.Raised? { return Raised(elems.why); }
        ghost var before := body[..at];
        assert body[at + 1..] == children[n..][1..];
        body := body[..at] + elems.value + body[at + 1..];
        at := at + |elems.value|;
        assert body[..at] == before + elems.value;
        if d.value.action.Some? {
          intended := intended[k := d.value.action.value];
        }
        acts := acts + [d.value.action];
        st := d.value.next;
        k := k + 1;
      }
      assert body[..at] == body;
      if st.filled != map[] { return Raised("guidance box not located"); }
      return Ok(intended);
    }
  }

  /** A table is rewritten in place, cell by cell. */
  method OperateOn(elem: Elem, action: Option<Action>) returns (r: Result<seq<Elem>, string>)
    ensures r == Operate(elem, action)
  {
    if action.Some? && action.value.Cells? && elem.Tbl? {
      var table := new Table(elem.rows, elem.columns);
      var set_ := table.SetTable(action.value.rows);
      if set_.Raised? { return Raised(set_.why); }
      return Ok([Tbl(table.rows, elem.columns)]);
    }
    return Operate(elem, action);
  }

  lemma {:induction false} FillStops(ctx: Context, body: seq<Elem>, k: nat, n: nat)
    requires k <= n <= |body|
    ensures FillTo(ctx, body, k).Raised? ==> FillTo(ctx, body, n) == FillTo(ctx, body, k)
  {
    if k < n { FillStops(ctx, body, k, n - 1); }
  }
}
