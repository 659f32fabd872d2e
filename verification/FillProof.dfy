/**
  The replay of a change set, and why the surgery always passes it
  (engine/assembly/template_fill.py, `_assert_fill_roundtrip`).
 */
module FillProof {
  import opened Wrappers
  import opened FillRendering
  import opened TemplateFill

  // ---------------------------------------------------------------- the replay

  function Delivered(parts: seq<string>): seq<Item> {
    seq(|parts|, k requires 0 <= k < |parts| => P(parts[k], NORMAL))
  }

  function ReplayItem(item: Item, action: Option<Action>): seq<Item> {
    match action
    case None => [item]
    case Some(Remove) => []
    case Some(Replace(parts)) => Delivered(parts)
    case Some(Cells(rows)) => [T(rows)]
    case Some(PText(text)) => if item.P? then [P(text, item.style)] else [item]
  }

  /** The source stream with exactly the recorded changes made. */
  function Replay(items: seq<Item>, acts: seq<Option<Action>>): seq<Item>
    requires |items| == |acts|
  {
    if items == [] then []
    else
      Replay(items[..|items| - 1], acts[..|acts| - 1]) + ReplayItem(items[|items| - 1], acts[|acts| - 1])
  }

  /** `_assert_fill_roundtrip`: true when it returns, false when it raises. */
  method AssertFillRoundtrip(source: seq<Elem>, output: seq<Elem>, intended: map<nat, Action>,
                             ghost acts: seq<Option<Action>>)
    returns (accepted: bool)
    requires |acts| == |Stream(source)| && Records(intended, acts)
    ensures accepted <==> Stream(output) == Replay(Stream(source), acts)
  {
    var items := Stream(source);
    var expected: seq<Item> := [];
    for k := 0 to |items|
      invariant expected == Replay(items[..k], acts[..k])
    {
      var action := if k in intended then Some(intended[k]) else None;
      ReplayNext(items, acts, k);
      expected := expected + ReplayItem(items[k], action);
    }
    assert items[..|items|] == items && acts[..|acts|] == acts;
    return Stream(output) == expected;
  }

  lemma ReplayNext(items: seq<Item>, acts: seq<Option<Action>>, k: nat)
    requires |items| == |acts| && k < |items|
    ensures Replay(items[..k + 1], acts[..k + 1]) == Replay(items[..k], acts[..k]) + ReplayItem(items[k], acts[k])
  {
    assert items[..k + 1][..k] == items[..k] && acts[..k + 1][..k] == acts[..k];
  }

  // ------------------------------------------------------- surgery and replay

  /** The children the stream shows. */
  function Solid(body: seq<Elem>): seq<Elem> {
    if body == [] then []
    else if body[|body| - 1].Other? then Solid(body[..|body| - 1])
    else Solid(body[..|body| - 1]) + [body[|body| - 1]]
  }

  function ItemOf(elem: Elem): Item
    requires !elem.Other?
  {
    ItemsOf(elem)[0]
  }

  /** A table rewrite reads back what was recorded only when the widths fit. */
  predicate FitAt(elem: Elem, action: Option<Action>) {
    elem.Tbl? && action.Some? && action.value.Cells? ==> Fits(elem.rows, elem.columns, action.value.rows)
  }

  lemma {:induction false} StreamAppend(a: seq<Elem>, b: seq<Elem>)
    ensures Stream(a + b) == Stream(a) + Stream(b)
  {
    if b == [] {
      assert a + b == a;
    } else {
      var init, last := b[..|b| - 1], b[|b| - 1];
      StreamAppend(a, init);
      assert (a + b)[..|a + b| - 1] == a + init && (a + b)[|a + b| - 1] == last;
      Assoc(Stream(a), Stream(init), ItemsOf(last));
    }
  }

  lemma {:induction false} StreamOfParagraphs(parts: seq<string>)
    ensures Stream(Paragraphs(parts)) == Delivered(parts)
  {
    if parts != [] {
      var init := parts[..|parts| - 1];
      StreamOfParagraphs(init);
      assert Paragraphs(parts)[..|parts| - 1] == Paragraphs(init);
      assert Delivered(parts) == Delivered(init) + [P(parts[|parts| - 1], NORMAL)];
    }
  }

  predicate ActsOnKind(elem: Elem, action: Option<Action>) {
    action.Some? ==>
      (action.value.Cells? ==> elem.Tbl?) && (action.value.PText? ==> elem.Para?)
  }

  lemma StreamOfOne(elem: Elem)
    ensures Stream([elem]) == ItemsOf(elem)
  {
    assert [elem][..0] == [];
  }

  /** One element: what is put in its place shows what the replay expects, when the widths fit,
      and as many items whatever the widths. */
  lemma OperateReplays(elem: Elem, action: Option<Action>)
    requires !elem.Other? && ActsOnKind(elem, action) && Operate(elem, action).Ok?
    ensures |Stream(Operate(elem, action).value)| == |ReplayItem(ItemOf(elem), action)|
    ensures Stream(Operate(elem, action).value) == ReplayItem(ItemOf(elem), action) <==> FitAt(elem, action)
  {
    StreamOfOne(elem);
    if action.Some? && action.value.Replace? {
      StreamOfParagraphs(action.value.parts);
    } else if action.Some? && action.value.Cells? {
      ReadsBackIff(elem.rows, elem.columns, action.value.rows);
      StreamOfOne(Operate(elem, action).value[0]);
    } else if action.Some? && action.value.PText? {
      StreamOfOne(Operate(elem, action).value[0]);
    }
  }

  lemma DecisionKind(ctx: Context, st: State, elem: Elem)
    requires !elem.Other? && Decide(ctx, st, elem).Ok?
    ensures ActsOnKind(elem, Decide(ctx, st, elem).value.action)
  {
  }

  predicate AllFit(solid: seq<Elem>, acts: seq<Option<Action>>)
    requires |solid| == |acts|
  {
    forall k | 0 <= k < |acts| :: FitAt(solid[k], acts[k])
  }

  lemma SameTails<T>(a: seq<T>, b: seq<T>, x: seq<T>, y: seq<T>)
    requires |a| == |b|
    ensures a + x == b + y <==> a == b && x == y
  {
    if a + x == b + y {
      assert a == (a + x)[..|a|] && b == (b + y)[..|b|];
      assert x == (a + x)[|a|..] && y == (b + y)[|b|..];
    }
  }

  /** The output so far shows the replay of the changes so far, if and only if they fit. */
  predicate Agree(p: Progress, source: seq<Elem>) {
    && |p.acts| == |Stream(source)| == |Solid(source)|
    && |Stream(p.out)| == |Replay(Stream(source), p.acts)|
    && (Stream(p.out) == Replay(Stream(source), p.acts) <==> AllFit(Solid(source), p.acts))
  }

  /** Surgery and replay agree, through every shift of position, exactly when every table
      rewrite fits its table. */
  lemma {:induction false} WalkAgrees(ctx: Context, body: seq<Elem>, n: nat)
    requires n <= |body| && FillTo(ctx, body, n).Ok?
    ensures Agree(FillTo(ctx, body, n).value, body[..n])
  {
    if n == 0 {
      NothingAgrees(ctx);
      assert body[..0] == [];
    } else {
      FillStep(ctx, body, n);
      WalkAgrees(ctx, body, n - 1);
      assert body[..n] == body[..n - 1] + [body[n - 1]];
      StepReplays(ctx, FillTo(ctx, body, n - 1).value, body[..n - 1], body[n - 1], body[..n]);
    }
  }

  lemma FillStep(ctx: Context, body: seq<Elem>, n: nat)
    requires 0 < n <= |body| && FillTo(ctx, body, n).Ok?
    ensures FillTo(ctx, body, n - 1).Ok?
    ensures FillTo(ctx, body, n) == StepOver(ctx, FillTo(ctx, body, n - 1).value, body[n - 1])
  {
  }

  lemma NothingAgrees(ctx: Context)
    ensures Agree(Progress(Start(ctx), [], []), [])
  {
  }

  lemma StreamPush(source: seq<Elem>, elem: Elem)
    ensures Stream(source + [elem]) == if elem.Other? then Stream(source) else Stream(source) + [ItemOf(elem)]
    ensures Solid(source + [elem]) == if elem.Other? then Solid(source) else Solid(source) + [elem]
  {
    assert (source + [elem])[..|source|] == source;
    assert ItemsOf(elem) == if elem.Other? then [] else [ItemOf(elem)];
  }

  lemma ReplayPush(items: seq<Item>, acts: seq<Option<Action>>, item: Item, action: Option<Action>)
    requires |items| == |acts|
    ensures Replay(items + [item], acts + [action]) == Replay(items, acts) + ReplayItem(item, action)
  {
    assert (items + [item])[..|items|] == items && (acts + [action])[..|acts|] == acts;
  }

  lemma OtherReplays(p: Progress, source: seq<Elem>, elem: Elem)
    requires elem.Other? && Agree(p, source)
    ensures Agree(Progress(p.st, p.out + [elem], p.acts), source + [elem])
  {
    StreamPush(p.out, elem);
    StreamPush(source, elem);
  }

  /** Elements that show what the replay expects exactly when the action fits keep the agreement. */
  lemma ExtendAgree(p: Progress, source: seq<Elem>, elem: Elem, action: Option<Action>, elems: seq<Elem>, st: State)
    requires !elem.Other? && Agree(p, source)
    requires |Stream(elems)| == |ReplayItem(ItemOf(elem), action)|
    requires Stream(elems) == ReplayItem(ItemOf(elem), action) <==> FitAt(elem, action)
    ensures Agree(Progress(st, p.out + elems, p.acts + [action]), source + [elem])
  {
    StreamPush(source, elem);
    StreamAppend(p.out, elems);
    ReplayPush(Stream(source), p.acts, ItemOf(elem), action);
    FitAppend(Solid(source), p.acts, elem, action);
    SameTails(Stream(p.out), Replay(Stream(source), p.acts), Stream(elems), ReplayItem(ItemOf(elem), action));
  }

  lemma StepReplays(ctx: Context, p: Progress, source: seq<Elem>, elem: Elem, longer: seq<Elem>)
    requires StepOver(ctx, p, elem).Ok? && Agree(p, source) && longer == source + [elem]
    ensures Agree(StepOver(ctx, p, elem).value, longer)
  {
    if elem.Other? {
      OtherReplays(p, source, elem);
    } else {
      var d := Decide(ctx, p.st, elem).value;
      DecisionKind(ctx, p.st, elem);
      OperateReplays(elem, d.action);
      ExtendAgree(p, source, elem, d.action, Operate(elem, d.action).value, d.next);
    }
  }

  lemma FitAppend(solid: seq<Elem>, acts: seq<Option<Action>>, elem: Elem, action: Option<Action>)
    requires |solid| == |acts|
    ensures AllFit(solid + [elem], acts + [action]) <==> AllFit(solid, acts) && FitAt(elem, action)
  {
    var s, a := solid + [elem], acts + [action];
    assert s[|solid|] == elem && a[|acts|] == action;
    assert forall k | 0 <= k < |solid| :: s[k] == solid[k] && a[k] == acts[k];
  }

  // ------------------------------------------- which templates pass the proof

  /** The tables before a child: the index the walk knows the next table under. */
  function TablesIn(body: seq<Elem>): nat {
    if body == [] then 0
    else TablesIn(body[..|body| - 1]) + (if body[|body| - 1].Tbl? then 1 else 0)
  }

  /** The template's row widths where the hand slot's rendering meets them: a record keeps its
      template's shape, but for the buyer each row moves up one; a grid repeats the header's
      width; a case block is one cell. */
  predicate Even(rows: Rows, columns: nat, slot: Slot, value: Value, buyer: bool)
    requires !EmptyTable(rows)
  {
    if slot.shape.Record? then buyer ==> forall r | 0 < r < |rows| :: |rows[r]| == |rows[r - 1]|
    else if slot.fields != [] && columns >= 2 then
      forall r | 1 <= r <= |value.entries| :: |Base(rows, columns, r)| == |rows[0]|
    else |rows[0]| == 1
  }

  lemma RecordEven(rows: Rows, columns: nat, slot: Slot, value: Value, buyer: bool)
    requires !EmptyTable(rows) && RecordOf(rows, slot, value, buyer).Ok?
    ensures Fits(rows, columns, RecordOf(rows, slot, value, buyer).value) <==>
            (buyer ==> forall r | 0 < r < |rows| :: |rows[r]| == |rows[r - 1]|)
  {
    PutFieldsMeans(rows, slot.fields, value.texts);
    var put, target := PutFields(rows, slot.fields, value.texts).value, RecordOf(rows, slot, value, buyer).value;
    if buyer {
      assert forall r | 0 <= r < |target| :: target[r] == put[r + 1];
      if Fits(rows, columns, target) {
        forall r | 0 < r < |rows| ensures |rows[r]| == |rows[r - 1]| {
          assert |target[r - 1]| == |Base(rows, columns, r - 1)|;
        }
      } else {
        var r :| 0 <= r < |target| && |target[r]| != |Base(rows, columns, r)|;
        assert |rows[r + 1]| != |rows[r]|;
      }
    }
  }

  lemma GridEven(rows: Rows, columns: nat, slot: Slot, entries: seq<seq<(string, string)>>)
    requires !EmptyTable(rows)
    ensures Fits(rows, columns, GridOf(rows, slot, entries)) <==>
            forall r | 1 <= r <= |entries| :: |Base(rows, columns, r)| == |rows[0]|
  {
    var target := GridOf(rows, slot, entries);
    assert |target| == |entries| + 1;
    assert forall r | 0 <= r < |target| :: |target[r]| == |rows[0]|;
    if Fits(rows, columns, target) {
      forall r | 1 <= r <= |entries| ensures |Base(rows, columns, r)| == |rows[0]| {
        assert |target[r]| == |Base(rows, columns, r)|;
      }
    } else {
      var r :| 0 <= r < |target| && |target[r]| != |Base(rows, columns, r)|;
      assert r != 0;
    }
  }

  lemma EvenDecides(rows: Rows, columns: nat, slot: Slot, value: Value, buyer: bool)
    requires !EmptyTable(rows) && Rendered(rows, columns, slot, value, buyer).Ok?
    ensures Fits(rows, columns, Rendered(rows, columns, slot, value, buyer).value) <==>
            Even(rows, columns, slot, value, buyer)
  {
    if slot.shape.Record? {
      RecordEven(rows, columns, slot, value, buyer);
    } else if slot.fields != [] && columns >= 2 {
      GridEven(rows, columns, slot, value.entries);
    } else {
      var target := Rendered(rows, columns, slot, value, buyer).value;
      assert |target| == 1 && |target[0]| == 1 && Base(rows, columns, 0) == rows[0];
    }
  }

  /** The child, if it is a table that takes a hand slot's value, is even for it. */
  predicate EvenAt(ctx: Context, elem: Elem, tables: nat) {
    elem.Tbl? && !EmptyTable(elem.rows) && tables in ctx.hand && ctx.hand[tables].id in ctx.values ==>
      Even(elem.rows, elem.columns, ctx.hand[tables], ctx.values[ctx.hand[tables].id], ctx.buyer)
  }

  /** A condition on the template and the values, known before the fill. */
  predicate TemplateIsEven(ctx: Context, body: seq<Elem>) {
    forall n | 0 <= n < |body| :: EvenAt(ctx, body[n], TablesIn(body[..n]))
  }

  lemma DecisionFitsIff(ctx: Context, st: State, elem: Elem)
    requires !elem.Other? && Decide(ctx, st, elem).Ok?
    ensures FitAt(elem, Decide(ctx, st, elem).value.action) <==> EvenAt(ctx, elem, st.tables)
  {
    if elem.Tbl? && !EmptyTable(elem.rows) && st.tables in ctx.hand && ctx.hand[st.tables].id in ctx.values {
      var slot := ctx.hand[st.tables];
      EvenDecides(elem.rows, elem.columns, slot, ctx.values[slot.id], ctx.buyer);
    }
  }

  /** The walk so far counted the tables, and its changes fit exactly when the template is even. */
  predicate FitsSoFar(ctx: Context, p: Progress, source: seq<Elem>) {
    && p.st.tables == TablesIn(source)
    && |p.acts| == |Solid(source)|
    && (AllFit(Solid(source), p.acts) <==> TemplateIsEven(ctx, source))
  }

  lemma EvenAppend(ctx: Context, source: seq<Elem>, elem: Elem)
    ensures TemplateIsEven(ctx, source + [elem]) <==>
            TemplateIsEven(ctx, source) && EvenAt(ctx, elem, TablesIn(source))
    ensures TablesIn(source + [elem]) == TablesIn(source) + (if elem.Tbl? then 1 else 0)
  {
    var longer := source + [elem];
    assert longer[..|source|] == source && longer[|source|] == elem;
    assert forall n | 0 <= n < |source| :: longer[..n] == source[..n] && longer[n] == source[n];
    if TemplateIsEven(ctx, longer) {
      forall n | 0 <= n < |source| ensures EvenAt(ctx, source[n], TablesIn(source[..n])) {
        assert EvenAt(ctx, longer[n], TablesIn(longer[..n]));
      }
      assert EvenAt(ctx, longer[|source|], TablesIn(longer[..|source|]));
    }
  }

  lemma ExtendFits(ctx: Context, p: Progress, source: seq<Elem>, elem: Elem, d: Decision, out: seq<Elem>)
    requires !elem.Other? && FitsSoFar(ctx, p, source)
    requires FitAt(elem, d.action) <==> EvenAt(ctx, elem, p.st.tables)
    requires d.next.tables == p.st.tables + if elem.Tbl? then 1 else 0
    ensures FitsSoFar(ctx, Progress(d.next, out, p.acts + [d.action]), source + [elem])
  {
    StreamPush(source, elem);
    EvenAppend(ctx, source, elem);
    FitAppend(Solid(source), p.acts, elem, d.action);
  }

  lemma OtherFits(ctx: Context, p: Progress, source: seq<Elem>, elem: Elem, out: seq<Elem>)
    requires elem.Other? && FitsSoFar(ctx, p, source)
    ensures FitsSoFar(ctx, Progress(p.st, out, p.acts), source + [elem])
  {
    StreamPush(source, elem);
    EvenAppend(ctx, source, elem);
  }

  lemma StepFits(ctx: Context, p: Progress, source: seq<Elem>, elem: Elem)
    requires StepOver(ctx, p, elem).Ok? && FitsSoFar(ctx, p, source)
    ensures FitsSoFar(ctx, StepOver(ctx, p, elem).value, source + [elem])
  {
    var q := StepOver(ctx, p, elem).value;
    if elem.Other? {
      OtherFits(ctx, p, source, elem, q.out);
    } else {
      DecisionFitsIff(ctx, p.st, elem);
      ExtendFits(ctx, p, source, elem, Decide(ctx, p.st, elem).value, q.out);
    }
  }

  lemma {:induction false} WalkFits(ctx: Context, body: seq<Elem>, n: nat)
    requires n <= |body| && FillTo(ctx, body, n).Ok?
    ensures FitsSoFar(ctx, FillTo(ctx, body, n).value, body[..n])
  {
    if n == 0 {
      assert body[..0] == [];
    } else {
      FillStep(ctx, body, n);
      WalkFits(ctx, body, n - 1);
      assert body[..n] == body[..n - 1] + [body[n - 1]];
      StepFits(ctx, FillTo(ctx, body, n - 1).value, body[..n - 1], body[n - 1]);
    }
  }

  /** A fill that returns passes its own proof if and only if every table that takes a value is
      even for it, whatever was removed, replaced or shifted around it. */
  lemma SurgeryIsReplayIff(ctx: Context, body: seq<Elem>)
    requires Fill(ctx, body).Ok?
    ensures var p := Fill(ctx, body).value;
            && |p.acts| == |Stream(body)|
            && (Stream(p.out) == Replay(Stream(body), p.acts) <==> TemplateIsEven(ctx, body))
  {
    assert body[..|body|] == body;
    WalkAgrees(ctx, body, |body|);
    WalkFits(ctx, body, |body|);
  }

  /** A fill that returns and fails its own proof: a buyer's record table whose header row is
      wider than the row below.  The row moves up over the header and leaves its second cell. */
  lemma UnevenFillFails()
    ensures var ctx := Context(map[], [], map[0 := Slot("lead", Record, "Lead", [])],
                               map["lead" := Value(map[], [])], map[], {}, true);
            var body := [Tbl([["Role", "Name"], ["Lead"]], 2)];
            && Fill(ctx, body).Ok?
            && Stream(Fill(ctx, body).value.out) == [T([["Lead", "Name"]])]
            && Replay(Stream(body), Fill(ctx, body).value.acts) == [T([["Lead"]])]
  {
    var slot := Slot("lead", Record, "Lead", []);
    var ctx := Context(map[], [], map[0 := slot], map["lead" := Value(map[], [])], map[], {}, true);
    var rows := [["Role", "Name"], ["Lead"]];
    var body := [Tbl(rows, 2)];
    var target := [["Lead"]];
    assert rows[1..] == target;
    assert target[0] + Base(rows, 2, 0)[|target[0]|..] == ["Lead", "Name"];
    assert |target[0]| == 1 <= |Base(rows, 2, 0)|;
    assert SetRows(rows, 2, target).Ok?;
    assert SetRows(rows, 2, target).value == [["Lead", "Name"]];
    assert body[..0] == [];
    assert FillTo(ctx, body, 0) == Ok(Progress(Start(ctx), [], []));
    assert Decide(ctx, Start(ctx), body[0]).value.action == Some(Cells(target));
    var p := FillTo(ctx, body, 1).value;
    assert p.out == [Tbl([["Lead", "Name"]], 2)] && p.acts == [Some(Cells(target))];
    StreamOfOne(body[0]);
    StreamOfOne(p.out[0]);
    ReplayPush([], [], T(rows), Some(Cells(target)));
    assert [] + [T(rows)] == Stream(body) && [] + [Some(Cells(target))] == p.acts;
  }

  /** No merged or missing cells: every row as wide as the grid. */
  predicate Rectangular(elem: Elem) {
    elem.Tbl? ==> forall r | 0 <= r < |elem.rows| :: |elem.rows[r]| == elem.columns
  }

  /** Hand slots are addressed through their fields, so they have some. */
  predicate SlotsHaveFields(ctx: Context) {
    forall t | t in ctx.hand :: ctx.hand[t].fields != []
  }

  /** A fill of a template with rectangular tables that returns passes its own proof. */
  lemma FillPassesReplay(ctx: Context, body: seq<Elem>)
    requires Fill(ctx, body).Ok? && SlotsHaveFields(ctx)
    requires forall k | 0 <= k < |body| :: Rectangular(body[k])
    ensures var p := Fill(ctx, body).value;
            |p.acts| == |Stream(body)| && Stream(p.out) == Replay(Stream(body), p.acts)
  {
    SurgeryIsReplayIff(ctx, body);
    forall n | 0 <= n < |body| ensures EvenAt(ctx, body[n], TablesIn(body[..n])) {
      assert Rectangular(body[n]);
    }
  }

  // ---------------------------------------------------- consumed exactly once

  /** The paragraphs delivered, replacement by replacement. */
  function ReplacedParts(acts: seq<Option<Action>>): seq<seq<string>> {
    if acts == [] then []
    else
      var last := acts[|acts| - 1];
      var rest := ReplacedParts(acts[..|acts| - 1]);
      if last.Some? && last.value.Replace? then rest + [last.value.parts] else rest
  }

  /** Each anchor is either still waiting or was consumed, in this order, by one replacement
      that delivered its own paragraphs. */
  ghost predicate Consumption(ctx: Context, p: Progress) {
    && (forall i, j | 0 <= i < j < |p.st.used| :: p.st.used[i] != p.st.used[j])
    && (forall a :: a in p.st.filled <==> a in ctx.filled && a !in p.st.used)
    && (forall a | a in p.st.filled :: p.st.filled[a] == ctx.filled[a])
    && |ReplacedParts(p.acts)| == |p.st.used|
    && (forall i | 0 <= i < |p.st.used| ::
          p.st.used[i] in ctx.filled && ReplacedParts(p.acts)[i] == ctx.filled[p.st.used[i]])
  }

  /** A decision consumes one waiting anchor, by a replacement, or none. */
  lemma DecideConsumes(ctx: Context, st: State, elem: Elem) returns (a: Option<string>)
    requires !elem.Other? && Decide(ctx, st, elem).Ok?
    ensures var d := Decide(ctx, st, elem).value;
            match a
            case None =>
              d.next.filled == st.filled && d.next.used == st.used && !(d.action.Some? && d.action.value.Replace?)
            case Some(anchor) =>
              && anchor in st.filled && d.action == Some(Replace(st.filled[anchor]))
              && d.next.filled == st.filled - {anchor} && d.next.used == st.used + [anchor]
  {
    var d := Decide(ctx, st, elem).value;
    a := if d.action.Some? && d.action.value.Replace? then MatchOf(ctx.questions, st.filled, FirstCell(elem.rows))
        else None;
  }

  lemma StepConsumes(ctx: Context, p: Progress, elem: Elem)
    requires Consumption(ctx, p) && StepOver(ctx, p, elem).Ok?
    ensures Consumption(ctx, StepOver(ctx, p, elem).value)
  {
    var q := StepOver(ctx, p, elem).value;
    if !elem.Other? {
      var a := DecideConsumes(ctx, p.st, elem);
      assert q.acts[..|q.acts| - 1] == p.acts;
      if a.Some? {
        assert forall i | 0 <= i < |p.st.used| :: q.st.used[i] == p.st.used[i];
      }
    }
  }

  lemma {:induction false} FillConsumes(ctx: Context, body: seq<Elem>, n: nat)
    requires n <= |body| && FillTo(ctx, body, n).Ok?
    ensures Consumption(ctx, FillTo(ctx, body, n).value)
  {
    if n > 0 {
      FillConsumes(ctx, body, n - 1);
      StepConsumes(ctx, FillTo(ctx, body, n - 1).value, body[n - 1]);
    }
  }

  /** A fill that returns consumed every filled anchor exactly once. */
  lemma EveryAnchorOnce(ctx: Context, body: seq<Elem>)
    requires Fill(ctx, body).Ok?
    ensures var p := Fill(ctx, body).value;
            && Consumption(ctx, p)
            && forall a | a in ctx.filled :: a in p.st.used
  {
    FillConsumes(ctx, body, |body|);
  }

  // ------------------------------------------------------------ front matter

  /** A numbered first-level heading stands at or before position k. */
  predicate BodyStarted(solid: seq<Elem>, k: nat)
    requires k < |solid|
  {
    exists j | 0 <= j <= k :: StartsElem(solid[j])
  }

  predicate StartsElem(elem: Elem) {
    elem.Para? && StartsBody(elem.text, elem.style)
  }

  /** Before the first numbered heading everything goes, but for empty tables and hand tables;
      from there on no paragraph is removed or replaced. */
  ghost predicate FrontMatterRule(ctx: Context, solid: seq<Elem>, acts: seq<Option<Action>>, k: nat)
    requires k < |solid| == |acts|
  {
    if BodyStarted(solid, k) then
      solid[k].Para? ==> acts[k].None? || acts[k].value.PText?
    else
      solid[k].Para? || (solid[k].Tbl? && !EmptyTable(solid[k].rows) && TablesIn(solid[..k]) !in ctx.hand) ==>
        acts[k] == Some(Remove)
  }

  ghost predicate FrontMatterDone(ctx: Context, solid: seq<Elem>, p: Progress) {
    && |solid| == |p.acts|
    && p.st.tables == TablesIn(solid)
    && (p.st.inFront <==> forall j | 0 <= j < |solid| :: !StartsElem(solid[j]))
    && forall k | 0 <= k < |solid| :: FrontMatterRule(ctx, solid, p.acts, k)
  }

  lemma StepFrontMatter(ctx: Context, solid: seq<Elem>, p: Progress, elem: Elem)
    requires !elem.Other? && StepOver(ctx, p, elem).Ok? && FrontMatterDone(ctx, solid, p)
    ensures FrontMatterDone(ctx, solid + [elem], StepOver(ctx, p, elem).value)
  {
    var q, longer := StepOver(ctx, p, elem).value, solid + [elem];
    assert longer[..|longer| - 1] == solid;
    forall k | 0 <= k < |longer| ensures FrontMatterRule(ctx, longer, q.acts, k) {
      assert longer[..k] == solid[..k];
      if k < |solid| {
        assert FrontMatterRule(ctx, solid, p.acts, k);
        assert BodyStarted(longer, k) <==> BodyStarted(solid, k);
      } else {
        assert solid[..k] == solid;
        assert longer[k] == elem;
      }
    }
  }

  lemma {:induction false} FrontMatterGoes(ctx: Context, body: seq<Elem>, n: nat)
    requires n <= |body| && FillTo(ctx, body, n).Ok?
    ensures FrontMatterDone(ctx, Solid(body[..n]), FillTo(ctx, body, n).value)
  {
    if n > 0 {
      FrontMatterGoes(ctx, body, n - 1);
      assert body[..n][..n - 1] == body[..n - 1];
      if !body[n - 1].Other? {
        StepFrontMatter(ctx, Solid(body[..n - 1]), FillTo(ctx, body, n - 1).value, body[n - 1]);
      }
    }
  }
}
