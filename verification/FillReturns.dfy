/** When the fill of a template returns (engine/assembly/template_fill.py, hand_fill.py). */
module FillReturns {
  import opened Wrappers
  import opened FillRendering
  import opened TemplateFill
  import opened FillProof

  // -------------------------------------------------------------- one hand table

  /** The table has a cell for every field that is filled. */
  predicate AllInRange(rows: Rows, fields: seq<Field>, texts: map<string, string>) {
    forall f | f in fields && TextOf(f, texts).Some? :: InRange(rows, f)
  }

  lemma {:induction false} PutFieldsIff(rows: Rows, fields: seq<Field>, texts: map<string, string>)
    ensures PutFields(rows, fields, texts).Ok? <==> AllInRange(rows, fields, texts)
  {
    if fields != [] {
      var front, last := fields[..|fields| - 1], fields[|fields| - 1];
      PutFieldsIff(rows, front, texts);
      assert fields == front + [last];
      if PutFields(rows, front, texts).Ok? {
        PutFieldsMeans(rows, front, texts);
        assert InRange(PutFields(rows, front, texts).value, last) <==> InRange(rows, last);
      }
    }
  }

  /** What the hand slot puts into the table has cells to go to: for the buyer no row is wider than
      the one above it, which it is written over; a grid's rows are no narrower than its header. */
  predicate Takes(rows: Rows, columns: nat, slot: Slot, value: Value, buyer: bool)
    requires !EmptyTable(rows)
  {
    if slot.shape.Record? then
      AllInRange(rows, slot.fields, value.texts)
      && (buyer ==> forall r | 0 < r < |rows| :: |rows[r]| <= |rows[r - 1]|)
    else if slot.fields != [] && columns >= 2 then
      forall r | 1 <= r <= |value.entries| :: |rows[0]| <= |Base(rows, columns, r)|
    else true
  }

  predicate Narrow(rows: Rows, columns: nat, target: Rows) {
    forall r | 0 <= r < |target| :: |target[r]| <= |Base(rows, columns, r)|
  }

  lemma RecordNarrow(rows: Rows, columns: nat, slot: Slot, value: Value, buyer: bool)
    requires RecordOf(rows, slot, value, buyer).Ok?
    ensures Narrow(rows, columns, RecordOf(rows, slot, value, buyer).value) <==>
            (buyer ==> forall r | 0 < r < |rows| :: |rows[r]| <= |rows[r - 1]|)
  {
    PutFieldsMeans(rows, slot.fields, value.texts);
    var put, target := PutFields(rows, slot.fields, value.texts).value, RecordOf(rows, slot, value, buyer).value;
    if buyer {
      assert forall r | 0 <= r < |target| :: target[r] == put[r + 1];
      if Narrow(rows, columns, target) {
        forall r | 0 < r < |rows| ensures |rows[r]| <= |rows[r - 1]| {
          assert |target[r - 1]| <= |Base(rows, columns, r - 1)|;
        }
      } else {
        var r :| 0 <= r < |target| && |target[r]| > |Base(rows, columns, r)|;
        assert |rows[r + 1]| > |rows[r + 1 - 1]|;
      }
    }
  }

  lemma GridNarrow(rows: Rows, columns: nat, slot: Slot, entries: seq<seq<(string, string)>>)
    requires !EmptyTable(rows)
    ensures Narrow(rows, columns, GridOf(rows, slot, entries)) <==>
            forall r | 1 <= r <= |entries| :: |rows[0]| <= |Base(rows, columns, r)|
  {
    var target := GridOf(rows, slot, entries);
    assert |target| == |entries| + 1;
    assert forall r | 0 <= r < |target| :: |target[r]| == |rows[0]|;
    if Narrow(rows, columns, target) {
      forall r | 1 <= r <= |entries| ensures |rows[0]| <= |Base(rows, columns, r)| {
        assert |target[r]| <= |Base(rows, columns, r)|;
      }
    } else {
      var r :| 0 <= r < |target| && |target[r]| > |Base(rows, columns, r)|;
      assert r != 0;
    }
  }

  /** The table is rendered and rewritten without a raise exactly when it takes the value. */
  lemma TakesDecides(rows: Rows, columns: nat, slot: Slot, value: Value, buyer: bool)
    requires !EmptyTable(rows)
    ensures Takes(rows, columns, slot, value, buyer) <==>
            && Rendered(rows, columns, slot, value, buyer).Ok?
            && SetRows(rows, columns, Rendered(rows, columns, slot, value, buyer).value).Ok?
  {
    if slot.shape.Record? {
      PutFieldsIff(rows, slot.fields, value.texts);
      if RecordOf(rows, slot, value, buyer).Ok? { RecordNarrow(rows, columns, slot, value, buyer); }
    } else if slot.fields != [] && columns >= 2 {
      GridNarrow(rows, columns, slot, value.entries);
    } else {
      assert |Base(rows, columns, 0)| >= 1;
    }
  }

  // ------------------------------------------------------------------- the walk

  predicate TakesAt(ctx: Context, elem: Elem, tables: nat) {
    elem.Tbl? && !EmptyTable(elem.rows) && tables in ctx.hand && ctx.hand[tables].id in ctx.values ==>
      Takes(elem.rows, elem.columns, ctx.hand[tables], ctx.values[ctx.hand[tables].id], ctx.buyer)
  }

  /** Every table that takes a value has the cells it needs. */
  predicate TemplateTakes(ctx: Context, body: seq<Elem>, n: nat)
    requires n <= |body|
  {
    n == 0 || (TemplateTakes(ctx, body, n - 1) && TakesAt(ctx, body[n - 1], TablesIn(body[..n - 1])))
  }

  lemma StepReturnsIff(ctx: Context, p: Progress, elem: Elem)
    ensures StepOver(ctx, p, elem).Ok? <==> TakesAt(ctx, elem, p.st.tables)
  {
    if elem.Tbl? && !EmptyTable(elem.rows) && p.st.tables in ctx.hand && ctx.hand[p.st.tables].id in ctx.values {
      var slot := ctx.hand[p.st.tables];
      TakesDecides(elem.rows, elem.columns, slot, ctx.values[slot.id], ctx.buyer);
    }
  }

  lemma {:induction false} WalkReturnsIff(ctx: Context, body: seq<Elem>, n: nat)
    requires n <= |body|
    ensures FillTo(ctx, body, n).Ok? <==> TemplateTakes(ctx, body, n)
  {
    if n > 0 {
      WalkReturnsIff(ctx, body, n - 1);
      if FillTo(ctx, body, n - 1).Ok? {
        WalkFits(ctx, body, n - 1);
        StepReturnsIff(ctx, FillTo(ctx, body, n - 1).value, body[n - 1]);
      }
    }
  }

  // --------------------------------------------------------------------- anchors

  /** The guidance texts of the filled anchors tell them apart, and none looks like a placeholder box. */
  ghost predicate Telling(ctx: Context) {
    && (forall p, q | p in ctx.questions && q in ctx.questions && p.0 in ctx.filled && q.0 in ctx.filled
                      && p.1 == q.1 :: p.0 == q.0)
    && (forall p | p in ctx.questions && p.0 in ctx.filled :: p.1 == "" || p.1[0] != '[')
  }

  predicate Started(body: seq<Elem>, n: nat)
    requires n <= |body|
  {
    exists j | 0 <= j < n :: StartsElem(body[j])
  }

  /** The anchor's guidance box stands at n: past the front matter, in a table that is no hand table. */
  predicate MeetsAt(ctx: Context, body: seq<Elem>, n: nat, a: string)
    requires n < |body|
  {
    && body[n].Tbl? && !EmptyTable(body[n].rows) && TablesIn(body[..n]) !in ctx.hand && Started(body, n)
    && (a, FirstCell(body[n].rows)) in ctx.questions
  }

  predicate MetBy(ctx: Context, body: seq<Elem>, n: nat, a: string)
    requires n <= |body|
  {
    n > 0 && (MetBy(ctx, body, n - 1, a) || MeetsAt(ctx, body, n - 1, a))
  }

  lemma {:induction false} FrontMeans(ctx: Context, body: seq<Elem>, n: nat)
    requires n <= |body| && FillTo(ctx, body, n).Ok?
    ensures FillTo(ctx, body, n).value.st.inFront <==> !Started(body, n)
  {
    if n > 0 {
      FillStep(ctx, body, n);
      FrontMeans(ctx, body, n - 1);
      FrontStep(ctx, FillTo(ctx, body, n - 1).value, body[n - 1]);
      assert Started(body, n) <==> Started(body, n - 1) || StartsElem(body[n - 1]);
    }
  }

  lemma FrontStep(ctx: Context, p: Progress, elem: Elem)
    requires StepOver(ctx, p, elem).Ok?
    ensures StepOver(ctx, p, elem).value.st.inFront <==> p.st.inFront && !StartsElem(elem)
  {
  }

  /** The first filled anchor of a text is found, if there is one. */
  lemma {:induction false} MatchFinds(questions: seq<(string, string)>, filled: map<string, seq<string>>, text: string,
                                      a: string)
    requires (a, text) in questions && a in filled
    ensures MatchOf(questions, filled, text).Some?
  {
    if questions[0] != (a, text) {
      assert (a, text) in questions[1..];
      MatchFinds(questions[1..], filled, text, a);
    }
  }

  /** One table: an anchor that waits is consumed exactly when its box is here. */
  lemma TableConsumes(ctx: Context, p: Progress, elem: Elem, a: string)
    requires Telling(ctx) && Consumption(ctx, p) && StepOver(ctx, p, elem).Ok? && a in ctx.filled && a !in p.st.used
    ensures a in StepOver(ctx, p, elem).value.st.used <==>
            && elem.Tbl? && !EmptyTable(elem.rows) && p.st.tables !in ctx.hand && !p.st.inFront
            && (a, FirstCell(elem.rows)) in ctx.questions
  {
    if elem.Tbl? && !EmptyTable(elem.rows) && p.st.tables !in ctx.hand && !p.st.inFront {
      var first := FirstCell(elem.rows);
      var found := MatchOf(ctx.questions, p.st.filled, first);
      if (a, first) in ctx.questions { MatchFinds(ctx.questions, p.st.filled, first, a); }
      if found.Some? { assert found.value in ctx.filled && (found.value, first) in ctx.questions; }
    }
  }

  lemma UsedStays(ctx: Context, p: Progress, elem: Elem, a: string)
    requires StepOver(ctx, p, elem).Ok? && a in p.st.used
    ensures a in StepOver(ctx, p, elem).value.st.used
  {
  }

  lemma {:induction false} UsedIff(ctx: Context, body: seq<Elem>, n: nat, a: string)
    requires Telling(ctx) && n <= |body| && FillTo(ctx, body, n).Ok? && a in ctx.filled
    ensures a in FillTo(ctx, body, n).value.st.used <==> MetBy(ctx, body, n, a)
  {
    if n > 0 {
      FillStep(ctx, body, n);
      UsedIff(ctx, body, n - 1, a);
      var p := FillTo(ctx, body, n - 1).value;
      FillConsumes(ctx, body, n - 1);
      FrontMeans(ctx, body, n - 1);
      WalkFits(ctx, body, n - 1);
      if a in p.st.used { UsedStays(ctx, p, body[n - 1], a); } else { TableConsumes(ctx, p, body[n - 1], a); }
    }
  }

  /** With guidance texts that tell the anchors apart, the fill returns exactly when every table that
      takes a value has the cells for it and every filled anchor's guidance box is met. */
  lemma FillReturnsIff(ctx: Context, body: seq<Elem>)
    requires Telling(ctx)
    ensures Fill(ctx, body).Ok? <==>
            && TemplateTakes(ctx, body, |body|)
            && forall a | a in ctx.filled :: MetBy(ctx, body, |body|, a)
  {
    WalkReturnsIff(ctx, body, |body|);
    if FillTo(ctx, body, |body|).Ok? {
      var st := FillTo(ctx, body, |body|).value.st;
      FillConsumes(ctx, body, |body|);
      forall a | a in ctx.filled ensures a in st.used <==> MetBy(ctx, body, |body|, a) {
        UsedIff(ctx, body, |body|, a);
      }
      if st.filled != map[] {
        var a :| a in st.filled;
        assert a in ctx.filled && a !in st.used;
      } else {
        assert forall a | a in ctx.filled :: a !in st.filled;
      }
    }
  }
}
