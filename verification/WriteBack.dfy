/** Writer and verifier of the workbook write-back agree (engine/assembly/xlsx_patch.py). */
module WriteBack {
  import opened Wrappers
  import opened Coordinates
  import opened SheetPatch
  import opened Workbook
  import CalcChain

  /** What the callers hand over: canonical coordinates of sheets the book has, each once. */
  ghost predicate GoodWrites(book: Book, writes: seq<Write>) {
    && (forall k | 0 <= k < |writes| :: Canonical(writes[k].coord) && Named(book.sheets, writes[k].sheet))
    && (forall i, j | 0 <= i < j < |writes| ::
          (writes[i].sheet, writes[i].coord) != (writes[j].sheet, writes[j].coord))
  }

  function IntendedOf(writes: seq<Write>): Intended {
    set w | w in writes :: (w.sheet, w.coord)
  }

  // ------------------------------------------------------------- lookups

  lemma {:induction false} PartNamedAt(members: seq<Member>, k: nat)
    requires k < |members|
    requires forall i, j | 0 <= i < j < |members| :: members[i].name != members[j].name
    ensures PartNamed(members, members[k].name) == Some(members[k].data)
  {
    if k > 0 {
      assert members[1..][k - 1] == members[k];
      PartNamedAt(members[1..], k - 1);
    }
  }

  lemma {:induction false} PartNamedIn(members: seq<Member>, name: string)
    ensures PartNamed(members, name).Some? ==>
              exists k | 0 <= k < |members| :: members[k] == Member(name, PartNamed(members, name).value)
  {
    if members != [] && members[0].name != name {
      PartNamedIn(members[1..], name);
      if PartNamed(members, name).Some? {
        var k :| 0 <= k < |members[1..]| && members[1..][k] == Member(name, PartNamed(members[1..], name).value);
        assert members[k + 1] == members[1..][k];
      }
    }
  }

  lemma {:induction false} WrittenInMeans(sheets: seq<SheetRef>, writes: seq<Write>, ref: SheetRef)
    requires DistinctSheets(sheets) && ref in sheets
    ensures WrittenIn(sheets, writes, ref.part) == if WritesOf(writes, ref.name) != [] then Some(ref) else None
  {
    if sheets[0] != ref {
      var k :| 0 <= k < |sheets| && sheets[k] == ref;
      assert sheets[0].part != ref.part;
      assert sheets[1..][k - 1] == ref;
      WrittenInMeans(sheets[1..], writes, ref);
    } else if WritesOf(writes, ref.name) == [] {
      NoneElse(sheets[1..], writes, ref.part);
    }
  }

  lemma {:induction false} NoneElse(sheets: seq<SheetRef>, writes: seq<Write>, part: string)
    requires forall ref | ref in sheets :: ref.part != part
    ensures WrittenIn(sheets, writes, part) == None
  {
    if sheets != [] {
      assert sheets[0].part != part;
      NoneElse(sheets[1..], writes, part);
    }
  }

  lemma {:induction false} WritesOfAre(writes: seq<Write>, sheet: string)
    ensures forall w :: w in WritesOf(writes, sheet) <==> Write(sheet, w.0, w.1) in writes
  {
    if writes != [] {
      var init, last := writes[..|writes| - 1], writes[|writes| - 1];
      WritesOfAre(init, sheet);
      assert writes == init + [last];
    }
  }

  /** The writes of one sheet are a dictionary, and are exactly those that name it. */
  lemma {:induction false} WritesOfMeans(book: Book, writes: seq<Write>, sheet: string)
    requires GoodWrites(book, writes)
    ensures Dictionary(WritesOf(writes, sheet))
    ensures forall w :: w in WritesOf(writes, sheet) <==> Write(sheet, w.0, w.1) in writes
  {
    WritesOfAre(writes, sheet);
    if writes != [] {
      var init, last := writes[..|writes| - 1], writes[|writes| - 1];
      GoodInit(book, writes);
      WritesOfMeans(book, init, sheet);
      if last.sheet == sheet {
        NotWrittenBefore(book, writes, sheet);
        DictionaryPush(WritesOf(init, sheet), last.coord, last.text);
      }
    }
  }

  lemma GoodInit(book: Book, writes: seq<Write>)
    requires GoodWrites(book, writes) && writes != []
    ensures GoodWrites(book, writes[..|writes| - 1])
  {
  }

  lemma DictionaryPush(ws: Writes, coord: string, text: string)
    requires Dictionary(ws) && Canonical(coord)
    requires forall k | 0 <= k < |ws| :: ws[k].0 != coord
    ensures Dictionary(ws + [(coord, text)])
  {
  }

  lemma NotWrittenBefore(book: Book, writes: seq<Write>, sheet: string)
    requires GoodWrites(book, writes) && writes != [] && writes[|writes| - 1].sheet == sheet
    ensures var rest := WritesOf(writes[..|writes| - 1], sheet);
            forall k | 0 <= k < |rest| :: rest[k].0 != writes[|writes| - 1].coord
  {
    var init, last := writes[..|writes| - 1], writes[|writes| - 1];
    var rest := WritesOf(init, sheet);
    WritesOfAre(init, sheet);
    forall k | 0 <= k < |rest| ensures rest[k].0 != last.coord {
      assert rest[k] in rest;
      assert Write(sheet, rest[k].0, rest[k].1) in init;
    }
  }

  lemma WritesCellMeans(book: Book, writes: seq<Write>, sheet: string, coord: string)
    requires GoodWrites(book, writes)
    ensures WritesCell(WritesOf(writes, sheet), coord) <==> (sheet, coord) in IntendedOf(writes)
  {
    WritesOfMeans(book, writes, sheet);
    var ws := WritesOf(writes, sheet);
    if WritesCell(ws, coord) {
      var k :| 0 <= k < |ws| && ws[k].0 == coord;
      assert ws[k] in ws;
    }
    if (sheet, coord) in IntendedOf(writes) {
      var w :| w in writes && w.sheet == sheet && w.coord == coord;
      assert (w.coord, w.text) in ws;
      var k :| 0 <= k < |ws| && ws[k] == (w.coord, w.text);
    }
  }

  // ------------------------------------------------------------- the rebuild

  lemma RebuildMeans(book: Book, writes: seq<Write>, stamp: Data -> Data, k: nat)
    requires WellFormedBook(book) && GoodWrites(book, writes) && k < |book.members|
    ensures var m := book.members[k];
            var ref := WrittenIn(book.sheets, writes, m.name);
            && Rebuild(book, writes, stamp, m).Ok?
            && (ref.Some? ==>
                  var rows, ws := RowsOf(book, ref.value), WritesOf(writes, ref.value.name);
                  && m.data == Sheet(rows) && WellFormed(rows)
                  && PatchAll(rows, ws).Ok? && Sets(rows, ws, PatchAll(rows, ws).value)
                  && Rebuild(book, writes, stamp, m).value.data == Sheet(PatchAll(rows, ws).value.rows))
  {
    var m := book.members[k];
    var ref := WrittenIn(book.sheets, writes, m.name);
    if ref.Some? {
      PartNamedAt(book.members, k);
      WritesOfMeans(book, writes, ref.value.name);
      assert HasSheet(book, ref.value);
      PatchAllSets(RowsOf(book, ref.value), WritesOf(writes, ref.value.name));
    }
  }

  /** Some sheet that lives in this part has an answered cell. */
  predicate Answered(book: Book, writes: seq<Write>, part: string) {
    exists ref | ref in book.sheets :: ref.part == part && SheetAnswered(writes, ref.name)
  }

  predicate SheetAnswered(writes: seq<Write>, sheet: string) {
    exists w | w in writes :: w.sheet == sheet
  }

  lemma {:induction false} AnsweredMeans(writes: seq<Write>, sheet: string)
    ensures SheetAnswered(writes, sheet) <==> WritesOf(writes, sheet) != []
  {
    WritesOfAre(writes, sheet);
    if w :| w in writes && w.sheet == sheet {
      assert Write(sheet, w.coord, w.text) == w;
      assert (w.coord, w.text) in WritesOf(writes, sheet);
    }
    if WritesOf(writes, sheet) != [] {
      var w := WritesOf(writes, sheet)[0];
      assert w in WritesOf(writes, sheet) && Write(sheet, w.0, w.1) in writes;
    }
  }

  /** A rebuilt sheet part: the answered cells set and nothing else, and the formula cells
      among them reported under the sheet's id. */
  ghost predicate SheetRebuilt(rows: seq<Row>, ws: Writes, id: int, r: Rebuilt) {
    && r.data.Sheet? && WellFormed(r.data.rows)
    && CellsSet(rows, ws, r.data.rows) && RowsSet(rows, ws, r.data.rows)
    && forall x :: x in r.formulas <==> x.0 == id && WritesCell(ws, x.1) && FormulaAt(rows, x.1)
  }

  /** What one part becomes: answered, its sheet's cells are set; not answered, it is copied
      byte for byte, or stamped if it is the core part; and good writes are never refused. */
  lemma RebuiltPartMeans(book: Book, writes: seq<Write>, stamp: Data -> Data, k: nat)
    requires WellFormedBook(book) && GoodWrites(book, writes) && k < |book.members|
    ensures var m := book.members[k];
            && Rebuild(book, writes, stamp, m).Ok?
            && (!Answered(book, writes, m.name) ==>
                  Rebuild(book, writes, stamp, m).value
                  == Rebuilt(if m.name == CORE_PART then stamp(m.data) else m.data, {}))
            && forall ref | ref in book.sheets && ref.part == m.name && SheetAnswered(writes, ref.name) ::
                 SheetRebuilt(RowsOf(book, ref), WritesOf(writes, ref.name), ref.id,
                     Rebuild(book, writes, stamp, m).value)
  {
    var m := book.members[k];
    RebuildMeans(book, writes, stamp, k);
    var at := WrittenIn(book.sheets, writes, m.name);
    if at.Some? {
      AnsweredMeans(writes, at.value.name);
      assert Answered(book, writes, m.name);
    }
    forall ref | ref in book.sheets && ref.part == m.name && SheetAnswered(writes, ref.name)
      ensures SheetRebuilt(RowsOf(book, ref), WritesOf(writes, ref.name), ref.id, Rebuild(book, writes, stamp, m).value)
    {
      AnsweredMeans(writes, ref.name);
      WrittenInMeans(book.sheets, writes, ref);
      assert at == Some(ref);
    }
  }

  lemma {:induction false} RebuildAllMembers(members: seq<Member>, rebuild: Rebuilder, n: nat)
    requires n <= |members| && forall k | 0 <= k < n :: rebuild(members[k]).Ok?
    ensures RebuildAll(members, rebuild, n).Ok?
    ensures |RebuildAll(members, rebuild, n).value.0| == n
    ensures forall k | 0 <= k < n :: RebuildAll(members, rebuild, n).value.0[k]
                                  == Member(members[k].name, rebuild(members[k]).value.data)
  {
    if n > 0 {
      RebuildAllMembers(members, rebuild, n - 1);
    }
  }

  lemma {:induction false} RebuildAllFormulas(members: seq<Member>, rebuild: Rebuilder, n: nat, x: (int, string))
    requires n <= |members| && RebuildAll(members, rebuild, n).Ok?
    ensures x in RebuildAll(members, rebuild, n).value.1 <==>
            exists k | 0 <= k < n :: rebuild(members[k]).Ok? && x in rebuild(members[k]).value.formulas
  {
    if n > 0 {
      RebuildAllFormulas(members, rebuild, n - 1, x);
    }
  }

  predicate FormulaFrom(book: Book, writes: seq<Write>, stamp: Data -> Data, k: nat, x: (int, string))
    requires k < |book.members|
  {
    && Rebuild(book, writes, stamp, book.members[k]).Ok?
    && x in Rebuild(book, writes, stamp, book.members[k]).value.formulas
  }

  /** The formula cells collected: exactly the intended cells that held a formula. */
  ghost predicate OverwrittenFormula(book: Book, writes: seq<Write>, x: (int, string)) {
    exists ref | ref in book.sheets ::
      ref.id == x.0 && (ref.name, x.1) in IntendedOf(writes) && FormulaAt(RowsOf(book, ref), x.1)
  }

  lemma FormulaFromMeans(book: Book, writes: seq<Write>, stamp: Data -> Data, k: nat, x: (int, string))
    requires WellFormedBook(book) && GoodWrites(book, writes) && k < |book.members|
    ensures FormulaFrom(book, writes, stamp, k, x) <==>
            var ref := WrittenIn(book.sheets, writes, book.members[k].name);
            && ref.Some? && ref.value.id == x.0
            && (ref.value.name, x.1) in IntendedOf(writes) && FormulaAt(RowsOf(book, ref.value), x.1)
  {
    RebuildMeans(book, writes, stamp, k);
    var ref := WrittenIn(book.sheets, writes, book.members[k].name);
    if ref.Some? {
      WritesCellMeans(book, writes, ref.value.name, x.1);
    }
  }

  lemma FormulasMean(book: Book, writes: seq<Write>, stamp: Data -> Data, x: (int, string))
    requires WellFormedBook(book) && GoodWrites(book, writes)
    ensures (exists k | 0 <= k < |book.members| :: FormulaFrom(book, writes, stamp, k, x))
       <==> OverwrittenFormula(book, writes, x)
  {
    if k :| 0 <= k < |book.members| && FormulaFrom(book, writes, stamp, k, x) {
      FormulaFromMeans(book, writes, stamp, k, x);
    }
    if ref :| ref in book.sheets && ref.id == x.0 && (ref.name, x.1) in IntendedOf(writes)
              && FormulaAt(RowsOf(book, ref), x.1) {
      var k := SheetMember(book, ref);
      WritesCellMeans(book, writes, ref.name, x.1);
      WrittenInMeans(book.sheets, writes, ref);
      FormulaFromMeans(book, writes, stamp, k, x);
    }
  }

  lemma SheetMember(book: Book, ref: SheetRef) returns (k: nat)
    requires WellFormedBook(book) && ref in book.sheets
    ensures k < |book.members| && book.members[k] == Member(ref.part, Sheet(RowsOf(book, ref)))
  {
    assert HasSheet(book, ref);
    PartNamedIn(book.members, ref.part);
    k :| 0 <= k < |book.members| && book.members[k] == Member(ref.part, PartNamed(book.members, ref.part).value);
  }

  // --------------------------------------------------------------- the chain

  lemma {:induction false} KeptMeans(chain: seq<CalcChain.Entry>, drop: CalcChain.Drop, n: nat, x: (int, string))
    requires n <= |chain|
    ensures x in CalcChain.Kept(chain, drop, n) ==> x !in drop && x in CalcChain.Resolve(chain)
  {
    if n > 0 {
      KeptMeans(chain, drop, n - 1, x);
      assert CalcChain.Resolve(chain)[n - 1] == (CalcChain.Id(chain, n - 1), chain[n - 1].cell);
    }
  }

  lemma {:induction false} KeptOfNothing(chain: seq<CalcChain.Entry>, n: nat)
    requires n <= |chain|
    ensures CalcChain.Kept(chain, {}, n) == CalcChain.Resolve(chain)[..n]
  {
    if n > 0 { KeptOfNothing(chain, n - 1); }
  }

  /** The chain loop that runs leaves every surviving entry on its sheet. */
  ghost predicate NoDebtLost(loop: Loop, book: Book, drop: CalcChain.Drop) {
    loop.AsIs? ==>
      forall m | m in book.members && m.name == CALC_CHAIN && m.data.Chain? ::
        forall b: nat, j: nat | j < |m.data.entries| :: !CalcChain.LostDebt(m.data.entries, drop, b, j)
  }

  lemma EditedChain(loop: Loop, book: Book, m: Member, drop: CalcChain.Drop)
    requires m in book.members && m.name == CALC_CHAIN && m.data.Chain? && NoDebtLost(loop, book, drop)
    ensures EditChain(loop, m, drop).data.Chain?
    ensures CalcChain.Resolve(EditChain(loop, m, drop).data.entries)
         == CalcChain.Kept(m.data.entries, drop, |m.data.entries|)
  {
    var chain := m.data.entries;
    if drop == {} {
      KeptOfNothing(chain, |chain|);
      assert CalcChain.Resolve(chain)[..|chain|] == CalcChain.Resolve(chain);
    } else if loop.AsIs? {
      CalcChain.EditKeepsSheets(chain, drop);
    } else {
      CalcChain.RepairKeepsSheets(chain, drop, |chain|);
    }
  }

  /** The chain names only formula cells, as far as the intended cells go. */
  ghost predicate ChainNamesFormulas(book: Book, writes: seq<Write>) {
    forall m, ref, coord | m in book.members && m.name == CALC_CHAIN && m.data.Chain?
                           && ref in book.sheets && (ref.name, coord) in IntendedOf(writes)
                           && (ref.id, coord) in CalcChain.Resolve(m.data.entries) ::
      FormulaAt(RowsOf(book, ref), coord)
  }

  ghost predicate DropIs(book: Book, writes: seq<Write>, drop: CalcChain.Drop) {
    forall x :: x in drop <==> OverwrittenFormula(book, writes, x)
  }

  lemma NoneSurvives(loop: Loop, book: Book, writes: seq<Write>, m: Member, drop: CalcChain.Drop)
    requires m in book.members && m.name == CALC_CHAIN && m.data.Chain?
    requires NoDebtLost(loop, book, drop) && ChainNamesFormulas(book, writes) && DropIs(book, writes, drop)
    ensures EditChain(loop, m, drop).data.Chain?
    ensures NoSurvivor(book, EditChain(loop, m, drop).data.entries, IntendedOf(writes))
  {
    EditedChain(loop, book, m, drop);
    var chain := m.data.entries;
    forall ref, t | ref in book.sheets && t in IntendedOf(writes) && t.0 == ref.name
      ensures (ref.id, t.1) !in CalcChain.Resolve(EditChain(loop, m, drop).data.entries)
    {
      KeptMeans(chain, drop, |chain|, (ref.id, t.1));
      if (ref.id, t.1) in CalcChain.Resolve(chain) {
        assert (ref.name, t.1) in IntendedOf(writes);
        assert OverwrittenFormula(book, writes, (ref.id, t.1));
      }
    }
  }

  // --------------------------------------------------- the writer is accepted

  /** The output, member by member. */
  ghost predicate OutputOf(loop: Loop, book: Book, writes: seq<Write>, stamp: Data -> Data, out: Book,
                           drop: CalcChain.Drop) {
    && out.sheets == book.sheets
    && |out.members| == |book.members|
    && DropIs(book, writes, drop)
    && forall k | 0 <= k < |book.members| ::
         && Rebuild(book, writes, stamp, book.members[k]).Ok?
         && out.members[k]
            == EditChain(loop, Member(book.members[k].name, Rebuild(book, writes, stamp, book.members[k]).value.data),
                drop)
  }

  /** Good writes to a well-formed book are never refused. */
  lemma WriterSucceeds(loop: Loop, book: Book, writes: seq<Write>, stamp: Data -> Data) returns (drop: CalcChain.Drop)
    requires WellFormedBook(book) && GoodWrites(book, writes)
    ensures Written(loop, book, writes, stamp).Ok?
    ensures OutputOf(loop, book, writes, stamp, Written(loop, book, writes, stamp).value, drop)
  {
    var rebuild, n := RebuilderOf(book, writes, stamp), |book.members|;
    forall k | 0 <= k < n ensures rebuild(book.members[k]).Ok? {
      RebuildMeans(book, writes, stamp, k);
    }
    RebuildAllMembers(book.members, rebuild, n);
    drop := RebuildAll(book.members, rebuild, n).value.1;
    forall x ensures x in drop <==> OverwrittenFormula(book, writes, x) {
      RebuildAllFormulas(book.members, rebuild, n, x);
      assert forall k | 0 <= k < n :: FormulaFrom(book, writes, stamp, k, x)
                                 <==> rebuild(book.members[k]).Ok? && x in rebuild(book.members[k]).value.formulas;
      FormulasMean(book, writes, stamp, x);
    }
  }

  lemma OutputNames(loop: Loop, book: Book, writes: seq<Write>, stamp: Data -> Data, out: Book, drop: CalcChain.Drop)
    requires OutputOf(loop, book, writes, stamp, out, drop)
    ensures forall k | 0 <= k < |book.members| :: out.members[k].name == book.members[k].name
  {
  }

  lemma OutputRows(loop: Loop, book: Book, writes: seq<Write>, stamp: Data -> Data, out: Book, drop: CalcChain.Drop,
                   ref: SheetRef)
    requires WellFormedBook(book) && GoodWrites(book, writes) && OutputOf(loop, book, writes, stamp, out, drop)
    requires ref in book.sheets && WritesOf(writes, ref.name) != []
    ensures var rows, ws := RowsOf(book, ref), WritesOf(writes, ref.name);
            && PatchAll(rows, ws).Ok? && Sets(rows, ws, PatchAll(rows, ws).value)
            && RowsOf(out, ref) == PatchAll(rows, ws).value.rows
  {
    var k := SheetMember(book, ref);
    RebuildMeans(book, writes, stamp, k);
    WrittenInMeans(book.sheets, writes, ref);
    OutputNames(loop, book, writes, stamp, out, drop);
    PartNamedAt(out.members, k);
  }

  lemma OutputSheet(loop: Loop, book: Book, writes: seq<Write>, stamp: Data -> Data, out: Book, drop: CalcChain.Drop,
                    ref: SheetRef)
    requires WellFormedBook(book) && GoodWrites(book, writes) && OutputOf(loop, book, writes, stamp, out, drop)
    requires ref in book.sheets && exists t | t in IntendedOf(writes) :: t.0 == ref.name
    ensures SheetUnchanged(book, out, ref, IntendedOf(writes))
  {
    var ws := WritesOf(writes, ref.name);
    WritesOfMeans(book, writes, ref.name);
    var t :| t in IntendedOf(writes) && t.0 == ref.name;
    var w :| w in writes && w.sheet == t.0 && w.coord == t.1;
    assert (w.coord, w.text) in ws;
    OutputRows(loop, book, writes, stamp, out, drop, ref);
    forall c: nat, n: nat | !IntendedAt(IntendedOf(writes), ref.name, c, n) ensures WriteAt(ws, c, n) == None {
      if WriteAt(ws, c, n).Some? { HitIsIntended(book, writes, ref.name, c, n); }
    }
  }

  lemma HitIsIntended(book: Book, writes: seq<Write>, sheet: string, c: nat, n: nat)
    requires GoodWrites(book, writes) && WriteAt(WritesOf(writes, sheet), c, n).Some?
    ensures IntendedAt(IntendedOf(writes), sheet, c, n)
  {
    var ws := WritesOf(writes, sheet);
    WritesOfMeans(book, writes, sheet);
    WriteAtMeans(ws, c, n);
    var hit := WriteAt(ws, c, n).value;
    assert Write(sheet, hit.0, hit.1) in writes;
    assert (sheet, hit.0) in IntendedOf(writes);
    var k :| 0 <= k < |ws| && ws[k] == hit;
    assert Canonical(hit.0);
  }

  lemma UntouchedCopied(loop: Loop, book: Book, writes: seq<Write>, stamp: Data -> Data, out: Book,
                        drop: CalcChain.Drop, k: nat)
    requires WellFormedBook(book) && GoodWrites(book, writes) && OutputOf(loop, book, writes, stamp, out, drop)
    requires k < |book.members| && !Touched(book, IntendedOf(writes), book.members[k].name)
    ensures out.members[k] == book.members[k]
  {
    if WrittenIn(book.sheets, writes, book.members[k].name).Some? {
      WrittenIsTouched(book, writes, book.members[k].name);
    }
  }

  lemma WrittenIsTouched(book: Book, writes: seq<Write>, part: string)
    requires GoodWrites(book, writes) && WrittenIn(book.sheets, writes, part).Some?
    ensures Touched(book, IntendedOf(writes), part)
  {
    var ref := WrittenIn(book.sheets, writes, part).value;
    WritesOfMeans(book, writes, ref.name);
    var w := WritesOf(writes, ref.name)[0];
    assert w in WritesOf(writes, ref.name);
    assert Write(ref.name, w.0, w.1) in writes;
    assert (ref.name, w.0) in IntendedOf(writes);
  }

  /** No chain entry the edit leaves resolves to an intended cell. */
  ghost predicate ChainsCleared(loop: Loop, book: Book, writes: seq<Write>, drop: CalcChain.Drop) {
    forall m | m in book.members && m.name == CALC_CHAIN && m.data.Chain? ::
      NoSurvivor(book, EditChain(loop, m, drop).data.entries, IntendedOf(writes))
  }

  ghost predicate NoChainSurvives(loop: Loop, book: Book, writes: seq<Write>, drop: CalcChain.Drop, m: Member) {
    m.data.Chain? ==> NoSurvivor(book, EditChain(loop, m, drop).data.entries, IntendedOf(writes))
  }

  lemma ClearedIsNoSurvivors(loop: Loop, book: Book, writes: seq<Write>, stamp: Data -> Data, out: Book,
                             drop: CalcChain.Drop)
    requires WellFormedBook(book) && OutputOf(loop, book, writes, stamp, out, drop)
    ensures NoSurvivors(book, out.members, IntendedOf(writes)) <==> ChainsCleared(loop, book, writes, drop)
  {
    NotASheet(book, writes);
    forall k | 0 <= k < |book.members| && book.members[k].name == CALC_CHAIN
      ensures out.members[k] == EditChain(loop, book.members[k], drop)
    {
    }
    OutputNames(loop, book, writes, stamp, out, drop);
    if NoSurvivors(book, out.members, IntendedOf(writes)) {
      forall m | m in book.members && m.name == CALC_CHAIN && m.data.Chain?
        ensures NoSurvivor(book, EditChain(loop, m, drop).data.entries, IntendedOf(writes))
      {
        var k :| 0 <= k < |book.members| && book.members[k] == m;
        assert out.members[k].name == CALC_CHAIN;
      }
    }
  }

  /** Good writes to a well-formed book are never refused, and the verifier accepts what was written
      exactly when the edited chain names no intended cell: sheets and parts always pass. */
  lemma AcceptedIff(loop: Loop, book: Book, writes: seq<Write>, stamp: Data -> Data) returns (drop: CalcChain.Drop)
    requires WellFormedBook(book) && GoodWrites(book, writes)
    ensures DropIs(book, writes, drop) && Written(loop, book, writes, stamp).Ok?
    ensures OutputOf(loop, book, writes, stamp, Written(loop, book, writes, stamp).value, drop)
    ensures Accepts(book, Written(loop, book, writes, stamp).value, IntendedOf(writes))
       <==> ChainsCleared(loop, book, writes, drop)
  {
    drop := WriterSucceeds(loop, book, writes, stamp);
    var out, intended := Written(loop, book, writes, stamp).value, IntendedOf(writes);
    OutputNames(loop, book, writes, stamp, out, drop);
    ClearedIsNoSurvivors(loop, book, writes, stamp, out, drop);
    forall k | 0 <= k < |book.members| && !Touched(book, intended, book.members[k].name)
      ensures out.members[k] == book.members[k]
    {
      UntouchedCopied(loop, book, writes, stamp, out, drop, k);
    }
    forall t | t in intended ensures Named(book.sheets, t.0) {
      var w :| w in writes && w.sheet == t.0 && w.coord == t.1;
    }
    forall ref | ref in book.sheets && (exists t | t in intended :: t.0 == ref.name)
      ensures SheetUnchanged(book, out, ref, intended)
    {
      OutputSheet(loop, book, writes, stamp, out, drop, ref);
    }
  }

  /** So a book whose chain names only formula cells is accepted: with the repaired loop always,
      with the loop as written when no debt is lost. */
  lemma WriterIsAccepted(loop: Loop, book: Book, writes: seq<Write>, stamp: Data -> Data)
    requires WellFormedBook(book) && GoodWrites(book, writes) && ChainNamesFormulas(book, writes)
    requires forall drop | DropIs(book, writes, drop) :: NoDebtLost(loop, book, drop)
    ensures Written(loop, book, writes, stamp).Ok?
    ensures Accepts(book, Written(loop, book, writes, stamp).value, IntendedOf(writes))
  {
    var drop := AcceptedIff(loop, book, writes, stamp);
    forall m | m in book.members && m.name == CALC_CHAIN && m.data.Chain?
      ensures NoSurvivor(book, EditChain(loop, m, drop).data.entries, IntendedOf(writes))
    {
      NoneSurvives(loop, book, writes, m, drop);
    }
  }

  lemma SameSheet(book: Book, one: SheetRef, two: SheetRef)
    requires DistinctSheets(book.sheets) && one in book.sheets && two in book.sheets
    ensures one.name == two.name || one.id == two.id ==> one == two
  {
    var i :| 0 <= i < |book.sheets| && book.sheets[i] == one;
    var j :| 0 <= j < |book.sheets| && book.sheets[j] == two;
  }

  /** Two formula cells of sheet 2 are written over, and nothing else. */
  ghost predicate WritesBoth(book: Book, writes: seq<Write>, ref: SheetRef, a: string, b: string) {
    && ref in book.sheets && ref.id == 2
    && IntendedOf(writes) == {(ref.name, a), (ref.name, b)}
    && FormulaAt(RowsOf(book, ref), a) && FormulaAt(RowsOf(book, ref), b)
  }

  lemma IntendedFormula(book: Book, writes: seq<Write>, ref: SheetRef, coord: string)
    requires ref in book.sheets && (ref.name, coord) in IntendedOf(writes) && FormulaAt(RowsOf(book, ref), coord)
    ensures OverwrittenFormula(book, writes, (ref.id, coord))
  {
  }

  lemma OverwrittenIsIntended(book: Book, writes: seq<Write>, ref: SheetRef, a: string, b: string, x: (int, string))
    requires DistinctSheets(book.sheets) && ref in book.sheets && OverwrittenFormula(book, writes, x)
    requires IntendedOf(writes) == {(ref.name, a), (ref.name, b)}
    ensures x == (ref.id, a) || x == (ref.id, b)
  {
    var other :| other in book.sheets && other.id == x.0 && (other.name, x.1) in IntendedOf(writes);
    SameSheet(book, other, ref);
  }

  lemma BothDropped(book: Book, writes: seq<Write>, ref: SheetRef, a: string, b: string, drop: CalcChain.Drop)
    requires DistinctSheets(book.sheets) && WritesBoth(book, writes, ref, a, b) && DropIs(book, writes, drop)
    ensures drop == {(2, a), (2, b)}
  {
    IntendedFormula(book, writes, ref, a);
    IntendedFormula(book, writes, ref, b);
    forall x | x in drop ensures x == (2, a) || x == (2, b) { OverwrittenIsIntended(book, writes, ref, a, b, x); }
  }

  lemma ThreeCleared(book: Book, writes: seq<Write>, ref: SheetRef, a: string, b: string, c: string, m: Member,
                     drop: CalcChain.Drop)
    requires WritesBoth(book, writes, ref, a, b) && c != a && c != b && drop == {(2, a), (2, b)}
    requires m == Member(CALC_CHAIN, Chain(CalcChain.Three(a, b, c)))
    ensures EditChain(AsIs, m, drop).data.Chain?
    ensures CalcChain.Resolve(EditChain(AsIs, m, drop).data.entries) == [(1, c)]
    ensures NoChainSurvives(AsIs, book, writes, drop, m)
  {
    CalcChain.LostDebtMovesACell(a, b, c);
  }

  lemma OnlyChainCleared(loop: Loop, book: Book, writes: seq<Write>, drop: CalcChain.Drop, k: nat)
    requires WellFormedBook(book) && k < |book.members|
    requires NoChainSurvives(loop, book, writes, drop, book.members[k])
    requires book.members[k].name == CALC_CHAIN
    ensures ChainsCleared(loop, book, writes, drop)
  {
    forall m | m in book.members && m.name == CALC_CHAIN && m.data.Chain?
      ensures NoSurvivor(book, EditChain(loop, m, drop).data.entries, IntendedOf(writes))
    {
      var j :| 0 <= j < |book.members| && book.members[j] == m;
      assert j == k;
    }
  }

  lemma OutputChain(loop: Loop, book: Book, writes: seq<Write>, stamp: Data -> Data, out: Book, drop: CalcChain.Drop,
                    k: nat)
    requires WellFormedBook(book) && OutputOf(loop, book, writes, stamp, out, drop)
    requires k < |book.members| && book.members[k].name == CALC_CHAIN
    ensures k < |out.members| && out.members[k] == EditChain(loop, book.members[k], drop)
  {
    NotASheet(book, writes);
  }

  /** The verifier does not see an entry that changed its sheet: with a and b of sheet 2 written over,
      the chain that names a, b and c of sheet 2 comes out naming c of sheet 1, and is accepted. */
  lemma MovedCellIsAccepted(book: Book, writes: seq<Write>, stamp: Data -> Data, ref: SheetRef,
                            a: string, b: string, c: string, k: nat) returns (out: Book)
    requires WellFormedBook(book) && GoodWrites(book, writes) && WritesBoth(book, writes, ref, a, b) && c != a && c != b
    requires k < |book.members| && book.members[k] == Member(CALC_CHAIN, Chain(CalcChain.Three(a, b, c)))
    ensures Written(AsIs, book, writes, stamp) == Ok(out) && Accepts(book, out, IntendedOf(writes))
    ensures k < |out.members| && out.members[k].data.Chain?
    ensures CalcChain.Resolve(out.members[k].data.entries) == [(1, c)]
  {
    var drop := AcceptedIff(AsIs, book, writes, stamp);
    out := Written(AsIs, book, writes, stamp).value;
    BothDropped(book, writes, ref, a, b, drop);
    ThreeCleared(book, writes, ref, a, b, c, book.members[k], drop);
    OnlyChainCleared(AsIs, book, writes, drop, k);
    OutputChain(AsIs, book, writes, stamp, out, drop, k);
  }

  lemma NotASheet(book: Book, writes: seq<Write>)
    requires WellFormedBook(book)
    ensures WrittenIn(book.sheets, writes, CALC_CHAIN) == None
  {
    NoneElse(book.sheets, writes, CALC_CHAIN);
  }

  // --------------------------------------------- what acceptance guarantees

  /** Whatever the writer did, an accepted output shows every sheet unchanged outside the
      intended cells: content, formulas and cached values. */
  lemma AcceptanceProtects(src: Book, out: Book, intended: Intended, ref: SheetRef)
    requires WellFormedBook(src) && Accepts(src, out, intended) && ref in src.sheets
    ensures SheetUnchanged(src, out, ref, intended)
  {
    if !exists t | t in intended :: t.0 == ref.name {
      var k := SheetMember(src, ref);
      forall other | other in src.sheets && other.part == ref.part ensures other == ref {
        var i :| 0 <= i < |src.sheets| && src.sheets[i] == other;
        var j :| 0 <= j < |src.sheets| && src.sheets[j] == ref;
      }
      assert !Touched(src, intended, ref.part);
      assert out.members[k] == src.members[k];
      PartNamedAt(out.members, k);
    }
  }
}
