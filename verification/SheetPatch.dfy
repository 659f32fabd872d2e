/**
  Setting cells of one sheet (engine/assembly/xlsx_patch.py, `patch_sheet`).  Rows stand in
  row order and cells in column order (ECMA-376 Part 1, sections 18.3.1.73 and 18.3.1.4).
 */
module SheetPatch {
  import opened Wrappers
  import opened Coordinates
  import opened Ordered

  /** A formula's value is its cached value. */
  datatype Cell = Cell(ref: string, style: Option<string>, formula: Option<string>, value: Option<string>)

  datatype Row = Row(r: nat, cells: seq<Cell>)

  type Writes = seq<(string, string)>

  function ColumnOf(cell: Cell): nat {
    if Matches(cell.ref) then SplitCoord(cell.ref).value.0 else 0
  }

  function RowNumber(row: Row): nat { row.r }

  // ------------------------------------------------------- well-formed sheets

  predicate InRow(cell: Cell, row: nat) { Canonical(cell.ref) && SplitCoord(cell.ref).value.1 == row }

  predicate Addressed(cells: seq<Cell>, row: nat) { forall k | 0 <= k < |cells| :: InRow(cells[k], row) }

  predicate RowWellFormed(row: Row) {
    Addressed(row.cells, row.r) && Increasing(row.cells, ColumnOf)
  }

  predicate WellFormed(rows: seq<Row>) {
    && Increasing(rows, RowNumber)
    && forall k | 0 <= k < |rows| :: RowWellFormed(rows[k])
  }

  function CellAt(rows: seq<Row>, column: nat, n: nat): Option<Cell> {
    match Find(rows, RowNumber, n)
    case None => None
    case Some(row) => Find(row.cells, ColumnOf, column)
  }

  predicate HasRow(rows: seq<Row>, n: nat) {
    Find(rows, RowNumber, n).Some?
  }

  // ----------------------------------------------------------------- one write

  /** The cell written: the old style kept, the old content gone. */
  function Inline(coord: string, before: Option<Cell>, text: string): Cell {
    Cell(coord, if before.Some? then before.value.style else None, None, Some(text))
  }

  /** The first cell with this very reference, or the number of cells. */
  function FindRef(cells: seq<Cell>, coord: string): (i: nat)
    ensures i <= |cells|
    ensures i < |cells| ==> cells[i].ref == coord
  {
    if cells == [] || cells[0].ref == coord then 0 else 1 + FindRef(cells[1..], coord)
  }

  function FirstMalformed(cells: seq<Cell>): Option<string> {
    if cells == [] then None
    else if !Matches(cells[0].ref) then Some(cells[0].ref)
    else FirstMalformed(cells[1..])
  }

  /** The dictionary of rows by number keeps the last of equal numbers. */
  function RowIndex(rows: seq<Row>, n: nat): (i: Option<nat>)
    ensures i.Some? ==> i.value < |rows| && rows[i.value].r == n
  {
    if rows == [] then None
    else if rows[|rows| - 1].r == n then Some(|rows| - 1)
    else RowIndex(rows[..|rows| - 1], n)
  }

  /** `min(later, ...)`: the place of the lowest-numbered row after n, or the number of rows. */
  function NextRow(rows: seq<Row>, n: nat): (i: nat)
    ensures i <= |rows|
  {
    if rows == [] then 0
    else
      var j := 1 + NextRow(rows[1..], n);
      if rows[0].r > n && (j == |rows| || rows[0].r <= rows[j].r) then 0 else j
  }

  /** The row a write lands in, inserted in row order when missing, and where it is. */
  function WithRow(rows: seq<Row>, n: nat): (r: (seq<Row>, nat))
    ensures r.1 < |r.0| && r.0[r.1].r == n
  {
    match RowIndex(rows, n)
    case Some(i) => (rows, i)
    case None => (InsertAt(rows, NextRow(rows, n), Row(n, [])), NextRow(rows, n))
  }

  function PatchCells(cells: seq<Cell>, coord: string, column: nat, text: string): Result<seq<Cell>, string> {
    var i := FindRef(cells, coord);
    if i < |cells| then Ok(cells[i := Inline(coord, Some(cells[i]), text)])
    else if FirstMalformed(cells).Some? then Raised(FirstMalformed(cells).value)
    else Ok(InsertAt(cells, Rank(cells, ColumnOf, column), Inline(coord, None, text)))
  }

  predicate HadFormula(cells: seq<Cell>, coord: string) {
    var i := FindRef(cells, coord);
    i < |cells| && cells[i].formula.Some?
  }

  datatype Patched = Patched(rows: seq<Row>, hadFormula: bool)

  function PatchOne(rows: seq<Row>, coord: string, text: string): Result<Patched, string> {
    match SplitCoord(coord)
    case Raised(why) => Raised(why)
    case Ok((column, n)) =>
      var (wide, i) := WithRow(rows, n);
      match PatchCells(wide[i].cells, coord, column, text)
      case Raised(why) => Raised(why)
      case Ok(cells) => Ok(Patched(wide[i := Row(n, cells)], HadFormula(wide[i].cells, coord)))
  }

  // --------------------------------------------------------- cells of one row

  /** Looking a reference up by its text is looking it up by its column. */
  lemma {:induction false} FindRefByColumn(cells: seq<Cell>, row: nat, coord: string)
    requires Addressed(cells, row) && Canonical(coord) && SplitCoord(coord).value.1 == row
    ensures FirstMalformed(cells) == None
    ensures var i, column := FindRef(cells, coord), SplitCoord(coord).value.0;
            Find(cells, ColumnOf, column) == if i < |cells| then Some(cells[i]) else None
  {
    if cells != [] {
      if cells[0].ref != coord && ColumnOf(cells[0]) == SplitCoord(coord).value.0 {
        SplitCoordInjective(cells[0].ref, coord);
      }
      assert ColumnOf(cells[0]) == SplitCoord(cells[0].ref).value.0;
      FindRefByColumn(cells[1..], row, coord);
    }
  }

  /** What a patched row keeps, wherever the cell was. */
  predicate Patching(row: Row, column: nat, cell: Cell, after: seq<Cell>) {
    RowWellFormed(Row(row.r, after)) && Find(after, ColumnOf, column) == Some(cell)
  }

  lemma PatchPresent(row: Row, i: nat, cell: Cell)
    requires RowWellFormed(row) && i < |row.cells| && Addressed([cell], row.r)
        && ColumnOf(cell) == ColumnOf(row.cells[i])
    ensures Patching(row, ColumnOf(cell), cell, row.cells[i := cell])
    ensures forall c: nat | c != ColumnOf(cell) ::
        Find(row.cells[i := cell], ColumnOf, c) == Find(row.cells, ColumnOf, c)
  {
    AddressedReplace(row.cells, row.r, i, cell);
    ReplaceMeans(row.cells, ColumnOf, i, cell);
  }

  lemma PatchAbsent(row: Row, cell: Cell)
    requires RowWellFormed(row) && Addressed([cell], row.r) && Find(row.cells, ColumnOf, ColumnOf(cell)).None?
    ensures var after := InsertAt(row.cells, Rank(row.cells, ColumnOf, ColumnOf(cell)), cell);
            && Patching(row, ColumnOf(cell), cell, after)
            && forall c: nat | c != ColumnOf(cell) :: Find(after, ColumnOf, c) == Find(row.cells, ColumnOf, c)
  {
    AddressedInsert(row.cells, row.r, Rank(row.cells, ColumnOf, ColumnOf(cell)), cell);
    InsertMeans(row.cells, ColumnOf, cell);
  }

  /** One row, one write: order kept, the cell reads back, the others are untouched. */
  lemma PatchCellsMeans(row: Row, coord: string, text: string)
    requires RowWellFormed(row) && Canonical(coord) && SplitCoord(coord).value.1 == row.r
    ensures var column := SplitCoord(coord).value.0;
            var before := Find(row.cells, ColumnOf, column);
            var patched := PatchCells(row.cells, coord, column, text);
            && patched.Ok?
            && RowWellFormed(Row(row.r, patched.value))
            && Find(patched.value, ColumnOf, column) == Some(Inline(coord, before, text))
            && (forall c: nat | c != column :: Find(patched.value, ColumnOf, c) == Find(row.cells, ColumnOf, c))
            && (HadFormula(row.cells, coord) <==> before.Some? && before.value.formula.Some?)
  {
    FindRefByColumn(row.cells, row.r, coord);
    var i := FindRef(row.cells, coord);
    if i < |row.cells| {
      PatchPresent(row, i, Inline(coord, Some(row.cells[i]), text));
    } else {
      PatchAbsent(row, Inline(coord, None, text));
    }
  }

  lemma AddressedReplace(cells: seq<Cell>, row: nat, i: nat, cell: Cell)
    requires Addressed(cells, row) && Addressed([cell], row) && i < |cells|
    ensures Addressed(cells[i := cell], row)
  {
    assert [cell][0] == cell;
  }

  lemma AddressedInsert(cells: seq<Cell>, row: nat, i: nat, cell: Cell)
    requires Addressed(cells, row) && Addressed([cell], row) && i <= |cells|
    ensures Addressed(InsertAt(cells, i, cell), row)
  {
    assert [cell][0] == cell;
    var t := InsertAt(cells, i, cell);
    forall k | 0 <= k < |t| ensures InRow(t[k], row) {
      if k != i { assert t[k] == cells[if k < i then k else k - 1]; }
    }
  }

  // ------------------------------------------------------------ rows of a sheet

  lemma {:induction false} RowIndexIsFind(rows: seq<Row>, n: nat)
    requires Increasing(rows, RowNumber)
    ensures Find(rows, RowNumber, n) == if RowIndex(rows, n).Some? then Some(rows[RowIndex(rows, n).value]) else None
  {
    FindMeans(rows, RowNumber, n);
    if rows != [] && rows[|rows| - 1].r != n {
      var init := rows[..|rows| - 1];
      RowIndexIsFind(init, n);
      FindMeans(init, RowNumber, n);
      assert rows == init + [rows[|rows| - 1]];
    }
  }

  lemma {:induction false} NextRowIsRank(rows: seq<Row>, n: nat)
    requires Increasing(rows, RowNumber)
    ensures NextRow(rows, n) == Rank(rows, RowNumber, n)
  {
    if rows != [] {
      NextRowIsRank(rows[1..], n);
      var j := NextRow(rows[1..], n);
      assert j < |rows[1..]| ==> rows[1..][j] == rows[j + 1] && rows[0].r < rows[j + 1].r;
      if rows[0].r <= n {
      }
    }
  }

  lemma WithRowMeans(rows: seq<Row>, n: nat)
    requires WellFormed(rows)
    ensures var (wide, i) := WithRow(rows, n);
            && WellFormed(wide)
            && (forall k: nat | k != n :: Find(wide, RowNumber, k) == Find(rows, RowNumber, k))
            && (forall c: nat :: Find(wide[i].cells, ColumnOf, c) == CellAt(rows, c, n))
  {
    RowIndexIsFind(rows, n);
    NextRowIsRank(rows, n);
    if RowIndex(rows, n).None? {
      InsertMeans(rows, RowNumber, Row(n, []));
    }
  }

  /** New cells for one row: read from them there, and as before in the other rows. */
  lemma RowReplaced(rows: seq<Row>, i: nat, row: Row)
    requires WellFormed(rows) && i < |rows| && rows[i].r == row.r && RowWellFormed(row)
    ensures WellFormed(rows[i := row])
    ensures forall c: nat :: CellAt(rows[i := row], c, row.r) == Find(row.cells, ColumnOf, c)
    ensures forall c: nat, k: nat | k != row.r :: CellAt(rows[i := row], c, k) == CellAt(rows, c, k)
    ensures forall k: nat :: HasRow(rows[i := row], k) <==> HasRow(rows, k) || k == row.r
  {
    ReplaceMeans(rows, RowNumber, i, row);
  }

  lemma WithRowCells(rows: seq<Row>, n: nat)
    requires WellFormed(rows)
    ensures var wide := WithRow(rows, n).0;
            && (forall c: nat, k: nat | k != n :: CellAt(wide, c, k) == CellAt(rows, c, k))
            && (forall k: nat | k != n :: HasRow(wide, k) <==> HasRow(rows, k))
  {
    WithRowMeans(rows, n);
  }

  /** One write to a well-formed sheet at a canonical coordinate. */
  lemma PatchOneMeans(rows: seq<Row>, coord: string, text: string)
    requires WellFormed(rows) && Canonical(coord)
    ensures var (column, n) := SplitCoord(coord).value;
            var before := CellAt(rows, column, n);
            var r := PatchOne(rows, coord, text);
            && r.Ok?
            && WellFormed(r.value.rows)
            && CellAt(r.value.rows, column, n) == Some(Inline(coord, before, text))
            && (forall c: nat, k: nat | c != column || k != n :: CellAt(r.value.rows, c, k) == CellAt(rows, c, k))
            && (forall k: nat :: HasRow(r.value.rows, k) <==> HasRow(rows, k) || k == n)
            && (r.value.hadFormula <==> before.Some? && before.value.formula.Some?)
  {
    var (column, n) := SplitCoord(coord).value;
    var (wide, i) := WithRow(rows, n);
    WithRowMeans(rows, n);
    WithRowCells(rows, n);
    PatchCellsMeans(wide[i], coord, text);
    var cells := PatchCells(wide[i].cells, coord, column, text).value;
    RowReplaced(wide, i, Row(n, cells));
  }

  lemma {:induction false} AddressedMatch(cells: seq<Cell>, row: nat, coord: string)
    requires Addressed(cells, row) && !Canonical(coord)
    ensures FirstMalformed(cells) == None && FindRef(cells, coord) == |cells|
  {
    if cells != [] {
      assert Canonical(cells[0].ref);
      AddressedMatch(cells[1..], row, coord);
    }
  }

  /** The sheet stays well formed exactly when the accepted coordinate is canonical:
      "A01" would add a second cell in the column of "A1". */
  lemma CanonicalDecides(rows: seq<Row>, coord: string, text: string)
    requires WellFormed(rows) && Matches(coord)
    ensures PatchOne(rows, coord, text).Ok?
    ensures WellFormed(PatchOne(rows, coord, text).value.rows) <==> Canonical(coord)
  {
    if Canonical(coord) {
      PatchOneMeans(rows, coord, text);
    } else {
      var (column, n) := SplitCoord(coord).value;
      WithRowMeans(rows, n);
      var (wide, i) := WithRow(rows, n);
      AddressedMatch(wide[i].cells, n, coord);
      var at := Rank(wide[i].cells, ColumnOf, column);
      var after := PatchOne(rows, coord, text).value.rows;
      assert after[i].cells[at].ref == coord;
    }
  }

  /** What a reader of the sheet relies on: rows in row order, cells in column order. */
  predicate InOrder(rows: seq<Row>) {
    && Increasing(rows, RowNumber)
    && forall k | 0 <= k < |rows| :: Increasing(rows[k].cells, ColumnOf)
  }

  lemma OddCellOrder(row: Row, coord: string, text: string)
    requires RowWellFormed(row) && Matches(coord) && !Canonical(coord)
    ensures var column := SplitCoord(coord).value.0;
            var patched := PatchCells(row.cells, coord, column, text);
            && patched.Ok?
            && (Increasing(patched.value, ColumnOf) <==> Find(row.cells, ColumnOf, column).None?)
  {
    AddressedMatch(row.cells, row.r, coord);
    var cell := Inline(coord, None, text);
    var at := Rank(row.cells, ColumnOf, ColumnOf(cell));
    if Find(row.cells, ColumnOf, ColumnOf(cell)).None? {
      InsertIncreases(row.cells, ColumnOf, cell);
    } else {
      InsertTwice(row.cells, ColumnOf, at, cell);
    }
  }

  /** The rows and columns stay in strict order exactly when the coordinate is canonical or
      names a cell the sheet does not have: "A01" goes in beside an "A1" it does not see. */
  lemma OrderKeptIff(rows: seq<Row>, coord: string, text: string)
    requires WellFormed(rows) && Matches(coord)
    ensures PatchOne(rows, coord, text).Ok?
    ensures var (column, n) := SplitCoord(coord).value;
            InOrder(PatchOne(rows, coord, text).value.rows) <==> Canonical(coord) || CellAt(rows, column, n).None?
  {
    if Canonical(coord) {
      PatchOneMeans(rows, coord, text);
    } else {
      var (column, n) := SplitCoord(coord).value;
      WithRowMeans(rows, n);
      var (wide, i) := WithRow(rows, n);
      OddCellOrder(wide[i], coord, text);
      assert Find(wide[i].cells, ColumnOf, column) == CellAt(rows, column, n);
      var cells := PatchCells(wide[i].cells, coord, column, text).value;
      var after := wide[i := Row(n, cells)];
      assert after[i].cells == cells;
      assert forall k | 0 <= k < |after| && k != i :: after[k] == wide[k];
    }
  }

  // ------------------------------------------------------------- many writes

  datatype PatchedSheet = PatchedSheet(rows: seq<Row>, hadFormula: seq<string>)

  function PatchAll(rows: seq<Row>, writes: Writes): Result<PatchedSheet, string> {
    if writes == [] then Ok(PatchedSheet(rows, []))
    else
      var (coord, text) := writes[|writes| - 1];
      match PatchAll(rows, writes[..|writes| - 1])
      case Raised(why) => Raised(why)
      case Ok(sheet) =>
        match PatchOne(sheet.rows, coord, text)
        case Raised(why) => Raised(why)
        case Ok(p) => Ok(PatchedSheet(p.rows, if p.hadFormula then sheet.hadFormula + [coord] else sheet.hadFormula))
  }

  /** The writes are applied in dictionary order; a refused coordinate abandons the part. */
  method PatchSheet(sheet: seq<Row>, writes: Writes) returns (r: Result<PatchedSheet, string>)
    ensures r == PatchAll(sheet, writes)
  {
    var rows := sheet;
    var hadFormula: seq<string> := [];
    for k := 0 to |writes|
      invariant PatchAll(sheet, writes[..k]) == Ok(PatchedSheet(rows, hadFormula))
    {
      var (coord, text) := writes[k];
      assert writes[..k + 1][..k] == writes[..k];
      PatchAllStops(sheet, writes, k + 1);
      match PatchOne(rows, coord, text) {
        case Raised(why) =>
          return Raised(why);
        case Ok(p) =>
          rows := p.rows;
          if p.hadFormula {
            hadFormula := hadFormula + [coord];
          }
      }
    }
    assert writes[..|writes|] == writes;
    return Ok(PatchedSheet(rows, hadFormula));
  }

  lemma {:induction false} PatchAllStops(rows: seq<Row>, writes: Writes, k: nat)
    requires k <= |writes|
    ensures PatchAll(rows, writes[..k]).Raised? ==> PatchAll(rows, writes) == PatchAll(rows, writes[..k])
    decreases |writes|
  {
    if k < |writes| {
      var init := writes[..|writes| - 1];
      assert init[..k] == writes[..k];
      PatchAllStops(rows, init, k);
    } else {
      assert writes[..k] == writes;
    }
  }

  /** A dictionary of writes at canonical coordinates. */
  ghost predicate Dictionary(writes: Writes) {
    && (forall k | 0 <= k < |writes| :: Canonical(writes[k].0))
    && (forall i, j | 0 <= i < j < |writes| :: writes[i].0 != writes[j].0)
  }

  predicate Hits(write: (string, string), column: nat, n: nat) {
    SplitCoord(write.0) == Ok((column, n))
  }

  /** The write to a cell, if there is one. */
  function WriteAt(writes: Writes, column: nat, n: nat): Option<(string, string)> {
    if writes == [] then None
    else if Hits(writes[|writes| - 1], column, n) then Some(writes[|writes| - 1])
    else WriteAt(writes[..|writes| - 1], column, n)
  }

  function Wanted(before: Option<Cell>, write: Option<(string, string)>): Option<Cell> {
    match write
    case None => before
    case Some((coord, text)) => Some(Inline(coord, before, text))
  }

  predicate WritesRow(writes: Writes, n: nat) {
    exists k | 0 <= k < |writes| :: RowOf(writes[k].0) == n
  }

  function RowOf(coord: string): nat {
    if Matches(coord) then SplitCoord(coord).value.1 else 0
  }

  predicate IsFormula(cell: Option<Cell>) { cell.Some? && cell.value.formula.Some? }

  predicate WritesCell(writes: Writes, coord: string) {
    exists k | 0 <= k < |writes| :: writes[k].0 == coord
  }

  /** Every cell reads back as wanted: written with its old style, or untouched. */
  ghost predicate CellsSet(rows: seq<Row>, writes: Writes, after: seq<Row>) {
    forall c: nat, n: nat :: CellAt(after, c, n) == Wanted(CellAt(rows, c, n), WriteAt(writes, c, n))
  }

  ghost predicate RowsSet(rows: seq<Row>, writes: Writes, after: seq<Row>) {
    forall n: nat :: HasRow(after, n) <==> HasRow(rows, n) || WritesRow(writes, n)
  }

  ghost predicate FormulasListed(rows: seq<Row>, writes: Writes, hadFormula: seq<string>) {
    forall coord :: coord in hadFormula <==> WritesCell(writes, coord) && FormulaAt(rows, coord)
  }

  /** The order, the cells, the rows and the formula list after a dictionary of writes. */
  ghost predicate Sets(rows: seq<Row>, writes: Writes, after: PatchedSheet) {
    && WellFormed(after.rows)
    && CellsSet(rows, writes, after.rows)
    && RowsSet(rows, writes, after.rows)
    && FormulasListed(rows, writes, after.hadFormula)
  }

  predicate FormulaAt(rows: seq<Row>, coord: string) {
    SplitCoord(coord).Ok? && IsFormula(CellAt(rows, SplitCoord(coord).value.0, SplitCoord(coord).value.1))
  }

  lemma {:induction false} WriteAtMeans(writes: Writes, column: nat, n: nat)
    requires Dictionary(writes)
    ensures WriteAt(writes, column, n).Some? ==>
              WriteAt(writes, column, n).value in writes && Hits(WriteAt(writes, column, n).value, column, n)
    ensures forall k | 0 <= k < |writes| && Hits(writes[k], column, n) :: WriteAt(writes, column, n) == Some(writes[k])
  {
    if writes != [] {
      var init, last := writes[..|writes| - 1], writes[|writes| - 1];
      WriteAtMeans(init, column, n);
      forall k | 0 <= k < |writes| && Hits(writes[k], column, n) ensures WriteAt(writes, column, n) == Some(writes[k]) {
        if k < |init| {
          assert init[k] == writes[k];
          if Hits(last, column, n) { SplitCoordInjective(writes[k].0, last.0); }
        }
      }
    }
  }

  /** Any dictionary of writes to a well-formed sheet succeeds and does exactly this. */
  lemma {:induction false} PatchAllSets(rows: seq<Row>, writes: Writes)
    requires WellFormed(rows) && Dictionary(writes)
    ensures PatchAll(rows, writes).Ok? && Sets(rows, writes, PatchAll(rows, writes).value)
  {
    if writes != [] {
      var init := writes[..|writes| - 1];
      PatchAllSets(rows, init);
      LastWriteSets(rows, writes, PatchAll(rows, init).value);
    }
  }

  lemma LastWriteSets(rows: seq<Row>, writes: Writes, sheet: PatchedSheet)
    requires writes != [] && Dictionary(writes) && WellFormed(rows)
    requires PatchAll(rows, writes[..|writes| - 1]) == Ok(sheet)
    requires Sets(rows, writes[..|writes| - 1], sheet)
    ensures PatchAll(rows, writes).Ok? && Sets(rows, writes, PatchAll(rows, writes).value)
  {
    var (coord, text) := writes[|writes| - 1];
    PatchOneMeans(sheet.rows, coord, text);
    var p := PatchOne(sheet.rows, coord, text).value;
    NotYetWritten(writes);
    LastCell(rows, writes, sheet.rows, p.rows);
    LastFormula(rows, writes, sheet.rows, p.hadFormula);
    LastRowSet(rows, writes, sheet.rows, p.rows);
    LastFormulaListed(rows, writes, sheet.hadFormula, p.hadFormula);
  }

  lemma LastRowSet(rows: seq<Row>, writes: Writes, sheet: seq<Row>, after: seq<Row>)
    requires writes != [] && RowsSet(rows, writes[..|writes| - 1], sheet)
    requires forall n: nat :: HasRow(after, n) <==> HasRow(sheet, n) || n == RowOf(writes[|writes| - 1].0)
    ensures RowsSet(rows, writes, after)
  {
    LastRow(writes);
  }

  lemma LastFormulaListed(rows: seq<Row>, writes: Writes, listed: seq<string>, had: bool)
    requires writes != [] && FormulasListed(rows, writes[..|writes| - 1], listed)
    requires had <==> FormulaAt(rows, writes[|writes| - 1].0)
    ensures FormulasListed(rows, writes, if had then listed + [writes[|writes| - 1].0] else listed)
  {
    LastRow(writes);
  }

  lemma NotYetWritten(writes: Writes)
    requires writes != [] && Dictionary(writes)
    ensures var (column, n) := SplitCoord(writes[|writes| - 1].0).value;
            WriteAt(writes[..|writes| - 1], column, n) == None
  {
    var init, last := writes[..|writes| - 1], writes[|writes| - 1];
    var (column, n) := SplitCoord(last.0).value;
    WriteAtMeans(init, column, n);
    if WriteAt(init, column, n).Some? {
      SplitCoordInjective(WriteAt(init, column, n).value.0, last.0);
    }
  }

  lemma LastCell(rows: seq<Row>, writes: Writes, sheet: seq<Row>, after: seq<Row>)
    requires writes != [] && Matches(writes[|writes| - 1].0)
    requires CellsSet(rows, writes[..|writes| - 1], sheet)
    requires var (coord, text) := writes[|writes| - 1];
             var (column, n) := SplitCoord(coord).value;
             && WriteAt(writes[..|writes| - 1], column, n) == None
             && CellAt(after, column, n) == Some(Inline(coord, CellAt(sheet, column, n), text))
             && forall c: nat, k: nat | c != column || k != n :: CellAt(after, c, k) == CellAt(sheet, c, k)
    ensures CellsSet(rows, writes, after)
  {
  }

  lemma LastRow(writes: Writes)
    requires writes != []
    ensures forall n: nat :: WritesRow(writes, n)
                        <==> WritesRow(writes[..|writes| - 1], n) || n == RowOf(writes[|writes| - 1].0)
    ensures forall coord :: WritesCell(writes, coord)
                       <==> WritesCell(writes[..|writes| - 1], coord) || coord == writes[|writes| - 1].0
  {
    var init, last := writes[..|writes| - 1], writes[|writes| - 1];
    assert forall k | 0 <= k < |init| :: writes[k] == init[k];
    assert writes[|init|] == last;
  }

  lemma LastFormula(rows: seq<Row>, writes: Writes, sheet: seq<Row>, had: bool)
    requires writes != [] && Matches(writes[|writes| - 1].0)
    requires CellsSet(rows, writes[..|writes| - 1], sheet)
    requires var (column, n) := SplitCoord(writes[|writes| - 1].0).value;
             && WriteAt(writes[..|writes| - 1], column, n) == None
             && (had <==> IsFormula(CellAt(sheet, column, n)))
    ensures had <==> FormulaAt(rows, writes[|writes| - 1].0)
  {
  }

  // -------------------------------------------------------------- one result

  /** A well-formed sheet is determined by its cells and its rows. */
  lemma SheetDetermined(a: seq<Row>, b: seq<Row>)
    requires WellFormed(a) && WellFormed(b)
    requires forall c: nat, n: nat :: CellAt(a, c, n) == CellAt(b, c, n)
    requires forall n: nat :: HasRow(a, n) <==> HasRow(b, n)
    ensures a == b
  {
    forall n: nat ensures Find(a, RowNumber, n) == Find(b, RowNumber, n) {
      FindMeans(a, RowNumber, n);
      FindMeans(b, RowNumber, n);
      if HasRow(a, n) {
        assert HasRow(b, n);
        var p, q := Find(a, RowNumber, n).value, Find(b, RowNumber, n).value;
        forall c: nat ensures Find(p.cells, ColumnOf, c) == Find(q.cells, ColumnOf, c) {
          assert CellAt(a, c, n) == CellAt(b, c, n);
        }
        Extensional(p.cells, q.cells, ColumnOf);
      } else {
        assert !HasRow(b, n);
      }
    }
    Extensional(a, b, RowNumber);
  }

  /** The order of the writes does not matter. */
  lemma WriteOrderIrrelevant(rows: seq<Row>, writes: Writes, others: Writes)
    requires WellFormed(rows) && Dictionary(writes) && Dictionary(others)
    requires forall w :: w in writes <==> w in others
    ensures PatchAll(rows, writes).Ok? && PatchAll(rows, others).Ok?
    ensures PatchAll(rows, writes).value.rows == PatchAll(rows, others).value.rows
    ensures forall coord :: coord in PatchAll(rows, writes).value.hadFormula
                       <==> coord in PatchAll(rows, others).value.hadFormula
  {
    PatchAllSets(rows, writes);
    PatchAllSets(rows, others);
    var a, b := PatchAll(rows, writes).value, PatchAll(rows, others).value;
    forall c: nat, n: nat ensures CellAt(a.rows, c, n) == CellAt(b.rows, c, n) {
      WriteAtMeans(writes, c, n);
      WriteAtMeans(others, c, n);
    }
    SameRowsAndCoords(writes, others);
    SheetDetermined(a.rows, b.rows);
  }

  lemma SameRowsAndCoords(writes: Writes, others: Writes)
    requires forall w :: w in writes <==> w in others
    ensures forall n: nat :: WritesRow(writes, n) <==> WritesRow(others, n)
    ensures forall coord :: WritesCell(writes, coord) <==> WritesCell(others, coord)
  {
    forall k | 0 <= k < |writes| ensures exists j | 0 <= j < |others| :: others[j] == writes[k] {
      assert writes[k] in others;
    }
    forall k | 0 <= k < |others| ensures exists j | 0 <= j < |writes| :: writes[j] == others[k] {
      assert others[k] in writes;
    }
  }
}
