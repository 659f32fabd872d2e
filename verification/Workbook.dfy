/**
  The write-back of a whole workbook and the proof it is run through
  (engine/assembly/xlsx_patch.py, `write_cells` and `assert_roundtrip`).  A part is what
  its reader sees of it; the sheet directory is the workbook part, which nothing patches.
 */
module Workbook {
  import opened Wrappers
  import opened Coordinates
  import opened SheetPatch
  import CalcChain

  datatype Data =
    | Sheet(rows: seq<Row>)
    | Chain(entries: seq<CalcChain.Entry>)
    | Other(text: string)

  datatype Member = Member(name: string, data: Data)

  datatype SheetRef = SheetRef(name: string, part: string, id: int)

  datatype Book = Book(sheets: seq<SheetRef>, members: seq<Member>)

  /** One item of {(sheet, coordinate): text}. */
  datatype Write = Write(sheet: string, coord: string, text: string)

  const CORE_PART := "docProps/core.xml"
  const CALC_CHAIN := "xl/calcChain.xml"

  // --------------------------------------------------------- well-formed books

  function PartNamed(members: seq<Member>, name: string): Option<Data> {
    if members == [] then None
    else if members[0].name == name then Some(members[0].data)
    else PartNamed(members[1..], name)
  }

  function RowsOf(book: Book, ref: SheetRef): seq<Row> {
    match PartNamed(book.members, ref.part)
    case Some(Sheet(rows)) => rows
    case _ => []
  }

  predicate HasSheet(book: Book, ref: SheetRef) {
    match PartNamed(book.members, ref.part)
    case Some(Sheet(rows)) => WellFormed(rows)
    case _ => false
  }

  predicate DistinctSheets(sheets: seq<SheetRef>) {
    forall i, j | 0 <= i < j < |sheets| ::
      && sheets[i].name != sheets[j].name && sheets[i].part != sheets[j].part && sheets[i].id != sheets[j].id
  }

  predicate WellFormedBook(book: Book) {
    && (forall i, j | 0 <= i < j < |book.members| :: book.members[i].name != book.members[j].name)
    && DistinctSheets(book.sheets)
    && (forall ref | ref in book.sheets :: ref.part != CORE_PART && ref.part != CALC_CHAIN && HasSheet(book, ref))
    && (forall m | m in book.members && m.name == CALC_CHAIN :: m.data.Chain?)
  }

  // ----------------------------------------------------------------- the write

  /** `by_sheet[sheet]`, in order. */
  function WritesOf(writes: seq<Write>, sheet: string): Writes {
    if writes == [] then []
    else
      var w := writes[|writes| - 1];
      var rest := WritesOf(writes[..|writes| - 1], sheet);
      if w.sheet == sheet then rest + [(w.coord, w.text)] else rest
  }

  predicate Named(sheets: seq<SheetRef>, name: string) {
    exists k | 0 <= k < |sheets| :: sheets[k].name == name
  }

  /** The written sheet that lives in this part. */
  function WrittenIn(sheets: seq<SheetRef>, writes: seq<Write>, part: string): (ref: Option<SheetRef>)
    ensures ref.Some? ==> ref.value in sheets && ref.value.part == part && WritesOf(writes, ref.value.name) != []
  {
    if sheets == [] then None
    else if sheets[0].part == part && WritesOf(writes, sheets[0].name) != [] then Some(sheets[0])
    else WrittenIn(sheets[1..], writes, part)
  }

  datatype Rebuilt = Rebuilt(data: Data, formulas: set<(int, string)>)

  /** One member on its way to the output; `stamp` is the metadata rule for the core part. */
  function Rebuild(book: Book, writes: seq<Write>, stamp: Data -> Data, m: Member): Result<Rebuilt, string> {
    match WrittenIn(book.sheets, writes, m.name)
    case Some(ref) =>
      if !m.data.Sheet? then Raised(m.name)
      else
        (match PatchAll(m.data.rows, WritesOf(writes, ref.name))
         case Raised(why) => Raised(why)
         case Ok(p) => Ok(Rebuilt(Sheet(p.rows), set coord | coord in p.hadFormula :: (ref.id, coord))))
    case None =>
      Ok(Rebuilt(if m.name == CORE_PART then stamp(m.data) else m.data, {}))
  }

  type Rebuilder = Member -> Result<Rebuilt, string>

  function RebuilderOf(book: Book, writes: seq<Write>, stamp: Data -> Data): Rebuilder {
    m => Rebuild(book, writes, stamp, m)
  }

  /** The first n members rebuilt in order, with the formula cells met on the way. */
  function RebuildAll(members: seq<Member>, rebuild: Rebuilder, n: nat)
    : Result<(seq<Member>, set<(int, string)>), string>
    requires n <= |members|
  {
    if n == 0 then Ok(([], {}))
    else
      match RebuildAll(members, rebuild, n - 1)
      case Raised(why) => Raised(why)
      case Ok((done, formulas)) =>
        match rebuild(members[n - 1])
        case Raised(why) => Raised(why)
        case Ok(r) => Ok((done + [Member(members[n - 1].name, r.data)], formulas + r.formulas))
  }

  /** Which chain loop runs: the one in the source, or the repaired one. */
  datatype Loop = AsIs | Fixed

  function Edit(loop: Loop, chain: seq<CalcChain.Entry>, drop: CalcChain.Drop): seq<CalcChain.Entry> {
    if loop.AsIs? then CalcChain.AsWritten(chain, drop, |chain|) else CalcChain.Repaired(chain, drop, |chain|)
  }

  function EditChain(loop: Loop, m: Member, drop: CalcChain.Drop): Member {
    if m.name == CALC_CHAIN && m.data.Chain? && drop != {} then Member(m.name, Chain(Edit(loop, m.data.entries, drop)))
    else m
  }

  function EditChains(loop: Loop, members: seq<Member>, drop: CalcChain.Drop): (r: seq<Member>)
    ensures |r| == |members|
    ensures forall k | 0 <= k < |members| :: r[k] == EditChain(loop, members[k], drop)
  {
    seq(|members|, k requires 0 <= k < |members| => EditChain(loop, members[k], drop))
  }

  function Written(loop: Loop, book: Book, writes: seq<Write>, stamp: Data -> Data): Result<Book, string> {
    if exists k | 0 <= k < |writes| :: !Named(book.sheets, writes[k].sheet) then Raised("missing sheet")
    else
      match RebuildAll(book.members, RebuilderOf(book, writes, stamp), |book.members|)
      case Raised(why) => Raised(why)
      case Ok((members, formulas)) => Ok(Book(book.sheets, EditChains(loop, members, formulas)))
  }

  /** The parts are rebuilt in the source's own order. */
  method RebuildParts(book: Book, writes: seq<Write>, stamp: Data -> Data)
    returns (r: Result<(seq<Member>, set<(int, string)>), string>)
    ensures r == RebuildAll(book.members, RebuilderOf(book, writes, stamp), |book.members|)
  {
    var rebuilt: seq<Member> := [];
    var formulas: set<(int, string)> := {};
    for n := 0 to |book.members|
      invariant RebuildAll(book.members, RebuilderOf(book, writes, stamp), n) == Ok((rebuilt, formulas))
    {
      var m := book.members[n];
      RebuildStops(book.members, RebuilderOf(book, writes, stamp), n + 1, |book.members|);
      var part := RebuildPart(book, writes, stamp, m);
      if part.Raised? { return Raised(part.why); }
      formulas := formulas + part.value.formulas;
      rebuilt := rebuilt + [Member(m.name, part.value.data)];
    }
    return Ok((rebuilt, formulas));
  }

  /** `write_cells`: the parts are rebuilt, then the chain is edited. */
  method WriteCells(book: Book, writes: seq<Write>, stamp: Data -> Data) returns (r: Result<Book, string>)
    ensures r == Written(AsIs, book, writes, stamp)
  {
    if exists k | 0 <= k < |writes| :: !Named(book.sheets, writes[k].sheet) {
      return Raised("missing sheet");
    }
    var parts := RebuildParts(book, writes, stamp);
    if parts.Raised? { return Raised(parts.why); }
    var (rebuilt, formulas) := parts.value;
    if formulas != {} {
      rebuilt := PatchChains(rebuilt, formulas);
    } else {
      assert EditChains(AsIs, rebuilt, formulas) == rebuilt;
    }
    return Ok(Book(book.sheets, rebuilt));
  }

  /** A sheet part that carries an answered cell is patched, the core part stamped, any
      other part copied. */
  method RebuildPart(book: Book, writes: seq<Write>, stamp: Data -> Data, m: Member)
    returns (r: Result<Rebuilt, string>)
    ensures r == Rebuild(book, writes, stamp, m)
  {
    var ref := WrittenIn(book.sheets, writes, m.name);
    if ref.Some? {
      if !m.data.Sheet? { return Raised(m.name); }
      var patched := PatchSheet(m.data.rows, WritesOf(writes, ref.value.name));
      if patched.Raised? { return Raised(patched.why); }
      return Ok(Rebuilt(Sheet(patched.value.rows),
                        set coord | coord in patched.value.hadFormula :: (ref.value.id, coord)));
    }
    return Ok(Rebuilt(if m.name == CORE_PART then stamp(m.data) else m.data, {}));
  }

  /** The chain part, wherever it stands, is handed to the loop of CalcChain. */
  method PatchChains(members: seq<Member>, drop: CalcChain.Drop) returns (r: seq<Member>)
    requires drop != {}
    ensures r == EditChains(AsIs, members, drop)
  {
    r := [];
    for k := 0 to |members|
      invariant |r| == k
      invariant forall i | 0 <= i < k :: r[i] == EditChain(AsIs, members[i], drop)
    {
      var m := members[k];
      if m.name == CALC_CHAIN && m.data.Chain? {
        var part := new CalcChain.Part(m.data.entries);
        part.PatchCalcChain(drop);
        m := Member(m.name, Chain(part.root));
      }
      r := r + [m];
    }
  }

  lemma {:induction false} RebuildStops(members: seq<Member>, rebuild: Rebuilder, k: nat, n: nat)
    requires k <= n <= |members|
    ensures RebuildAll(members, rebuild, k).Raised? ==>
              RebuildAll(members, rebuild, n) == RebuildAll(members, rebuild, k)
  {
    if k < n { RebuildStops(members, rebuild, k, n - 1); }
  }

  // ----------------------------------------------------------------- the proof

  /** What the two loads of a cell show: formula or value, and the cached value. */
  function Seen(cell: Option<Cell>): (Option<string>, Option<string>) {
    match cell
    case None => (None, None)
    case Some(c) => (if c.formula.Some? then c.formula else c.value, c.value)
  }

  type Intended = set<(string, string)>

  predicate IntendedAt(intended: Intended, sheet: string, column: nat, n: nat) {
    exists t | t in intended :: t.0 == sheet && Canonical(t.1) && SplitCoord(t.1) == Ok((column, n))
  }

  ghost predicate SheetUnchanged(src: Book, out: Book, ref: SheetRef, intended: Intended) {
    forall c: nat, n: nat | !IntendedAt(intended, ref.name, c, n) ::
      Seen(CellAt(RowsOf(out, ref), c, n)) == Seen(CellAt(RowsOf(src, ref), c, n))
  }

  predicate Touched(book: Book, intended: Intended, part: string) {
    || part == CORE_PART || part == CALC_CHAIN
    || exists ref | ref in book.sheets :: ref.part == part && exists t | t in intended :: t.0 == ref.name
  }

  /** No surviving entry names an intended cell. */
  ghost predicate NoSurvivor(book: Book, chain: seq<CalcChain.Entry>, intended: Intended) {
    forall ref, t | ref in book.sheets && t in intended && t.0 == ref.name ::
      (ref.id, t.1) !in CalcChain.Resolve(chain)
  }

  ghost predicate NoSurvivors(book: Book, members: seq<Member>, intended: Intended) {
    forall k | 0 <= k < |members| && members[k].name == CALC_CHAIN && members[k].data.Chain? ::
      NoSurvivor(book, members[k].data.entries, intended)
  }

  /** `assert_roundtrip` returns. */
  ghost predicate Accepts(src: Book, out: Book, intended: Intended) {
    && out.sheets == src.sheets
    && |out.members| == |src.members|
    && (forall k | 0 <= k < |src.members| :: out.members[k].name == src.members[k].name)
    && (forall k | 0 <= k < |src.members| && !Touched(src, intended, src.members[k].name) ::
          out.members[k] == src.members[k])
    && (forall t | t in intended :: Named(src.sheets, t.0))
    && NoSurvivors(src, out.members, intended)
    && (forall ref | ref in src.sheets && (exists t | t in intended :: t.0 == ref.name) ::
          SheetUnchanged(src, out, ref, intended))
  }
}
