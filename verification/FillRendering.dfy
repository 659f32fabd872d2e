/** What a hand-completed table shows (engine/assembly/template_fill.py, hand_fill.py). */
module FillRendering {
  import opened Wrappers

  type Rows = seq<seq<string>>

  datatype Field = Field(key: string, caption: string, row: Option<nat>, column: Option<nat>)

  datatype Shape = Record | Grid

  datatype Slot = Slot(id: string, shape: Shape, question: string, fields: seq<Field>)

  /** A record's texts by field key, or a table's entries, each a list of (key, text). */
  datatype Value = Value(texts: map<string, string>, entries: seq<seq<(string, string)>>)

  const OUT_OF_RANGE := "list index out of range"

  // ---------------------------------------------------------------- records

  /** The text a field puts into the table, if it is addressed and filled. */
  function TextOf(field: Field, texts: map<string, string>): Option<string> {
    if field.row.None? || field.column.None? || field.key !in texts || texts[field.key] == "" then None
    else Some(texts[field.key])
  }

  predicate Addresses(field: Field, r: nat, c: nat) {
    field.row == Some(r) && field.column == Some(c)
  }

  predicate InRange(rows: Rows, field: Field) {
    field.row.Some? && field.column.Some? && field.row.value < |rows| && field.column.value < |rows[field.row.value]|
  }

  function PutFields(rows: Rows, fields: seq<Field>, texts: map<string, string>): Result<Rows, string> {
    if fields == [] then Ok(rows)
    else
      var field := fields[|fields| - 1];
      match PutFields(rows, fields[..|fields| - 1], texts)
      case Raised(why) => Raised(why)
      case Ok(put) =>
        match TextOf(field, texts)
        case None => Ok(put)
        case Some(text) =>
          if !InRange(put, field) then Raised(OUT_OF_RANGE)
          else Ok(put[field.row.value := put[field.row.value][field.column.value := text]])
  }

  /** The text the fields leave at a cell: the last filled field addressed there. */
  function TextAt(fields: seq<Field>, texts: map<string, string>, r: nat, c: nat): Option<string> {
    if fields == [] then None
    else
      var field := fields[|fields| - 1];
      if Addresses(field, r, c) && TextOf(field, texts).Some? then TextOf(field, texts)
      else TextAt(fields[..|fields| - 1], texts, r, c)
  }

  predicate SameShape(a: Rows, b: Rows) {
    |a| == |b| && forall r | 0 <= r < |a| :: |a[r]| == |b[r]|
  }

  method RecordRows(tableRows: Rows, slot: Slot, value: Value, dropHeader: bool) returns (r: Result<Rows, string>)
    ensures r == RecordOf(tableRows, slot, value, dropHeader)
  {
    var rows := tableRows;
    for k := 0 to |slot.fields|
      invariant PutFields(tableRows, slot.fields[..k], value.texts) == Ok(rows)
    {
      var field := slot.fields[k];
      assert slot.fields[..k + 1][..k] == slot.fields[..k];
      PutStops(tableRows, slot.fields, value.texts, k + 1);
      if field.row.None? || field.column.None? { continue; }
      if field.key in value.texts && value.texts[field.key] != "" {
        if !InRange(rows, field) { return Raised(OUT_OF_RANGE); }
        rows := rows[field.row.value := rows[field.row.value][field.column.value := value.texts[field.key]]];
      }
    }
    assert slot.fields[..|slot.fields|] == slot.fields;
    return Ok(if dropHeader then Tail(rows) else rows);
  }

  function Tail(rows: Rows): Rows {
    if rows == [] then [] else rows[1..]
  }

  function RecordOf(tableRows: Rows, slot: Slot, value: Value, dropHeader: bool): Result<Rows, string> {
    match PutFields(tableRows, slot.fields, value.texts)
    case Raised(why) => Raised(why)
    case Ok(rows) => Ok(if dropHeader then Tail(rows) else rows)
  }

  lemma {:induction false} PutStops(rows: Rows, fields: seq<Field>, texts: map<string, string>, k: nat)
    requires k <= |fields|
    ensures PutFields(rows, fields[..k], texts).Raised? ==>
              PutFields(rows, fields, texts) == PutFields(rows, fields[..k], texts)
    decreases |fields|
  {
    if k < |fields| {
      assert fields[..|fields| - 1][..k] == fields[..k];
      PutStops(rows, fields[..|fields| - 1], texts, k);
    } else {
      assert fields[..k] == fields;
    }
  }

  /** Every cell reads its field's text, or is the template's; the shape does not change. */
  lemma {:induction false} PutFieldsMeans(rows: Rows, fields: seq<Field>, texts: map<string, string>)
    requires PutFields(rows, fields, texts).Ok?
    ensures var put := PutFields(rows, fields, texts).value;
            && SameShape(put, rows)
            && forall r, c | 0 <= r < |rows| && 0 <= c < |rows[r]| ::
                 put[r][c] == match TextAt(fields, texts, r, c) case None => rows[r][c] case Some(text) => text
  {
    if fields != [] {
      PutFieldsMeans(rows, fields[..|fields| - 1], texts);
    }
  }

  // ------------------------------------------------------------------- grids

  /** `column_of`: a repeated key keeps its last field. */
  function ColumnOf(fields: seq<Field>, key: string): Option<nat> {
    if fields == [] then None
    else if fields[|fields| - 1].key == key then fields[|fields| - 1].column
    else ColumnOf(fields[..|fields| - 1], key)
  }

  function EntryRow(fields: seq<Field>, width: nat, entry: seq<(string, string)>): (row: seq<string>)
    ensures |row| == width
  {
    if entry == [] then seq(width, _ => "")
    else
      var (key, text) := entry[|entry| - 1];
      var row := EntryRow(fields, width, entry[..|entry| - 1]);
      match ColumnOf(fields, key)
      case None => row
      case Some(c) => if c < width && text != "" then row[c := text] else row
  }

  function GridOf(tableRows: Rows, slot: Slot, entries: seq<seq<(string, string)>>): Rows
    requires tableRows != []
  {
    [tableRows[0]]
    + seq(|entries|, k requires 0 <= k < |entries| => EntryRow(slot.fields, |tableRows[0]|, entries[k]))
  }

  method GridRows(tableRows: Rows, slot: Slot, entries: seq<seq<(string, string)>>) returns (out: Rows)
    requires tableRows != []
    ensures out == GridOf(tableRows, slot, entries)
  {
    var header := tableRows[0];
    var width := |header|;
    out := [header];
    for k := 0 to |entries|
      invariant |out| == k + 1 && out[0] == header
      invariant forall i | 0 <= i < k :: out[i + 1] == EntryRow(slot.fields, width, entries[i])
    {
      var entry := entries[k];
      var cells: seq<string> := seq(width, _ => "");
      for j := 0 to |entry|
        invariant cells == EntryRow(slot.fields, width, entry[..j])
      {
        assert entry[..j + 1][..j] == entry[..j];
        var (key, text) := entry[j];
        var column := ColumnOf(slot.fields, key);
        if column.Some? && column.value < width && text != "" {
          cells := cells[column.value := text];
        }
      }
      assert entry[..|entry|] == entry;
      out := out + [cells];
    }
  }

  /** The last non-empty text the entry has for a column. */
  function EntryText(fields: seq<Field>, entry: seq<(string, string)>, c: nat): string {
    if entry == [] then ""
    else
      var (key, text) := entry[|entry| - 1];
      if ColumnOf(fields, key) == Some(c) && text != "" then text
      else EntryText(fields, entry[..|entry| - 1], c)
  }

  lemma {:induction false} EntryRowMeans(fields: seq<Field>, width: nat, entry: seq<(string, string)>, c: nat)
    requires c < width
    ensures EntryRow(fields, width, entry)[c] == EntryText(fields, entry, c)
  {
    if entry != [] {
      EntryRowMeans(fields, width, entry[..|entry| - 1], c);
    }
  }

  // -------------------------------------------------------------- case blocks

  function Join(parts: seq<string>, glue: string): string {
    if parts == [] then ""
    else if |parts| == 1 then parts[0]
    else parts[0] + glue + Join(parts[1..], glue)
  }

  function Lookup(entry: seq<(string, string)>, key: string): string {
    if entry == [] then ""
    else if entry[|entry| - 1].0 == key then entry[|entry| - 1].1
    else Lookup(entry[..|entry| - 1], key)
  }

  function CaseBlockText(slot: Slot, entries: seq<seq<(string, string)>>): string {
    Join(seq(|entries|, e requires 0 <= e < |entries| =>
           Join(seq(|slot.fields|, f requires 0 <= f < |slot.fields| =>
                  slot.fields[f].caption + ": " + Lookup(entries[e], slot.fields[f].key)), "\n")), "\n\n")
  }

  /** What the table of a hand slot becomes. */
  function Rendered(tableRows: Rows, columns: nat, slot: Slot, value: Value, buyer: bool): Result<Rows, string>
    requires tableRows != []
  {
    if slot.shape.Record? then RecordOf(tableRows, slot, value, buyer)
    else if slot.fields != [] && columns >= 2 then Ok(GridOf(tableRows, slot, value.entries))
    else Ok([[CaseBlockText(slot, value.entries)]])
  }
}
