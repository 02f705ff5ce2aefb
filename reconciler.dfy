/** Writing a parsed model reply into the worksheet. The two WPF panes grow the
    target by inserting cell-rows and then write the block at its origin; the
    WinForms pane writes at the captured cell without growth; the Office.js
    pane validates the reply and resizes the target without inserting. */
module Reconciler {
  import opened Wrappers
  import opened Host

  /** `x is Array ? Length : x is IList ? Count : 0`: a JSON array counts its
      items; anything else counts as no rows (or no columns). */
  function Count(v: Json): (n: nat)
    ensures n > 0 ==> v.JArr? && n == |v.items|
    ensures v.JArr? ==> n == |v.items|
  {
    if v.JArr? then |v.items| else 0
  }

  /** Whether the copy loop reads `width` values from a row without an
      exception: the row is an array with at least `width` items. A row is
      never touched when the width is zero. */
  predicate Feeds(row: Json, width: nat) {
    width == 0 || (row.JArr? && width <= |row.items|)
  }

  /** The exception of `Array.GetValue(j)` past the end of a row shorter than
      the first. */
  const IndexError: string := "Index was outside the bounds of the array."

  /** The CLR type of a deserialized JSON value that is not an array: numbers
      without a fraction or an exponent are `Int32`, the others `Decimal`;
      objects are dictionaries. */
  function ClrTypeName(v: Json): string
    requires !v.JArr? && !v.JNull?
  {
    match v
    case JBool(_) => "System.Boolean"
    case JStr(_) => "System.String"
    case JNum(text) => if IsIntegralText(text) then "System.Int32" else "System.Decimal"
    case JObj(_) => "System.Collections.Generic.Dictionary`2[System.String,System.Object]"
  }

  /** Number text with neither a fraction nor an exponent. */
  predicate IsIntegralText(text: string) {
    forall i :: 0 <= i < |text| ==> text[i] != '.' && text[i] != 'e' && text[i] != 'E'
  }

  /** The exception of the cast `(IList)r` on a row that is neither an array
      nor a list. */
  function CastError(row: Json): string
    requires !row.JArr? && !row.JNull?
  {
    "Unable to cast object of type '" + ClrTypeName(row) + "' to type 'System.Collections.IList'."
  }

  /** The exception the copy loop raises on a row it cannot read: a null row
      is indexed through a null reference, a row that is not an array fails
      the cast, and a shorter array runs out of bounds. */
  function CopyError(row: Json): (m: string)
    ensures row.JNull? ==> m == NullReference
    ensures row.JArr? ==> m == IndexError
    ensures !row.JNull? && !row.JArr? ==> m == CastError(row)
  {
    match row
    case JNull => NullReference
    case JArr(_) => IndexError
    case _ => CastError(row)
  }

  /** The index of the first row, from `i` on, that the copy loop cannot read
      `width` values from, or `|rows|` when there is none. */
  function FirstFailing(rows: seq<Json>, width: nat, i: nat): (k: nat)
    requires i <= |rows|
    ensures i <= k <= |rows|
    ensures forall l :: i <= l < k ==> Feeds(rows[l], width)
    ensures k < |rows| ==> !Feeds(rows[k], width)
    decreases |rows| - i
  {
    if i == |rows| || !Feeds(rows[i], width) then i else FirstFailing(rows, width, i + 1)
  }

  /** The block the copy loops build: one row per item of `rows`, each cut to
      the first row's width. It fails with the exception of the first row
      that is not an array or is shorter than the first; longer rows are
      truncated. */
  function Flatten(rows: Json): (b: Result<seq<seq<Json>>>)
    requires Count(rows) > 0
    ensures b.Ok? <==> forall i :: 0 <= i < |rows.items| ==> Feeds(rows.items[i], Count(rows.items[0]))
    ensures b.Err? ==> FirstFailing(rows.items, Count(rows.items[0]), 0) < |rows.items|
    ensures b.Err? ==> b.message == CopyError(rows.items[FirstFailing(rows.items, Count(rows.items[0]), 0)])
    ensures b.Ok? ==> IsBlock(b.value, Count(rows), Count(rows.items[0]))
    ensures b.Ok? ==> forall i, j :: 0 <= i < |rows.items| && 0 <= j < Count(rows.items[0]) ==>
      b.value[i][j] == rows.items[i].items[j]
  {
    var m := Count(rows.items[0]);
    var k := FirstFailing(rows.items, m, 0);
    if k == |rows.items| then
      Ok(seq(|rows.items|, i requires 0 <= i < |rows.items| && Feeds(rows.items[i], m) =>
        if m == 0 then [] else rows.items[i].items[..m]))
    else
      Err(CopyError(rows.items[k]))
  }

  /** The search finds the first row that does not feed the loop. */
  lemma {:induction false} FirstFailingIs(rows: seq<Json>, width: nat, i: nat, k: nat)
    requires i <= k < |rows|
    requires forall l :: i <= l < k ==> Feeds(rows[l], width)
    requires !Feeds(rows[k], width)
    ensures FirstFailing(rows, width, i) == k
    decreases k - i
  {
    if i < k {
      FirstFailingIs(rows, width, i + 1, k);
    }
  }

  /** A reply whose row `k` is the first the loop cannot read fails with that
      row's own exception: a null row, a row of another type and a short row
      report three different messages. */
  lemma FlattenReportsFirstFailure(rows: Json, k: nat)
    requires Count(rows) > 0 && k < |rows.items|
    requires forall l :: 0 <= l < k ==> Feeds(rows.items[l], Count(rows.items[0]))
    requires !Feeds(rows.items[k], Count(rows.items[0]))
    ensures Flatten(rows) == Err(CopyError(rows.items[k]))
  {
    FirstFailingIs(rows.items, Count(rows.items[0]), 0, k);
  }

  /** Two blocks of the same shape with the same entries are equal. */
  lemma BlockEquality(a: seq<seq<Json>>, b: seq<seq<Json>>, rows: nat, cols: nat)
    requires IsBlock(a, rows, cols) && IsBlock(b, rows, cols)
    requires forall i, j :: 0 <= i < rows && 0 <= j < cols ==> a[i][j] == b[i][j]
    ensures a == b
  {
    forall i | 0 <= i < rows
      ensures a[i] == b[i]
    {
    }
  }

  /** The nested loops that fill `object[,] data` from the parsed rows; `ok` is
      false when a row access throws. */
  method CopyRows(rows: Json) returns (data: array2<Json>, failure: Option<string>)
    requires Count(rows) > 0
    ensures fresh(data)
    ensures failure.None? <==> Flatten(rows).Ok?
    ensures failure.Some? ==> failure.value == Flatten(rows).message
    ensures failure.None? ==> data.Length0 == Count(rows) && data.Length1 == Count(rows.items[0])
    ensures failure.None? ==> Snapshot(data) == Flatten(rows).value
  {
    var n := Count(rows);
    var m := Count(rows.items[0]);
    data := new Json[n, m];
    var i := 0;
    while i < n
      invariant 0 <= i <= n
      invariant FirstFailing(rows.items, m, 0) == FirstFailing(rows.items, m, i)
      invariant forall k, j :: 0 <= k < i && 0 <= j < m ==> data[k, j] == rows.items[k].items[j]
    {
      var r := rows.items[i];
      var j := 0;
      while j < m
        invariant 0 <= j <= m
        invariant j > 0 ==> r.JArr? && j <= |r.items|
        invariant forall k, l :: 0 <= k < i && 0 <= l < m ==> data[k, l] == rows.items[k].items[l]
        invariant forall l :: 0 <= l < j ==> data[i, l] == r.items[l]
      {
        if !(r.JArr? && j < |r.items|) {
          // indexing a null row, the cast to IList or the index throws
          assert !Feeds(r, m);
          failure := Some(CopyError(r));
          return;
        }
        data[i, j] := r.items[j];
        j := j + 1;
      }
      i := i + 1;
    }
    failure := None;
    BlockEquality(Snapshot(data), Flatten(rows).value, n, m);
  }

  /** What a write did: nothing (no rows), a block written to `region`, or an
      exception. */
  datatype WriteOutcome = NothingToWrite | Written(region: Range) | Failed(message: string)

  /** The exception of `Resize[rows, 0]` when the first row has no columns. */
  const ResizeError: string := "Exception from HRESULT: 0x800A03EC"

  /** The growth step: nothing when the target has room for `n` rows;
      otherwise `n - rows` cell-rows inserted at the target's last row, over
      its columns, shifting down. */
  function Grown(g: Grid, target: Range, n: nat): Grid
    requires target.Valid()
  {
    if n > target.rows then
      Inserted(g, Range(target.LastRow(), target.col, n - target.rows, target.cols))
    else g
  }

  /** `WriteToExcelWithDynamicRows(rows, target)`: its outcome and the sheet
      after it. */
  function DynamicWrite(g: Grid, rows: Json, target: Range): (WriteOutcome, Grid)
    requires target.Valid()
  {
    var n := Count(rows);
    if n == 0 then (NothingToWrite, g)
    else
      match Flatten(rows)
      case Err(e) => (Failed(e), g)
      case Ok(block) =>
        var m := Count(rows.items[0]);
        var grown := Grown(g, target, n);
        if m == 0 then (Failed(ResizeError), grown)
        else
          var region := Range(target.row, target.col, n, m);
          (Written(region), Assigned(grown, region, block))
  }

  /** `WriteToExcelWithDynamicRows` of both WPF panes. */
  method WriteToExcelWithDynamicRows(sheet: Worksheet, rows: Json, target: Range)
    returns (outcome: WriteOutcome)
    requires target.Valid()
    modifies sheet
    ensures (outcome, sheet.cells) == DynamicWrite(old(sheet.cells), rows, target)
  {
    var n := Count(rows);
    if n == 0 {
      return NothingToWrite;
    }
    var data, failure := CopyRows(rows);
    if failure.Some? {
      return Failed(failure.value);
    }
    var m := Count(rows.items[0]);
    var t := target;
    if n > t.rows {
      var rowsToAdd := n - t.rows;
      sheet.InsertShiftDown(Range(t.LastRow(), t.col, rowsToAdd, t.cols));
      t := Range(t.row, t.col, n, t.cols);
    }
    if m == 0 {
      return Failed(ResizeError);
    }
    var region := Range(t.row, t.col, n, m);
    sheet.SetValue2(region, data);
    outcome := Written(region);
  }

  /** A written block holds the reply: row `i`, column `j` of the region is
      `rows[i][j]`, and the region starts at the target's origin. */
  lemma DynamicWriteBlock(g: Grid, rows: Json, target: Range, i: nat, j: nat)
    requires target.Valid()
    requires DynamicWrite(g, rows, target).0.Written?
    requires i < Count(rows) && j < Count(rows.items[0])
    ensures DynamicWrite(g, rows, target).0.region == Range(target.row, target.col, Count(rows), Count(rows.items[0]))
    ensures DynamicWrite(g, rows, target).1(target.row + i, target.col + j).value == rows.items[i].items[j]
  {
    var block := Flatten(rows).value;
    var region := Range(target.row, target.col, Count(rows), Count(rows.items[0]));
    var grown := Grown(g, target, Count(rows));
    assert DynamicWrite(g, rows, target).1 == Assigned(grown, region, block);
    assert region.Covers(target.row + i, target.col + j);
    assert Assigned(grown, region, block)(target.row + i, target.col + j).value == block[i][j];
  }

  /** With growth, what lay below the target in its columns is found exactly
      `n - rows` rows further down. */
  lemma DynamicWriteShiftsBelow(g: Grid, rows: Json, target: Range, r: int, c: int)
    requires target.Valid()
    requires Count(rows) > target.rows && Flatten(rows).Ok?
    requires target.InColumns(c) && r > target.LastRow()
    ensures DynamicWrite(g, rows, target).1(r + Count(rows) - target.rows, c) == g(r, c)
  {
    var n, m := Count(rows), Count(rows.items[0]);
    var grown := Grown(g, target, n);
    var r' := r + n - target.rows;
    assert grown(r', c) == g(r, c);
    if m > 0 {
      var region := Range(target.row, target.col, n, m);
      assert !region.Covers(r', c);
      assert DynamicWrite(g, rows, target).1 == Assigned(grown, region, Flatten(rows).value);
    }
  }

  /** A cell outside both the target's columns and the written columns is
      never touched, whatever the reply. */
  lemma DynamicWriteKeepsOtherColumns(g: Grid, rows: Json, target: Range, r: int, c: int)
    requires target.Valid()
    requires !target.InColumns(c)
    requires Count(rows) > 0 ==> !(target.col <= c < target.col + Count(rows.items[0]))
    ensures DynamicWrite(g, rows, target).1(r, c) == g(r, c)
  {
  }

  /** Without growth nothing moves: every cell outside the written region,
      the target's rows below the data included, keeps its prior state. */
  lemma DynamicWriteNoGrowth(g: Grid, rows: Json, target: Range, r: int, c: int)
    requires target.Valid()
    requires Count(rows) <= target.rows
    requires DynamicWrite(g, rows, target).0.Written? ==> !DynamicWrite(g, rows, target).0.region.Covers(r, c)
    ensures DynamicWrite(g, rows, target).1(r, c) == g(r, c)
  {
  }

  /** `WriteToExcel` of the WinForms pane: its outcome and the sheet after it.
      The block goes to the captured range's top-left cell; nothing is
      inserted or cleared. A missing capture makes the range lookup throw. */
  function FixedWrite(g: Grid, rows: Json, captured: Option<Range>): (WriteOutcome, Grid) {
    var n := Count(rows);
    if n == 0 then (NothingToWrite, g)
    else
      match Flatten(rows)
      case Err(e) => (Failed(e), g)
      case Ok(block) =>
        var m := Count(rows.items[0]);
        if captured.None? || m == 0 then (Failed(ResizeError), g)
        else
          var region := Range(captured.value.row, captured.value.col, n, m);
          (Written(region), Assigned(g, region, block))
  }

  /** `WriteToExcel` of the WinForms pane. */
  method WriteToExcel(sheet: Worksheet, rows: Json, captured: Option<Range>)
    returns (outcome: WriteOutcome)
    modifies sheet
    ensures (outcome, sheet.cells) == FixedWrite(old(sheet.cells), rows, captured)
  {
    var n := Count(rows);
    if n == 0 {
      return NothingToWrite;
    }
    var data, failure := CopyRows(rows);
    if failure.Some? {
      return Failed(failure.value);
    }
    var m := Count(rows.items[0]);
    if captured.None? || m == 0 {
      return Failed(ResizeError);
    }
    var region := Range(captured.value.row, captured.value.col, n, m);
    sheet.SetValue2(region, data);
    outcome := Written(region);
  }

  /** The fixed write changes nothing outside the block it writes. */
  lemma FixedWriteOnlyBlock(g: Grid, rows: Json, captured: Option<Range>, r: int, c: int)
    requires FixedWrite(g, rows, captured).0.Written? ==> !FixedWrite(g, rows, captured).0.region.Covers(r, c)
    ensures FixedWrite(g, rows, captured).1(r, c) == g(r, c)
  {
  }

  /** When the reply fits in the target, the growing write and the fixed write
      anchored at the target do the same thing. */
  lemma WritesAgreeWithoutGrowth(g: Grid, rows: Json, target: Range)
    requires target.Valid() && Count(rows) <= target.rows
    requires DynamicWrite(g, rows, target).0.Written?
    ensures DynamicWrite(g, rows, target) == FixedWrite(g, rows, Some(target))
  {
  }

  /** The check in `generateAndFill` before any write: the reply must parse,
      be an array, and have an array as its first element (so an empty array
      is refused too). */
  function ValidateTable(parsed: Option<Json>): (r: Result<seq<Json>>)
    ensures r.Ok? <==> parsed.Some? && parsed.value.JArr? && |parsed.value.items| > 0
                       && parsed.value.items[0].JArr?
    ensures r.Ok? ==> r.value == parsed.value.items
  {
    match parsed
    case None => Err("LLM did not return valid JSON array.")
    case Some(v) =>
      if v.JArr? && |v.items| > 0 && v.items[0].JArr? then Ok(v.items)
      else Err("LLM response is not a 2D array.")
  }

  /** Whether `range.values = table` is accepted: every row an array of
      exactly the range's width. */
  predicate Fits(table: seq<Json>, cols: nat) {
    forall i :: 0 <= i < |table| ==> table[i].JArr? && |table[i].items| == cols
  }

  function Rows(table: seq<Json>): (b: seq<seq<Json>>)
    requires forall i :: 0 <= i < |table| ==> table[i].JArr?
    ensures |b| == |table| && forall i :: 0 <= i < |table| ==> b[i] == table[i].items
  {
    seq(|table|, i requires 0 <= i < |table| => table[i].items)
  }

  /** The range the Office.js pane writes: the original origin and columns,
      with as many rows as the table has. */
  function ResizedTarget(original: Range, n: nat): (t: Range)
    ensures t.row == original.row && t.col == original.col && t.cols == original.cols
    ensures t.rows == n
  {
    Range(original.row, original.col, n, original.cols)
  }

  /** The format copy of `generateAndFill`: when the table has more rows than
      the original range, the `n - rows` rows below it take the formats of its
      last row. */
  function JsFormatted(g: Grid, original: Range, n: nat): Grid
    requires original.Valid()
  {
    if n > original.rows then
      FormatsCopied(g, original.LastRow(), Range(original.row + original.rows, original.col, n - original.rows, original.cols))
    else g
  }

  /** The write of `generateAndFill`: when the table is longer than the
      original range, the rows below it are taken over (not inserted) and get
      the last original row's formats; then the values are assigned, which
      the host refuses when a row does not have the range's width. */
  function JsFill(g: Grid, original: Range, table: seq<Json>): (WriteOutcome, Grid)
    requires original.Valid() && |table| > 0
  {
    var target := ResizedTarget(original, |table|);
    var formatted := JsFormatted(g, original, |table|);
    if Fits(table, original.cols) then (Written(target), Assigned(formatted, target, Rows(table)))
    else (Failed("The number of rows or columns in the input array doesn't match the size or dimensions of the range."), formatted)
  }

  /** No row is ever inserted: every cell outside the resized target keeps its
      value and format. */
  lemma JsFillOnlyTarget(g: Grid, original: Range, table: seq<Json>, r: int, c: int)
    requires original.Valid() && |table| > 0
    requires !ResizedTarget(original, |table|).Covers(r, c)
    ensures JsFill(g, original, table).1(r, c) == g(r, c)
  {
    var formatted := JsFormatted(g, original, |table|);
    assert formatted(r, c) == g(r, c);
    if Fits(table, original.cols) {
      assert JsFill(g, original, table).1 == Assigned(formatted, ResizedTarget(original, |table|), Rows(table));
    }
  }

  /** Exactly the rows added below the original range take the format of its
      last row; the original rows keep their formats. */
  lemma JsFillFormats(g: Grid, original: Range, table: seq<Json>, r: int, c: int)
    requires original.Valid() && |table| > 0 && original.InColumns(c)
    ensures original.row + original.rows <= r < original.row + |table| ==>
      JsFill(g, original, table).1(r, c).format == g(original.LastRow(), c).format
    ensures original.row <= r <= original.LastRow() ==>
      JsFill(g, original, table).1(r, c).format == g(r, c).format
  {
    var formatted := JsFormatted(g, original, |table|);
    JsFillKeepsFormats(g, original, table, r, c);
    if original.row + original.rows <= r < original.row + |table| {
      var added := Range(original.row + original.rows, original.col, |table| - original.rows, original.cols);
      assert added.Covers(r, c);
      assert formatted(r, c).format == g(original.LastRow(), c).format;
    }
  }

  /** Writing the values leaves every cell with the format it had after the
      formats were copied down. */
  lemma JsFillKeepsFormats(g: Grid, original: Range, table: seq<Json>, r: int, c: int)
    requires original.Valid() && |table| > 0
    ensures JsFill(g, original, table).1(r, c).format == JsFormatted(g, original, |table|)(r, c).format
  {
    if Fits(table, original.cols) {
      var formatted := JsFormatted(g, original, |table|);
      assert JsFill(g, original, table).1 == Assigned(formatted, ResizedTarget(original, |table|), Rows(table));
    }
  }

  /** A table of the range's width is written cell for cell. */
  lemma JsFillValues(g: Grid, original: Range, table: seq<Json>, i: nat, j: nat)
    requires original.Valid() && |table| > 0 && Fits(table, original.cols)
    requires i < |table| && j < original.cols
    ensures JsFill(g, original, table).0 == Written(ResizedTarget(original, |table|))
    ensures JsFill(g, original, table).1(original.row + i, original.col + j).value == table[i].items[j]
  {
  }
}
