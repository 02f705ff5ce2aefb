/** The header cache of the two WPF panes and the arithmetic of the region a
    write run clears and fills. The cache is one slot: the detected header and
    the key of the column span it was detected on. */
module HeaderCache {
  import opened Wrappers
  import opened Strings
  import opened Models
  import opened Host

  /** `GetColumnRangeKey(range)`: the first and last column numbers, joined by
      a dash. */
  function ColumnRangeKey(a: Range): string
    requires a.Valid()
  {
    NatToString(a.col) + "-" + NatToString(a.LastCol())
  }

  /** Reading a column key back: two decimal numbers around the first dash. */
  function ParseColumnKey(k: string): Option<(nat, nat)> {
    var i := IndexOfChar(k, '-');
    if i == |k| then None
    else
      match (ParseNat(k[..i]), ParseNat(k[i + 1..]))
      case (Some(first), Some(last)) => Some((first, last))
      case _ => None
  }

  /** The key of a range names exactly its first and last columns. */
  lemma ColumnKeyRoundTrip(a: Range)
    requires a.Valid()
    ensures ParseColumnKey(ColumnRangeKey(a)) == Some((a.col as nat, a.LastCol() as nat))
  {
    var x, y := NatToString(a.col), NatToString(a.LastCol());
    var k := ColumnRangeKey(a);
    assert k == x + "-" + y;
    assert k[|x|] == '-';
    assert forall i :: 0 <= i < |x| ==> k[i] == x[i] && IsDigit(x[i]);
    assert IndexOfChar(k, '-') == |x|;
    assert k[..|x|] == x;
    assert k[|x| + 1..] == y;
    NatToStringRoundTrip(a.col);
    NatToStringRoundTrip(a.LastCol());
  }

  /** Two ranges have the same key exactly when they span the same columns;
      their rows play no part. */
  lemma ColumnKeyIdentifiesSpan(a: Range, b: Range)
    requires a.Valid() && b.Valid()
    ensures ColumnRangeKey(a) == ColumnRangeKey(b) <==> a.col == b.col && a.cols == b.cols
  {
    if ColumnRangeKey(a) == ColumnRangeKey(b) {
      ColumnKeyRoundTrip(a);
      ColumnKeyRoundTrip(b);
    }
  }

  /** The capture-time check: the selection is shown as having a cached header
      when a header is cached and the key of its columns equals the stored
      key. It only changes what the pane displays. */
  predicate ShowsCached(info: Option<HeaderInfo>, key: Option<string>, selection: Range)
    requires selection.Valid()
  {
    info.Some? && key == Some(ColumnRangeKey(selection))
  }

  /** The region a write run clears and fills. The start row moves down by the
      header's height only when the header was detected in this run; the end
      row is the selection's last row; when the header covers the whole
      selection the region becomes the single row below it. The columns are
      the selection's. A start row before row 1 makes the cell lookup throw. */
  function WriteRegion(selection: Range, headerRows: int, isNewDetection: bool): (w: Result<Range>)
    requires selection.Valid()
    ensures w.Ok? <==> !isNewDetection || selection.row + headerRows >= 1
    ensures w.Ok? ==> w.value.Valid() && w.value.col == selection.col && w.value.cols == selection.cols
    ensures !isNewDetection ==> w == Ok(selection)
    ensures isNewDetection && 0 <= headerRows < selection.rows ==>
      w == Ok(Range(selection.row + headerRows, selection.col, selection.rows - headerRows, selection.cols))
    ensures isNewDetection && headerRows >= selection.rows ==>
      w == Ok(Range(selection.LastRow() + 1, selection.col, 1, selection.cols))
    ensures isNewDetection && headerRows < 0 && w.Ok? ==>
      w.value.row == selection.row + headerRows && w.value.LastRow() == selection.LastRow()
  {
    var startRow := if isNewDetection then selection.row + headerRows else selection.row;
    var endRow := selection.LastRow();
    if startRow > endRow then
      Ok(Range(endRow + 1, selection.col, 1, selection.cols))
    else if startRow < 1 then
      Err("Exception from HRESULT: 0x800A03EC")
    else
      Ok(Range(startRow, selection.col, endRow - startRow + 1, selection.cols))
  }

  /** The region never ends above the selection's last row and never starts
      more than one row below it; it lies inside the selection unless the
      header is taller than the selection or its height is negative. */
  lemma WriteRegionBounds(selection: Range, headerRows: int, isNewDetection: bool)
    requires selection.Valid() && WriteRegion(selection, headerRows, isNewDetection).Ok?
    ensures var w := WriteRegion(selection, headerRows, isNewDetection).value;
      selection.LastRow() <= w.LastRow() <= selection.LastRow() + 1 &&
      w.row <= selection.LastRow() + 1 &&
      (0 <= headerRows < selection.rows || !isNewDetection ==>
        forall r, c :: w.Covers(r, c) ==> selection.Covers(r, c))
  {
  }

  /** The run path ignores the stored key: with any header cached, even one
      detected on other columns, a run fills the whole selection. */
  lemma CachedHeaderIgnoresKey(info: Option<HeaderInfo>, key: Option<string>, selection: Range, headerRows: int)
    requires selection.Valid() && info.Some? && !ShowsCached(info, key, selection)
    ensures WriteRegion(selection, headerRows, false) == Ok(selection)
  {
  }

  /** The header slot `cachedHeaderInfo` / `cachedColumnRange`. */
  class HeaderSlot {
    var info: Option<HeaderInfo>
    var columnKey: Option<string>

    constructor ()
      ensures info.None? && columnKey.None?
    {
      info := None;
      columnKey := None;
    }

    /** `BtnResetHeader_Click`: both fields are cleared. */
    method Reset()
      modifies this
      ensures info.None? && columnKey.None?
    {
      info := None;
      columnKey := None;
    }

    /** The detection step of a write run. Detection runs only when no header
        is cached. A detection that throws leaves the slot as it was, because
        the assignment follows the await; a detection that returns (possibly a
        null header) stores it and the key of the captured range's columns. */
    method Detect(captured: Range, detection: Result<Option<HeaderInfo>>)
      returns (isNewDetection: bool, failure: Option<string>)
      requires captured.Valid()
      modifies this
      ensures old(info).Some? ==>
        !isNewDetection && failure.None? && info == old(info) && columnKey == old(columnKey)
      ensures old(info).None? ==> isNewDetection
      ensures old(info).None? && detection.Err? ==>
        failure == Some(detection.message) && info == old(info) && columnKey == old(columnKey)
      ensures old(info).None? && detection.Ok? ==>
        failure.None? && info == detection.value && columnKey == Some(ColumnRangeKey(captured))
    {
      isNewDetection := false;
      failure := None;
      if info.None? {
        isNewDetection := true;
        if detection.Err? {
          failure := Some(detection.message);
          return;
        }
        info := detection.value;
        columnKey := Some(ColumnRangeKey(captured));
      }
    }
  }
}
