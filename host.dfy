/** The slice of the Excel and VBA object models that the add-in drives: a
    worksheet as a grid of cells, the ranges it addresses, and the application
    flags and code components that the macro runner touches. */
module Host {
  import opened Wrappers

  /** A value as `JavaScriptSerializer` or `JSON.parse` hands it over: arrays
      are `object[]` / JS arrays, objects are dictionaries. A number keeps its
      text. */
  datatype Json =
    | JNull
    | JBool(b: bool)
    | JNum(text: string)
    | JStr(text: string)
    | JArr(items: seq<Json>)
    | JObj(fields: seq<(string, Json)>)

  /** A rectangular range: its top row and left column (`Range.Row`,
      `Range.Column`, 1-based) and its numbers of rows and columns. */
  datatype Range = Range(row: int, col: int, rows: nat, cols: nat) {
    /** Excel's rows and columns are numbered from 1, and it never hands out
        a range without cells. */
    predicate Valid() { row >= 1 && col >= 1 && rows >= 1 && cols >= 1 }

    predicate Covers(r: int, c: int) {
      row <= r < row + rows && col <= c < col + cols
    }

    predicate InColumns(c: int) { col <= c < col + cols }

    function LastRow(): int { row + rows - 1 }

    function LastCol(): int { col + cols - 1 }
  }

  /** A cell: its value and its number format. Formats are only copied and
      compared, so a number stands for one. */
  datatype Cell = Cell(value: Json, format: int)

  /** A worksheet's contents, cell by cell. */
  type Grid = (int, int) -> Cell

  /** A block of values with the given numbers of rows and columns. */
  predicate IsBlock(block: seq<seq<Json>>, rows: nat, cols: nat) {
    |block| == rows && forall i :: 0 <= i < |block| ==> |block[i]| == cols
  }

  /** `Range.ClearContents()`: the values inside the range become empty and
      every format stays. */
  function Cleared(g: Grid, a: Range): Grid {
    (r: int, c: int) => if a.Covers(r, c) then Cell(JNull, g(r, c).format) else g(r, c)
  }

  /** `Range.Insert(xlShiftDown, xlFormatFromLeftOrAbove)`: in the range's
      columns, the cells from its top row down move down by its height; the
      new cells are empty and take the format of the cell above them. Other
      columns do not move. */
  function Inserted(g: Grid, a: Range): Grid {
    (r: int, c: int) =>
      if !a.InColumns(c) || r < a.row then g(r, c)
      else if r < a.row + a.rows then Cell(JNull, g(a.row - 1, c).format)
      else g(r - a.rows, c)
  }

  /** Assigning `Range.Value2` (or `range.values`) a block of the range's own
      size: the values change and the formats stay. */
  function Assigned(g: Grid, a: Range, block: seq<seq<Json>>): Grid
    requires IsBlock(block, a.rows, a.cols)
  {
    (r: int, c: int) =>
      if a.Covers(r, c) then Cell(block[r - a.row][c - a.col], g(r, c).format) else g(r, c)
  }

  /** `range.copyFrom(source, formats)` from a single row onto a range of the
      same columns: every cell of the range takes the format of the source
      row's cell in its column; values stay. */
  function FormatsCopied(g: Grid, sourceRow: int, a: Range): Grid {
    (r: int, c: int) =>
      if a.Covers(r, c) then Cell(g(r, c).value, g(sourceRow, c).format) else g(r, c)
  }

  /** The contents of a two-dimensional array, row by row. */
  function Snapshot(data: array2<Json>): (s: seq<seq<Json>>)
    reads data
    ensures IsBlock(s, data.Length0, data.Length1)
    ensures forall i, j :: 0 <= i < data.Length0 && 0 <= j < data.Length1 ==> s[i][j] == data[i, j]
  {
    seq(data.Length0, i requires 0 <= i < data.Length0 reads data =>
      seq(data.Length1, j requires 0 <= j < data.Length1 reads data => data[i, j]))
  }

  /** The active worksheet, changed in place by the add-in. */
  class Worksheet {
    var cells: Grid

    constructor (g: Grid)
      ensures cells == g
    {
      cells := g;
    }

    method ClearContents(a: Range)
      modifies this
      ensures cells == Cleared(old(cells), a)
    {
      cells := Cleared(cells, a);
    }

    method InsertShiftDown(a: Range)
      modifies this
      ensures cells == Inserted(old(cells), a)
    {
      cells := Inserted(cells, a);
    }

    /** `range.Value2 = data` with an array of the range's size. */
    method SetValue2(a: Range, data: array2<Json>)
      requires data.Length0 == a.rows && data.Length1 == a.cols
      modifies this
      ensures cells == Assigned(old(cells), a, Snapshot(data))
    {
      cells := Assigned(cells, a, Snapshot(data));
    }
  }

  /** The three application flags the macro runner switches off while a macro
      runs. */
  datatype AppFlags = AppFlags(DisplayAlerts: bool, ScreenUpdating: bool, Interactive: bool)

  /** The flags while a generated macro runs: every one off. */
  const Quiet: AppFlags := AppFlags(false, false, false)

  /** One `Application.Run` call: the macro named, and the flags and code
      components in force while it ran. */
  datatype MacroCall = MacroCall(macro: string, flags: AppFlags, components: set<string>)

  /** The Excel application as the macro runner sees it: its flags, the names
      of the code components of the active VBA project, and the macros run so
      far. */
  class Application {
    var flags: AppFlags
    var components: set<string>
    var runs: seq<MacroCall>

    constructor (f: AppFlags, comps: set<string>)
      ensures flags == f && components == comps && runs == []
    {
      flags := f;
      components := comps;
      runs := [];
    }

    /** `VBComponents.Add(1)`: a new standard module under a name not yet in
        use. Excel numbers its modules; the model picks a name longer than
        every name in use. */
    method AddModule() returns (name: string)
      modifies this
      ensures name !in old(components) && components == old(components) + {name}
      ensures flags == old(flags) && runs == old(runs)
    {
      var longest: nat := 0;
      var rest := components;
      while rest != {}
        invariant rest <= components
        invariant forall n :: n in components && n !in rest ==> |n| <= longest
        decreases |rest|
      {
        var n :| n in rest;
        if |n| > longest {
          longest := |n|;
        }
        rest := rest - {n};
      }
      name := "Module" + seq(longest, _ => '1');
      components := components + {name};
    }

    /** `VBComponents.Remove(component)`. */
    method RemoveModule(name: string)
      modifies this
      ensures components == old(components) - {name}
      ensures flags == old(flags) && runs == old(runs)
    {
      components := components - {name};
    }

    /** `Application.Run(macro)`: the call is made with the current flags and
        components, whether or not the macro then fails. */
    method Run(macro: string)
      modifies this
      ensures runs == old(runs) + [MacroCall(macro, flags, components)]
      ensures flags == old(flags) && components == old(components)
    {
      runs := runs + [MacroCall(macro, flags, components)];
    }
  }

  /** What the host does when the add-in drives it: whether programmatic access
      to the VBA project is trusted (without it every access to the project
      throws), and the error a run raises, if any (a compile error of the added
      code included). */
  datatype MacroHost = MacroHost(accessTrusted: bool, runError: Option<string>)

  /** Excel's error when programmatic access to the VBA project is not trusted. */
  const UntrustedError: string := "Programmatic access to Visual Basic Project is not trusted"
}
