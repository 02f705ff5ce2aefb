/** `GetRangeCsv`: the text of a range as comma-separated values, quoted as in
    section 2 of RFC 4180 (a field with a comma, a double quote or a line feed
    is enclosed in double quotes, and a double quote inside it is doubled),
    with `\r\n` after every row. A parser for that format is the encoder's
    partner: it reads every row and field back. */
module Csv {
  import opened Wrappers
  import opened Strings
  import opened Host

  /** `val != null ? val.ToString() : ""` for a cell's value. A nested array or
      object cannot be held by a cell and gives the empty text too. */
  function CellText(v: Json): string {
    match v
    case JNull => ""
    case JBool(b) => if b then "True" else "False"
    case JNum(t) => t
    case JStr(t) => t
    case JArr(_) => ""
    case JObj(_) => ""
  }

  /** The test of `GetRangeCsv`: a comma, a double quote or a line feed. */
  predicate NeedsQuotes(s: string) {
    Contains(s, ",") || Contains(s, "\"") || Contains(s, "\n")
  }

  /** `s.Replace("\"", "\"\"")`. */
  function Doubled(s: string): string {
    ReplaceAll(s, "\"", "\"\"")
  }

  /** One field as `GetRangeCsv` writes it. */
  function EncodeField(s: string): (f: string)
    ensures !NeedsQuotes(s) ==> f == s
    ensures NeedsQuotes(s) ==> |f| >= 2 && f[0] == '"' && f[|f| - 1] == '"'
  {
    if NeedsQuotes(s) then "\"" + Doubled(s) + "\"" else s
  }

  /** The `i`-th field of a row followed by its separator: a comma after every
      field but the last. */
  function FieldPiece(fields: seq<string>, k: nat): string
    requires k < |fields|
  {
    EncodeField(fields[k]) + (if k < |fields| - 1 then "," else "")
  }

  function Pieces(fields: seq<string>): (p: seq<string>)
    ensures |p| == |fields| && forall k :: 0 <= k < |fields| ==> p[k] == FieldPiece(fields, k)
  {
    seq(|fields|, k requires 0 <= k < |fields| => FieldPiece(fields, k))
  }

  /** One row: its fields joined by commas, then `AppendLine()`'s `\r\n`. */
  function Line(fields: seq<string>): string {
    Concat(Pieces(fields)) + "\r\n"
  }

  function Lines(rows: seq<seq<string>>): (p: seq<string>)
    ensures |p| == |rows| && forall i :: 0 <= i < |rows| ==> p[i] == Line(rows[i])
  {
    seq(|rows|, i requires 0 <= i < |rows| => Line(rows[i]))
  }

  /** The whole text: one line per row. */
  function CsvText(rows: seq<seq<string>>): string {
    Concat(Lines(rows))
  }

  /** The texts of the cells of one row of a range. */
  function RowTexts(g: Grid, a: Range, i: int): (t: seq<string>)
    ensures |t| == a.cols
    ensures forall j :: 0 <= j < a.cols ==> t[j] == CellText(g(a.row + i, a.col + j).value)
  {
    seq(a.cols, j requires 0 <= j < a.cols => CellText(g(a.row + i, a.col + j).value))
  }

  /** The texts of a range's cells, row by row. */
  function Texts(g: Grid, a: Range): (t: seq<seq<string>>)
    ensures |t| == a.rows
    ensures forall i :: 0 <= i < a.rows ==> t[i] == RowTexts(g, a, i)
  {
    seq(a.rows, i requires 0 <= i < a.rows => RowTexts(g, a, i))
  }

  /** `GetRangeCsv(range)`: `Value2` of a single cell is not an `object[,]`, so
      the text is empty; any other range gives one line per row. */
  function RangeCsv(g: Grid, a: Range): string {
    if a.rows == 1 && a.cols == 1 then "" else CsvText(Texts(g, a))
  }

  /** The nested loops of `GetRangeCsv`, appending to a string builder; the
      inner loop is `AppendRow`. */
  method GetRangeCsv(sheet: Worksheet, a: Range) returns (csv: string)
    ensures csv == RangeCsv(sheet.cells, a)
  {
    if a.rows == 1 && a.cols == 1 {
      return "";
    }
    ghost var rows := Texts(sheet.cells, a);
    var sb := "";
    var i := 1;
    while i <= a.rows
      invariant 1 <= i <= a.rows + 1
      invariant sb == Concat(Lines(rows)[..i - 1])
    {
      PrefixConcat(Lines(rows), i - 1);
      ghost var before := sb;
      sb := AppendRow(sheet, a, i - 1, sb);
      assert sb == before + Line(rows[i - 1]);
      i := i + 1;
    }
    assert Lines(rows)[..a.rows] == Lines(rows);
    csv := sb;
  }

  /** The inner loop of `GetRangeCsv` over the cells of row `i` of the range:
      each field with its separator, then `AppendLine()`. */
  method AppendRow(sheet: Worksheet, a: Range, i: int, sb0: string) returns (sb: string)
    ensures sb == sb0 + Line(RowTexts(sheet.cells, a, i))
  {
    ghost var fields := RowTexts(sheet.cells, a, i);
    ghost var pieces := Pieces(fields);
    sb := sb0;
    var j := 1;
    while j <= a.cols
      invariant 1 <= j <= a.cols + 1
      invariant sb == sb0 + Concat(pieces[..j - 1])
    {
      var strVal := CellText(sheet.cells(a.row + i, a.col + j - 1).value);
      assert strVal == fields[j - 1];
      if NeedsQuotes(strVal) {
        strVal := "\"" + Doubled(strVal) + "\"";
      }
      assert strVal == EncodeField(fields[j - 1]);
      var sep := if j < a.cols then "," else "";
      AppendField(sb0, fields, j - 1, sb, strVal, sep);
      sb := sb + (strVal + sep);
      j := j + 1;
    }
    assert pieces[..a.cols] == pieces;
    sb := sb + "\r\n";
  }

  /** Appending field `k`, encoded, and its separator extends the row written
      so far by that field's piece. */
  lemma AppendField(sb0: string, fields: seq<string>, k: nat, sb: string, written: string, sep: string)
    requires k < |fields| && sb == sb0 + Concat(Pieces(fields)[..k])
    requires written == EncodeField(fields[k]) && sep == (if k < |fields| - 1 then "," else "")
    ensures sb + (written + sep) == sb0 + Concat(Pieces(fields)[..k + 1])
  {
    ExtendConcat(sb0, Pieces(fields), k);
  }

  /** A text followed by a growing prefix of a list of strings. */
  lemma ExtendConcat(start: string, parts: seq<string>, k: nat)
    requires k < |parts|
    ensures start + Concat(parts[..k + 1]) == (start + Concat(parts[..k])) + parts[k]
  {
    PrefixConcat(parts, k);
  }

  /** Extending a prefix of a list of strings by one element. */
  lemma PrefixConcat(parts: seq<string>, k: nat)
    requires k < |parts|
    ensures Concat(parts[..k + 1]) == Concat(parts[..k]) + parts[k]
  {
    assert parts[..k + 1] == parts[..k] + [parts[k]];
    ConcatAppend(parts[..k], parts[k]);
  }

  // ---------------------------------------------------------------------
  // Reading the text back.

  /** The inside of a quoted field, after its opening quote: characters up to
      the closing quote, with each doubled quote read as one. Gives the field
      and what follows the closing quote; `None` when it is never closed. */
  function ParseQuoted(t: string): (r: Option<(string, string)>)
    ensures r.Some? ==> |r.value.1| < |t|
    decreases |t|
  {
    if t == [] then None
    else if t[0] == '"' then
      if |t| >= 2 && t[1] == '"' then
        match ParseQuoted(t[2..])
        case Some((f, rest)) => Some(("\"" + f, rest))
        case None => None
      else Some(("", t[1..]))
    else
      match ParseQuoted(t[1..])
      case Some((f, rest)) => Some(([t[0]] + f, rest))
      case None => None
  }

  predicate AtLineEnd(t: string) {
    |t| >= 2 && t[0] == '\r' && t[1] == '\n'
  }

  /** An unquoted field: characters up to a comma or the end of the line. */
  function ParseUnquoted(t: string): (r: (string, string))
    ensures |r.1| <= |t|
    decreases |t|
  {
    if t == [] || t[0] == ',' || AtLineEnd(t) then ([], t)
    else
      var (f, rest) := ParseUnquoted(t[1..]);
      ([t[0]] + f, rest)
  }

  function ParseField(t: string): (r: Option<(string, string)>)
    ensures r.Some? ==> |r.value.1| <= |t|
  {
    if t != [] && t[0] == '"' then ParseQuoted(t[1..]) else Some(ParseUnquoted(t))
  }

  /** One line: fields separated by commas, up to `\r\n`. */
  function ParseLine(t: string): (r: Option<(seq<string>, string)>)
    ensures r.Some? ==> |r.value.1| < |t|
    decreases |t|
  {
    match ParseField(t)
    case None => None
    case Some((f, rest)) =>
      if AtLineEnd(rest) then Some(([f], rest[2..]))
      else if rest != [] && rest[0] == ',' then
        match ParseLine(rest[1..])
        case Some((fs, after)) => Some(([f] + fs, after))
        case None => None
      else None
  }

  /** The whole text, line by line. */
  function ParseCsv(t: string): Option<seq<seq<string>>>
    decreases |t|
  {
    if t == [] then Some([])
    else
      match ParseLine(t)
      case None => None
      case Some((fields, rest)) =>
        match ParseCsv(rest)
        case Some(more) => Some([fields] + more)
        case None => None
  }

  /** What may follow a field: a comma or the end of the line. */
  predicate FieldEnd(tail: string) {
    (tail != [] && tail[0] == ',') || AtLineEnd(tail)
  }

  lemma DoubledStep(s: string)
    requires s != []
    ensures Doubled(s) == (if s[0] == '"' then "\"\"" else [s[0]]) + Doubled(s[1..])
  {
    if s[0] == '"' {
      assert "\"" <= s;
    } else {
      assert !("\"" <= s);
    }
  }

  /** The inside of a quoted field reads back to the text it encodes. */
  lemma {:induction false} QuotedRoundTrip(s: string, tail: string)
    requires tail == [] || tail[0] != '"'
    ensures ParseQuoted(Doubled(s) + "\"" + tail) == Some((s, tail))
    decreases |s|
  {
    if s == [] {
      var t := Doubled(s) + "\"" + tail;
      assert t == "\"" + tail;
      assert t[1..] == tail;
    } else {
      QuotedRoundTrip(s[1..], tail);
      QuotedStep(s, tail);
    }
  }

  /** Reading one more character of a quoted field's inside: a doubled quote
      is read as one quote, any other character as itself. */
  lemma QuotedStep(s: string, tail: string)
    requires s != []
    requires ParseQuoted(Doubled(s[1..]) + "\"" + tail) == Some((s[1..], tail))
    ensures ParseQuoted(Doubled(s) + "\"" + tail) == Some((s, tail))
  {
    var t := Doubled(s) + "\"" + tail;
    var rest := Doubled(s[1..]) + "\"" + tail;
    DoubledStep(s);
    if s[0] == '"' {
      assert t == "\"\"" + rest;
      assert t[2..] == rest;
      assert "\"" + s[1..] == s;
    } else {
      assert t == [s[0]] + rest;
      assert t[1..] == rest;
      assert [s[0]] + s[1..] == s;
    }
  }

  /** An unquoted field reads back to itself. */
  lemma {:induction false} UnquotedRoundTrip(s: string, tail: string)
    requires forall i :: 0 <= i < |s| ==> s[i] != ',' && s[i] != '\n'
    requires FieldEnd(tail)
    ensures ParseUnquoted(s + tail) == (s, tail)
    decreases |s|
  {
    var t := s + tail;
    if s == [] {
      assert t == tail;
    } else {
      assert t[1..] == s[1..] + tail;
      UnquotedRoundTrip(s[1..], tail);
      assert t[0] == s[0];
      assert !AtLineEnd(t) by {
        if |s| >= 2 {
          assert t[1] == s[1];
        } else {
          assert t[1] == tail[0];
        }
      }
      assert [s[0]] + s[1..] == s;
    }
  }

  /** Every field reads back to the text it encodes. */
  lemma FieldRoundTrip(s: string, tail: string)
    requires FieldEnd(tail)
    ensures ParseField(EncodeField(s) + tail) == Some((s, tail))
  {
    if NeedsQuotes(s) {
      QuotedFieldRoundTrip(s, tail);
    } else {
      UnquotedFieldRoundTrip(s, tail);
    }
  }

  /** A field that needs quotes reads back through the quoted parse. */
  lemma QuotedFieldRoundTrip(s: string, tail: string)
    requires FieldEnd(tail) && NeedsQuotes(s)
    ensures ParseField(EncodeField(s) + tail) == Some((s, tail))
  {
    var t := EncodeField(s) + tail;
    QuotedRoundTrip(s, tail);
    assert t == "\"" + (Doubled(s) + "\"" + tail);
    assert t[1..] == Doubled(s) + "\"" + tail;
  }

  /** A field that needs no quotes is written as it is and reads back whole. */
  lemma UnquotedFieldRoundTrip(s: string, tail: string)
    requires FieldEnd(tail) && !NeedsQuotes(s)
    ensures ParseField(EncodeField(s) + tail) == Some((s, tail))
  {
    ContainsChar(s, ',');
    ContainsChar(s, '"');
    ContainsChar(s, '\n');
    UnquotedRoundTrip(s, tail);
    if s != [] {
      assert s[0] != '"';
    } else {
      assert tail[0] != '"';
    }
  }

  lemma PiecesTail(fields: seq<string>)
    requires |fields| >= 2
    ensures Pieces(fields)[1..] == Pieces(fields[1..])
    ensures Pieces(fields)[0] == EncodeField(fields[0]) + ","
  {
  }

  /** How a line starts: its first field, then a comma and the rest of the
      row, or the end of the line. */
  lemma LineSplit(fields: seq<string>)
    requires |fields| >= 1
    ensures |fields| == 1 ==> Line(fields) == EncodeField(fields[0]) + "\r\n"
    ensures |fields| >= 2 ==> Line(fields) == EncodeField(fields[0]) + "," + Line(fields[1..])
  {
    var p := Pieces(fields);
    if |fields| >= 2 {
      PiecesTail(fields);
      assert Concat(p) == p[0] + Concat(p[1..]);
    } else {
      assert p[1..] == [];
      assert p[0] == EncodeField(fields[0]) + "";
      assert Concat(p) == p[0] + Concat(p[1..]);
    }
  }

  /** A field followed by the end of its line is a one-field line. */
  lemma ParseLineLast(f: string, more: string)
    ensures ParseLine(EncodeField(f) + "\r\n" + more) == Some(([f], more))
  {
    var t := EncodeField(f) + "\r\n" + more;
    assert t == EncodeField(f) + ("\r\n" + more);
    FieldRoundTrip(f, "\r\n" + more);
    assert ("\r\n" + more)[2..] == more;
  }

  /** A field followed by a comma is the head of the line that follows. */
  lemma ParseLineComma(f: string, after: string)
    requires ParseLine(after).Some?
    ensures ParseLine(EncodeField(f) + "," + after) == Some(([f] + ParseLine(after).value.0, ParseLine(after).value.1))
  {
    var t := EncodeField(f) + "," + after;
    assert t == EncodeField(f) + ("," + after);
    FieldRoundTrip(f, "," + after);
    assert ("," + after)[1..] == after;
  }

  /** A row reads back to its fields, whatever follows its line. */
  lemma {:induction false} LineRoundTrip(fields: seq<string>, more: string)
    requires |fields| >= 1
    ensures ParseLine(Line(fields) + more) == Some((fields, more))
    decreases |fields|
  {
    if |fields| == 1 {
      LastLineThen(fields, more);
      ParseLineLast(fields[0], more);
      assert [fields[0]] == fields;
    } else {
      var after := Line(fields[1..]) + more;
      LineRoundTrip(fields[1..], more);
      LineThen(fields, more);
      ParseLineComma(fields[0], after);
      assert [fields[0]] + fields[1..] == fields;
    }
  }

  /** A one-field line followed by more text. */
  lemma LastLineThen(fields: seq<string>, more: string)
    requires |fields| == 1
    ensures Line(fields) + more == EncodeField(fields[0]) + "\r\n" + more
  {
    LineSplit(fields);
  }

  /** A line of several fields followed by more text: the first field, a
      comma, and the rest of the line with what follows it. */
  lemma LineThen(fields: seq<string>, more: string)
    requires |fields| >= 2
    ensures Line(fields) + more == EncodeField(fields[0]) + "," + (Line(fields[1..]) + more)
  {
    LineSplit(fields);
  }

  /** Parsing the encoded text gives back every row and every field, one row
      per line (each row has at least one field, as every range has a
      column). */
  lemma {:induction false} CsvRoundTrip(rows: seq<seq<string>>)
    requires forall i :: 0 <= i < |rows| ==> |rows[i]| >= 1
    ensures ParseCsv(CsvText(rows)) == Some(rows)
    decreases |rows|
  {
    if rows != [] {
      var rest := CsvText(rows[1..]);
      assert Lines(rows)[1..] == Lines(rows[1..]);
      assert CsvText(rows) == Line(rows[0]) + rest;
      LineRoundTrip(rows[0], rest);
      CsvRoundTrip(rows[1..]);
      assert [rows[0]] + rows[1..] == rows;
    }
  }

  /** The text of a range of more than one cell reads back to the texts of
      its cells, an empty cell as an empty field. */
  lemma RangeCsvRoundTrip(g: Grid, a: Range)
    requires a.Valid() && !(a.rows == 1 && a.cols == 1)
    ensures ParseCsv(RangeCsv(g, a)) == Some(Texts(g, a))
    ensures forall i, j :: 0 <= i < a.rows && 0 <= j < a.cols && g(a.row + i, a.col + j).value.JNull? ==>
      Texts(g, a)[i][j] == ""
  {
    RangeTextsParse(g, a);
    NullCellsEmpty(g, a);
  }

  /** The text of a range of more than one cell parses back to its texts. */
  lemma RangeTextsParse(g: Grid, a: Range)
    requires a.Valid() && !(a.rows == 1 && a.cols == 1)
    ensures ParseCsv(RangeCsv(g, a)) == Some(Texts(g, a))
  {
    var t := Texts(g, a);
    assert forall i :: 0 <= i < |t| ==> |t[i]| >= 1;
    CsvRoundTrip(t);
  }

  /** An empty cell's text is empty. */
  lemma NullCellsEmpty(g: Grid, a: Range)
    requires a.Valid()
    ensures forall i, j :: 0 <= i < a.rows && 0 <= j < a.cols && g(a.row + i, a.col + j).value.JNull? ==>
      Texts(g, a)[i][j] == ""
  {
    var t := Texts(g, a);
    forall i, j | 0 <= i < a.rows && 0 <= j < a.cols && g(a.row + i, a.col + j).value.JNull?
      ensures t[i][j] == ""
    {
      assert t[i] == RowTexts(g, a, i);
    }
  }

  /** A field is quoted exactly when it needs to be, and a quoted field's
      inside holds every original quote doubled. */
  lemma EncodeFieldShape(s: string)
    ensures EncodeField(s) == s <==> !NeedsQuotes(s)
    ensures NeedsQuotes(s) ==> EncodeField(s)[1..|EncodeField(s)| - 1] == Doubled(s)
  {
    if NeedsQuotes(s) {
      var f := EncodeField(s);
      assert |Doubled(s)| >= |s| by { DoubledLength(s); }
      assert f[1..|f| - 1] == Doubled(s);
    }
  }

  lemma {:induction false} DoubledLength(s: string)
    ensures |Doubled(s)| >= |s|
    decreases |s|
  {
    if s != [] {
      DoubledStep(s);
      DoubledLength(s[1..]);
    }
  }
}
