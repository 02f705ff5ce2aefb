/** The text and images a run sends with its prompt: the file-name rules of
    `System.IO.Path`, the classification of attached files by extension, the
    context blocks the three C# panes write with `StringBuilder.AppendLine`,
    and the order of the parts of the user message. */
module Context {
  import opened Wrappers
  import opened Strings
  import opened Models

  // ---------------------------------------------------------------------------
  // File names
  // ---------------------------------------------------------------------------

  /** The characters `Path.GetFileName` and `Path.GetExtension` stop at: the
      directory separators and the volume separator. */
  predicate IsSeparator(c: char) {
    c == '\\' || c == '/' || c == ':'
  }

  /** The index of the last separator, or -1. */
  function LastSeparator(s: string): (k: int)
    ensures -1 <= k < |s|
    ensures k >= 0 ==> IsSeparator(s[k])
    ensures forall i :: k < i < |s| ==> !IsSeparator(s[i])
    decreases |s|
  {
    if s == [] then -1
    else if IsSeparator(s[|s| - 1]) then |s| - 1
    else LastSeparator(s[..|s| - 1])
  }

  /** The index of the last dot, or -1. */
  function LastDot(s: string): (k: int)
    ensures -1 <= k < |s|
    ensures k >= 0 ==> s[k] == '.'
    ensures forall i :: k < i < |s| ==> s[i] != '.'
    decreases |s|
  {
    if s == [] then -1
    else if s[|s| - 1] == '.' then |s| - 1
    else LastDot(s[..|s| - 1])
  }

  /** `Path.GetFileName`: what follows the last separator. */
  function FileName(path: string): (r: string)
    ensures EndsWith(path, r)
    ensures forall i :: 0 <= i < |r| ==> !IsSeparator(r[i])
    ensures |r| < |path| ==> IsSeparator(path[|path| - |r| - 1])
  {
    path[LastSeparator(path) + 1..]
  }

  /** `Path.GetExtension`: the file name from its last dot on, or the empty text
      when the name has no dot or ends with one. */
  function Extension(path: string): (r: string)
    ensures r == [] || (|r| >= 2 && r[0] == '.')
    ensures forall i :: 1 <= i < |r| ==> r[i] != '.'
  {
    var name := FileName(path);
    var d := LastDot(name);
    if d < 0 || d == |name| - 1 then [] else name[d..]
  }

  /** The extension is the end of the file name. */
  lemma ExtensionEndsName(path: string)
    ensures EndsWith(FileName(path), Extension(path))
  {
  }

  /** The name of a file in a folder is the part after the folder. */
  lemma FileNameInFolder(folder: string, name: string)
    requires forall i :: 0 <= i < |name| ==> !IsSeparator(name[i])
    ensures FileName(folder + "\\" + name) == name
  {
    var p := folder + "\\" + name;
    var k := LastSeparator(p);
    assert IsSeparator(p[|folder|]);
    assert forall i :: |folder| < i < |p| ==> p[i] == name[i - |folder| - 1];
    assert k == |folder|;
    assert p[k + 1..] == name;
  }

  // ---------------------------------------------------------------------------
  // Classification
  // ---------------------------------------------------------------------------

  /** How a pane treats an attached file, by its lower-cased extension. */
  datatype FileKind = TextFile | ImageFile | OtherFile

  const TextExtensions: set<string> := {".txt", ".csv", ".json", ".md"}
  const ImageExtensions: set<string> := {".png", ".jpg", ".jpeg", ".bmp", ".gif"}

  /** `Path.GetExtension(file).ToLower()` compared with the two lists. */
  function KindOf(path: string): FileKind {
    var ext := LowerAll(Extension(path));
    if ext in TextExtensions then TextFile
    else if ext in ImageExtensions then ImageFile
    else OtherFile
  }

  /** The extension is compared without regard to letter case. */
  lemma KindIgnoresCase(folder: string, stem: string, ext: string, ext2: string)
    requires LowerAll(ext) == LowerAll(ext2)
    requires forall i :: 0 <= i < |stem| ==> !IsSeparator(stem[i]) && stem[i] != '.'
    requires |ext| >= 1 && forall i :: 0 <= i < |ext| ==> !IsSeparator(ext[i]) && ext[i] != '.'
    requires |ext2| == |ext| && forall i :: 0 <= i < |ext2| ==> !IsSeparator(ext2[i]) && ext2[i] != '.'
    ensures KindOf(folder + "\\" + stem + "." + ext) == KindOf(folder + "\\" + stem + "." + ext2)
  {
    ExtensionOf(folder, stem, ext);
    ExtensionOf(folder, stem, ext2);
    assert LowerAll("." + ext) == "." + LowerAll(ext);
    assert LowerAll("." + ext2) == "." + LowerAll(ext2);
  }

  /** The extension of `folder\stem.ext` is `.ext`. */
  lemma ExtensionOf(folder: string, stem: string, ext: string)
    requires forall i :: 0 <= i < |stem| ==> !IsSeparator(stem[i]) && stem[i] != '.'
    requires |ext| >= 1 && forall i :: 0 <= i < |ext| ==> !IsSeparator(ext[i]) && ext[i] != '.'
    ensures Extension(folder + "\\" + stem + "." + ext) == "." + ext
  {
    var name := stem + "." + ext;
    assert folder + "\\" + stem + "." + ext == folder + "\\" + name;
    FileNameInFolder(folder, name);
    var d := LastDot(name);
    assert name[|stem|] == '.';
    assert forall i :: |stem| < i < |name| ==> name[i] == ext[i - |stem| - 1];
    assert d == |stem|;
    assert name[d..] == "." + ext;
  }

  // ---------------------------------------------------------------------------
  // The files a run can read
  // ---------------------------------------------------------------------------

  /** An existing file: its text, and its bytes in base 64 or the error that
      reading them raised. */
  datatype FileData = FileData(text: string, base64: Result<string>)

  /** The file system as the run sees it: a path is in the map when
      `File.Exists` holds for it. */
  type Files = map<string, FileData>

  /** Which run assembles the context. The write runs of the WPF panes embed
      text files, attach images and name other files; the data-operation run of
      the newer pane embeds text files only; the WinForms pane embeds text files
      and names every other file, images included. */
  datatype Mode = WpfWrite | WpfDataOp | WinForms

  /** What one attached file contributes: its text embedded under its name, an
      image attached under its name, or only its name. */
  datatype Piece =
    | Embedded(name: string, text: string)
    | Attached(name: string, image: string)
    | Named(name: string)

  /** The contribution of one file. A missing file contributes nothing, and so
      does an image whose bytes cannot be read (the `catch { }` around the
      read). */
  function Contribution(path: string, fs: Files, mode: Mode): (c: Option<Piece>)
    ensures path !in fs ==> c.None?
    ensures c.Some? && c.value.Attached? ==> mode == WpfWrite && KindOf(path) == ImageFile
    ensures c.Some? ==> c.value.name == FileName(path)
  {
    if path !in fs then None
    else
      var name := FileName(path);
      match KindOf(path)
      case TextFile => Some(Embedded(name, fs[path].text))
      case ImageFile =>
        if mode == WpfWrite then
          match fs[path].base64
          case Ok(image) => Some(Attached(name, image))
          case Err(_) => None
        else if mode == WinForms then Some(Named(name))
        else None
      case OtherFile =>
        if mode == WpfDataOp then None else Some(Named(name))
  }

  /** The contributions of a list of files, in list order. */
  function Contributions(paths: seq<string>, fs: Files, mode: Mode): (ps: seq<Piece>)
    ensures |ps| <= |paths|
    ensures mode != WpfWrite ==> forall i :: 0 <= i < |ps| ==> !ps[i].Attached?
    decreases |paths|
  {
    if paths == [] then []
    else
      Contributions(paths[..|paths| - 1], fs, mode)
      + match Contribution(paths[|paths| - 1], fs, mode)
        case None => []
        case Some(piece) => [piece]
  }

  /** The contributions of two lists one after the other are those of the joined
      list: they keep the order of the list. */
  lemma {:induction false} ContributionsAppend(p: seq<string>, q: seq<string>, fs: Files, mode: Mode)
    ensures Contributions(p + q, fs, mode) == Contributions(p, fs, mode) + Contributions(q, fs, mode)
    decreases |q|
  {
    if q == [] {
      assert p + q == p;
      assert Contributions(q, fs, mode) == [];
    } else {
      var q' := q[..|q| - 1];
      AppendFront(p, q);
      ContributionsSplit(p + q, fs, mode);
      ContributionsSplit(q, fs, mode);
      ContributionsAppend(p, q', fs, mode);
      var c, d, e := Contributions(p, fs, mode), Contributions(q', fs, mode), LastPiece(q[|q| - 1], fs, mode);
      AppendAssoc(c, d, e);
    }
  }

  /** What the last file of a list adds to the contributions. */
  function LastPiece(path: string, fs: Files, mode: Mode): seq<Piece> {
    match Contribution(path, fs, mode)
    case None => []
    case Some(piece) => [piece]
  }

  lemma ContributionsSplit(paths: seq<string>, fs: Files, mode: Mode)
    requires paths != []
    ensures Contributions(paths, fs, mode)
            == Contributions(paths[..|paths| - 1], fs, mode) + LastPiece(paths[|paths| - 1], fs, mode)
  {
  }

  lemma AppendAssoc<T>(a: seq<T>, b: seq<T>, c: seq<T>)
    ensures a + b + c == a + (b + c)
  {
  }

  lemma AppendFront<T>(p: seq<T>, q: seq<T>)
    requires q != []
    ensures (p + q)[..|p + q| - 1] == p + q[..|q| - 1] && (p + q)[|p + q| - 1] == q[|q| - 1]
  {
  }

  /** The contributions of a single file. */
  lemma ContributionsSingle(path: string, fs: Files, mode: Mode)
    ensures Contributions([path], fs, mode) ==
      match Contribution(path, fs, mode) case None => [] case Some(piece) => [piece]
  {
    assert [path][..0] == [];
  }

  /** A file that does not exist leaves the context as if it were not attached. */
  lemma MissingFileIgnored(p: seq<string>, missing: string, q: seq<string>, fs: Files, mode: Mode)
    requires missing !in fs
    ensures Contributions(p + [missing] + q, fs, mode) == Contributions(p + q, fs, mode)
  {
    ContributionsAppend(p + [missing], q, fs, mode);
    ContributionsAppend(p, [missing], fs, mode);
    ContributionsSingle(missing, fs, mode);
    ContributionsAppend(p, q, fs, mode);
    assert Contributions([missing], fs, mode) == [];
    assert Contributions(p, fs, mode) + [] == Contributions(p, fs, mode);
  }

  /** Every existing text file is embedded with its whole text, in every mode. */
  lemma TextFileEmbedded(p: seq<string>, path: string, q: seq<string>, fs: Files, mode: Mode)
    requires path in fs && KindOf(path) == TextFile
    ensures Contributions(p + [path] + q, fs, mode) ==
      Contributions(p, fs, mode) + [Embedded(FileName(path), fs[path].text)] + Contributions(q, fs, mode)
  {
    ContributionsAppend(p + [path], q, fs, mode);
    ContributionsAppend(p, [path], fs, mode);
    ContributionsSingle(path, fs, mode);
  }

  /** An image attached to the write run of a WPF pane becomes one image of the
      message, in its place among the other attached images; the other runs
      never attach one. */
  lemma ImageAttached(p: seq<string>, path: string, q: seq<string>, fs: Files, image: string)
    requires path in fs && KindOf(path) == ImageFile && fs[path].base64 == Ok(image)
    ensures Contributions(p + [path] + q, fs, WpfWrite) ==
      Contributions(p, fs, WpfWrite) + [Attached(FileName(path), image)] + Contributions(q, fs, WpfWrite)
  {
    ContributionsAppend(p + [path], q, fs, WpfWrite);
    ContributionsAppend(p, [path], fs, WpfWrite);
    ContributionsSingle(path, fs, WpfWrite);
  }

  /** `AppendLine`: the text and the line break of Windows. */
  function TextLine(s: string): string {
    s + "\r\n"
  }

  const BinaryPlaceholder: string :=
    "[Binary/PDF content reading requires NuGet packages. Filename provided for context.]"

  /** The lines a contribution appends to the context. */
  function Render(piece: Piece): string {
    match piece
    case Embedded(name, text) => TextLine("--- File: " + name + " ---") + TextLine(text)
    case Attached(name, _) => TextLine("--- Image File: " + name + " (Attached) ---")
    case Named(name) => TextLine("--- File: " + name + " ---") + TextLine(BinaryPlaceholder)
  }

  /** The lines of a list of contributions, in order. */
  function RenderAll(ps: seq<Piece>): string
    decreases |ps|
  {
    if ps == [] then "" else RenderAll(ps[..|ps| - 1]) + Render(ps[|ps| - 1])
  }

  /** The images of a list of contributions, in order. */
  function Images(ps: seq<Piece>): (images: seq<string>)
    ensures |images| <= |ps|
    ensures (forall i :: 0 <= i < |ps| ==> !ps[i].Attached?) ==> images == []
    decreases |ps|
  {
    if ps == [] then []
    else Images(ps[..|ps| - 1]) + (if ps[|ps| - 1].Attached? then [ps[|ps| - 1].image] else [])
  }

  /** The text of an embedded file reaches the model verbatim. */
  lemma {:induction false} EmbeddedTextRendered(ps: seq<Piece>, k: nat)
    requires k < |ps| && ps[k].Embedded?
    ensures Contains(RenderAll(ps), ps[k].text)
    decreases |ps|
  {
    var last := ps[|ps| - 1];
    var front := ps[..|ps| - 1];
    var t := ps[k].text;
    if k == |ps| - 1 {
      var head := TextLine("--- File: " + last.name + " ---");
      assert Render(last) == head + (t + "\r\n");
      assert Contains(t, t) by { assert t <= t; }
      ContainsLeft(t, "\r\n", t);
      ContainsRight(head, t + "\r\n", t);
      ContainsRight(RenderAll(front), Render(last), t);
    } else {
      assert front[k] == ps[k];
      EmbeddedTextRendered(front, k);
      ContainsLeft(RenderAll(front), Render(last), t);
    }
  }

  /** The contributions of one file, as a list of at most one. */
  function Step(c: Option<Piece>): (ps: seq<Piece>)
    ensures |ps| <= 1
  {
    match c
    case None => []
    case Some(piece) => [piece]
  }

  /** One more file extends the contributions of a prefix by its own. */
  lemma ContributionsStep(paths: seq<string>, i: nat, fs: Files, mode: Mode)
    requires i < |paths|
    ensures Contributions(paths[..i + 1], fs, mode) ==
      Contributions(paths[..i], fs, mode) + Step(Contribution(paths[i], fs, mode))
  {
    assert paths[..i + 1][..i] == paths[..i];
    assert paths[..i + 1][i] == paths[i];
  }

  /** At most one more contribution extends the lines and the images. */
  lemma RenderStep(before: seq<Piece>, extra: seq<Piece>, sb0: string)
    requires |extra| <= 1
    ensures sb0 + RenderAll(before + extra) == (sb0 + RenderAll(before)) + RenderAll(extra)
    ensures Images(before + extra) == Images(before) + Images(extra)
  {
    if extra == [] {
      assert before + extra == before;
    } else {
      assert (before + extra)[..|before|] == before;
      assert extra[..0] == [];
    }
  }

  /** The body of the loop for one file. */
  method AppendFile(sb0: string, images0: seq<string>, c: Option<Piece>)
    returns (sb: string, images: seq<string>)
    ensures sb == sb0 + RenderAll(Step(c))
    ensures images == images0 + Images(Step(c))
  {
    sb, images := sb0, images0;
    if c.Some? {
      var piece := c.value;
      assert [piece][..0] == [];
      sb := sb + Render(piece);
      if piece.Attached? {
        images := images + [piece.image];
      }
    }
  }

  /** The `foreach (var att in attachments)` loop: each existing file appends its
      lines to the builder and its image, if any, to `additionalImages`. */
  method AppendAttachments(sb0: string, paths: seq<string>, fs: Files, mode: Mode)
    returns (sb: string, images: seq<string>)
    ensures sb == sb0 + RenderAll(Contributions(paths, fs, mode))
    ensures images == Images(Contributions(paths, fs, mode))
  {
    sb := sb0;
    images := [];
    for i := 0 to |paths|
      invariant sb == sb0 + RenderAll(Contributions(paths[..i], fs, mode))
      invariant images == Images(Contributions(paths[..i], fs, mode))
    {
      ContributionsStep(paths, i, fs, mode);
      RenderStep(Contributions(paths[..i], fs, mode), Step(Contribution(paths[i], fs, mode)), sb0);
      sb, images := AppendFile(sb, images, Contribution(paths[i], fs, mode));
    }
    assert paths[..|paths|] == paths;
  }

  // ---------------------------------------------------------------------------
  // The context blocks before the files
  // ---------------------------------------------------------------------------

  const HeaderNote: string := "(NOTE: This header is provided for context only. Do NOT include it in the output data.)"
  const FreshDataInstruction: string := "Ignore any existing data values. Generate completely new data based on the header structure."

  /** The header block of the write runs: the cached header text (a null text
      interpolates as nothing) and the row the write starts at. */
  function HeaderBlock(info: HeaderInfo, startRow: int): string {
    TextLine("--- Header Information ---")
    + TextLine("Header Content: " + info.HeaderContent.GetOr(""))
    + TextLine(HeaderNote)
    + TextLine("Target Write Start Row: " + IntToString(startRow))
  }

  /** The newer pane's data block: the existing data as CSV when "reference
      existing data" is checked, otherwise the instruction to ignore it. */
  function DataBlock(useExisting: bool, csv: string): string {
    if useExisting then TextLine("--- Existing Data (CSV) ---") + TextLine(csv)
    else TextLine("--- Instruction ---") + TextLine(FreshDataInstruction)
  }

  /** The manual context block, skipped for blank text; the write runs and the
      WinForms pane add an empty line after it, the data-operation run does not. */
  function ManualBlock(manual: string, blankLine: bool): (b: string)
    ensures b == "" <==> IsNullOrWhiteSpace(Some(manual))
  {
    if IsNullOrWhiteSpace(Some(manual)) then ""
    else TextLine("--- Manual Context ---") + TextLine(manual) + (if blankLine then "\r\n" else "")
  }

  /** The data-operation run's head: the selection as CSV. */
  function SelectedDataBlock(csv: string): string {
    TextLine("--- Selected Data (CSV) ---") + TextLine(csv)
  }

  /** The manual text, when it is not blank, reaches the model verbatim. */
  lemma ManualTextEmbedded(manual: string, blankLine: bool)
    requires !IsNullOrWhiteSpace(Some(manual))
    ensures Contains(ManualBlock(manual, blankLine), manual)
  {
    var head := TextLine("--- Manual Context ---");
    var tail: string := if blankLine then "\r\n" else "";
    assert ManualBlock(manual, blankLine) == (head + (manual + "\r\n")) + tail;
    assert Contains(manual, manual) by { assert manual <= manual; }
    ContainsLeft(manual, "\r\n", manual);
    ContainsRight(head, manual + "\r\n", manual);
    ContainsLeft(head + (manual + "\r\n"), tail, manual);
  }

  /** With "reference existing data" checked the CSV text reaches the model; the
      instruction to ignore it is sent exactly when it is not checked. */
  lemma DataBlockChoice(useExisting: bool, csv: string)
    ensures useExisting ==> Contains(DataBlock(useExisting, csv), csv)
    ensures !useExisting ==> Contains(DataBlock(useExisting, csv), FreshDataInstruction)
  {
    var b := DataBlock(useExisting, csv);
    var x := if useExisting then csv else FreshDataInstruction;
    var head := if useExisting then TextLine("--- Existing Data (CSV) ---") else TextLine("--- Instruction ---");
    assert b == head + (x + "\r\n");
    assert Contains(x, x) by { assert x <= x; }
    ContainsLeft(x, "\r\n", x);
    ContainsRight(head, x + "\r\n", x);
  }

  // ---------------------------------------------------------------------------
  // The parts of the user message
  // ---------------------------------------------------------------------------

  /** One part of the user message: text, or a PNG image in base 64. */
  datatype Part = TextPart(text: string) | ImagePart(base64: string)

  /** Whether the captured picture goes with a write run. The newer pane sends it
      only when existing data is referenced. */
  function SendsCapture(pane: Pane, useExisting: bool, captured: Option<string>): (sent: Option<string>)
    ensures sent.Some? ==> captured == sent && !IsNullOrEmpty(captured)
    ensures pane != NewerPane && !IsNullOrEmpty(captured) ==> sent == captured
  {
    if IsNullOrEmpty(captured) then None
    else if pane == NewerPane && !useExisting then None
    else captured
  }

  /** The three panes. */
  datatype Pane = NewerPane | OlderPane | WinFormsPane

  /** A write run needs a captured picture, so under that gate the newer pane
      sends it exactly when existing data is referenced and the other panes
      always send it. */
  lemma CaptureUnderGate(useExisting: bool, captured: Option<string>)
    requires !IsNullOrEmpty(captured)
    ensures SendsCapture(NewerPane, useExisting, captured).Some? <==> useExisting
    ensures SendsCapture(OlderPane, useExisting, captured) == captured
  {
  }

  /** The user message: the prompt, a blank line and the context as one text
      part, then the captured picture if it is sent, then the attached images in
      attachment order. */
  function UserContent(prompt: string, context: string, capture: Option<string>, images: seq<string>): (parts: seq<Part>)
    ensures |parts| == 1 + (if capture.Some? then 1 else 0) + |images|
    ensures parts[0] == TextPart(prompt + "\n\n" + context)
    ensures forall i :: 1 <= i < |parts| ==> parts[i].ImagePart?
    ensures capture.Some? ==> parts[1] == ImagePart(capture.value)
    ensures forall k :: 0 <= k < |images| ==> parts[|parts| - |images| + k] == ImagePart(images[k])
  {
    [TextPart(prompt + "\n\n" + context)]
    + (if capture.Some? then [ImagePart(capture.value)] else [])
    + seq(|images|, k requires 0 <= k < |images| => ImagePart(images[k]))
  }

  /** The text part carries the prompt and the whole context. */
  lemma TextPartCarriesContext(prompt: string, context: string, capture: Option<string>, images: seq<string>)
    ensures Contains(UserContent(prompt, context, capture, images)[0].text, context)
    ensures prompt <= UserContent(prompt, context, capture, images)[0].text
  {
    var t := UserContent(prompt, context, capture, images)[0].text;
    assert t == (prompt + "\n\n") + context;
    assert Contains(context, context) by { assert context <= context; }
    ContainsRight(prompt + "\n\n", context, context);
  }

  /** `userContent.Add` for the text, the picture and each attached image. */
  method BuildUserContent(prompt: string, context: string, capture: Option<string>, images: seq<string>)
    returns (parts: seq<Part>)
    ensures parts == UserContent(prompt, context, capture, images)
  {
    parts := [TextPart(prompt + "\n\n" + context)];
    if capture.Some? {
      parts := parts + [ImagePart(capture.value)];
    }
    ghost var head := parts;
    for k := 0 to |images|
      invariant parts == head + seq(k, m requires 0 <= m < k => ImagePart(images[m]))
    {
      parts := parts + [ImagePart(images[k])];
    }
  }
}
