/** The Office.js pane (`taskpane.js`): its prompt list kept in local storage,
    the list of uploaded files, how a file's text is read and cut, the page cap
    of the PDF reader, and `generateAndFill`, which sends the prompt, the
    captured picture and the file texts, checks the reply and fills the range. */
module JsPane {
  import opened Wrappers
  import opened Strings
  import opened Models
  import opened Host
  import opened ScriptText
  import opened Reconciler
  import opened Context

  // ---------------------------------------------------------------------------
  // Prompt list
  // ---------------------------------------------------------------------------

  /** Where `Array.prototype.splice(index, 1)` starts: a negative index counts
      from the end (and stops at 0), a large one stops at the length. */
  function SpliceStart(len: nat, index: int): (k: nat)
    ensures k <= len
  {
    if index < 0 then (if len + index < 0 then 0 else len + index)
    else if index > len then len
    else index
  }

  /** `splice(index, 1)`: removes the element at the start position, if there
      is one. */
  function Splice<T>(s: seq<T>, index: int): (r: seq<T>)
    ensures 0 <= index < |s| ==> r == s[..index] + s[index + 1..]
    ensures index >= |s| ==> r == s
    ensures -|s| <= index < 0 ==> r == s[..|s| + index] + s[|s| + index + 1..]
    ensures index < -|s| && |s| > 0 ==> r == s[1..]
    ensures |r| == if s == [] then 0 else if index >= |s| then |s| else |s| - 1
  {
    var k := SpliceStart(|s|, index);
    if k < |s| then s[..k] + s[k + 1..] else s
  }

  /** Deleting by an index of the shown list keeps every other prompt in order. */
  lemma SpliceKeepsOthers<T>(s: seq<T>, index: nat, k: nat)
    requires index < |s| && k < |s| - 1
    ensures Splice(s, index)[k] == if k < index then s[k] else s[k + 1]
  {
  }

  // ---------------------------------------------------------------------------
  // Uploaded files and how their text is read
  // ---------------------------------------------------------------------------

  /** A file handed over by drop or paste: its name, its MIME type, what
      `FileReader.readAsText` yields (nothing when the reader fails), and what
      pdf.js yields (for each page, the strings of its text items) or the
      message of its failure. */
  datatype JsFile = JsFile(name: string, mimeType: string, text: Option<string>, pdf: Result<seq<seq<string>>>)

  /** The reader `readFileContent` picks. */
  datatype Reader = PdfReader | TextReader | NoReader

  /** The PDF type wins; a `text/` type or one of four name endings, compared
      with letter case, selects the text reader; anything else is not read. */
  function ReaderOf(name: string, mimeType: string): Reader {
    if mimeType == "application/pdf" then PdfReader
    else if "text/" <= mimeType || EndsWith(name, ".json") || EndsWith(name, ".csv")
            || EndsWith(name, ".md") || EndsWith(name, ".txt") then TextReader
    else NoReader
  }

  /** The browser pane compares name endings with letter case, where the C#
      panes lower-case the extension first: a `.TXT` file without a text type is
      embedded by a C# pane and only named here. */
  lemma JsClassificationCaseSensitive(folder: string, stem: string)
    requires forall i :: 0 <= i < |stem| ==> !IsSeparator(stem[i]) && stem[i] != '.'
    ensures KindOf(folder + "\\" + stem + "." + "TXT") == TextFile
    ensures ReaderOf(stem + ".TXT", "") == NoReader
  {
    ExtensionOf(folder, stem, "TXT");
    assert LowerAll(".TXT") == ".txt";
    UpperSuffixNotRead(stem);
  }

  lemma UpperSuffixNotRead(stem: string)
    ensures ReaderOf(stem + ".TXT", "") == NoReader
  {
    var upper := stem + ".TXT";
    assert upper[|upper| - 1] == 'T';
    assert upper[|upper| - 2] == 'X';
  }

  /** The note that stands for a file that is not read. */
  function UnsupportedNote(name: string, mimeType: string): string {
    "[File: " + name + " (Type: " + mimeType + ") - Content reading not supported for this type. Only Text and PDF are supported.]"
  }

  /** The rejection of `readTextFile` is the reader's error event, which has no
      `message`: the error line reads "undefined". */
  const ReaderErrorMessage: string := "undefined"

  /** `readFileContent`: the PDF text, the file's text, or the note; the two
      readers can fail. */
  function ReadFileContent(f: JsFile): (r: Result<string>)
    ensures ReaderOf(f.name, f.mimeType) == NoReader ==> r == Ok(UnsupportedNote(f.name, f.mimeType))
    ensures r.Err? ==> ReaderOf(f.name, f.mimeType) != NoReader
  {
    match ReaderOf(f.name, f.mimeType)
    case PdfReader =>
      (match f.pdf
       case Ok(pages) => Ok(PdfText(pages))
       case Err(m) => Err("Failed to parse PDF. " + m))
    case TextReader =>
      (match f.text
       case Some(t) => Ok(t)
       case None => Err(ReaderErrorMessage))
    case NoReader => Ok(UnsupportedNote(f.name, f.mimeType))
  }

  // ---------------------------------------------------------------------------
  // PDF text
  // ---------------------------------------------------------------------------

  /** `Math.min(pdf.numPages, 5)`. */
  const MaxPdfPages: nat := 5

  function Min(a: nat, b: nat): nat {
    if a < b then a else b
  }

  /** `items.map(item => item.str).join(" ")`. */
  function Join(items: seq<string>, sep: string): string
    decreases |items|
  {
    if items == [] then ""
    else if |items| == 1 then items[0]
    else Join(items[..|items| - 1], sep) + sep + items[|items| - 1]
  }

  /** The text the loop appends for page `i` (numbered from 1). */
  function PageBlock(i: nat, pageText: string): string {
    "--- Page " + NatToString(i) + " ---\n" + pageText + "\n"
  }

  /** The blocks of the first `n` pages, in page order. */
  function PagesText(pages: seq<seq<string>>, n: nat): string
    requires n <= |pages|
  {
    if n == 0 then "" else PagesText(pages, n - 1) + PageBlock(n, Join(pages[n - 1], " "))
  }

  /** The note appended when pages were left out. */
  function OmittedNote(k: nat): string {
    "\n... [" + NatToString(k) + " more pages omitted] ..."
  }

  /** What follows the pages: the note when pages were left out. */
  function PdfTail(numPages: nat): string {
    if numPages > MaxPdfPages then OmittedNote(numPages - MaxPdfPages) else ""
  }

  /** `readPdfFile` on a document that loads: the first five pages, then the
      note naming how many pages were left out. */
  function PdfText(pages: seq<seq<string>>): string {
    PagesText(pages, Min(|pages|, MaxPdfPages)) + PdfTail(|pages|)
  }

  /** The page loop of `readPdfFile`. */
  method ReadPdfFile(pages: seq<seq<string>>) returns (fullText: string)
    ensures fullText == PdfText(pages)
  {
    fullText := "";
    var maxPages := Min(|pages|, MaxPdfPages);
    var i := 1;
    while i <= maxPages
      invariant 1 <= i <= maxPages + 1
      invariant fullText == PagesText(pages, i - 1)
    {
      var pageText := Join(pages[i - 1], " ");
      fullText := fullText + PageBlock(i, pageText);
      i := i + 1;
    }
    if |pages| > maxPages {
      fullText := fullText + OmittedNote(|pages| - maxPages);
    } else {
      assert fullText + "" == fullText;
    }
  }

  /** The blocks of `n` pages depend only on those pages. */
  lemma {:induction false} PagesTextPrefix(p: seq<seq<string>>, q: seq<seq<string>>, n: nat)
    requires n <= |p| && n <= |q|
    requires forall k :: 0 <= k < n ==> p[k] == q[k]
    ensures PagesText(p, n) == PagesText(q, n)
  {
    if n > 0 {
      PagesTextPrefix(p, q, n - 1);
      assert p[n - 1] == q[n - 1];
    }
  }

  /** Pages after the fifth never reach the text: two documents with the same
      number of pages and the same first five pages read the same. */
  lemma PdfPageCap(p: seq<seq<string>>, q: seq<seq<string>>)
    requires |p| == |q|
    requires forall k :: 0 <= k < |p| && k < MaxPdfPages ==> p[k] == q[k]
    ensures PdfText(p) == PdfText(q)
  {
    PagesTextPrefix(p, q, Min(|p|, MaxPdfPages));
  }

  /** Each of the first five pages is read, in full. */
  lemma {:induction false} PageIncluded(pages: seq<seq<string>>, n: nat, k: nat)
    requires k < n <= |pages|
    ensures Contains(PagesText(pages, n), Join(pages[k], " "))
  {
    var t := Join(pages[k], " ");
    if k == n - 1 {
      var head := "--- Page " + NatToString(n) + " ---\n";
      assert PageBlock(n, t) == head + (t + "\n");
      assert Contains(t, t) by { assert t <= t; }
      ContainsLeft(t, "\n", t);
      ContainsRight(head, t + "\n", t);
      ContainsRight(PagesText(pages, n - 1), PageBlock(n, t), t);
    } else {
      PageIncluded(pages, n - 1, k);
      ContainsLeft(PagesText(pages, n - 1), PageBlock(n, Join(pages[n - 1], " ")), t);
    }
  }

  /** The text of a PDF: every page up to the fifth, and the note exactly when
      there are more than five. */
  lemma PdfPageRead(pages: seq<seq<string>>, k: nat)
    requires k < |pages| && k < MaxPdfPages
    ensures Contains(PdfText(pages), Join(pages[k], " "))
  {
    var n := Min(|pages|, MaxPdfPages);
    PageIncluded(pages, n, k);
    ContainsLeft(PagesText(pages, n), PdfTail(|pages|), Join(pages[k], " "));
  }

  /** A document of more than five pages ends with the note naming how many
      were left out. */
  lemma PdfOmittedNote(pages: seq<seq<string>>)
    requires |pages| > MaxPdfPages
    ensures EndsWith(PdfText(pages), OmittedNote(|pages| - MaxPdfPages))
  {
    EndsWithConcat(PagesText(pages, MaxPdfPages), PdfTail(|pages|));
  }

  /** A document of at most five pages is read whole, with no note. */
  lemma ShortPdfRead(pages: seq<seq<string>>)
    requires |pages| <= MaxPdfPages
    ensures PdfText(pages) == PagesText(pages, |pages|)
  {
    assert PagesText(pages, |pages|) + "" == PagesText(pages, |pages|);
  }

  lemma EndsWithConcat(a: string, b: string)
    ensures EndsWith(a + b, b)
  {
    assert (a + b)[|a|..] == b;
  }

  // ---------------------------------------------------------------------------
  // File texts sent with the prompt
  // ---------------------------------------------------------------------------

  /** The cap on each file's text. */
  const MaxFileChars: nat := 10000

  const TruncatedMark: string := "...[truncated]"

  /** The first 10000 characters and a mark when the text is longer. */
  function Truncate(content: string): (r: string)
    ensures |r| <= MaxFileChars + |TruncatedMark|
    ensures content[..Min(|content|, MaxFileChars)] <= r
    ensures |content| <= MaxFileChars ==> r == content
    ensures |content| > MaxFileChars ==> EndsWith(r, TruncatedMark) && |r| == MaxFileChars + |TruncatedMark|
  {
    if |content| > MaxFileChars then content[..MaxFileChars] + TruncatedMark else content
  }

  /** Cutting a cut text changes nothing. */
  lemma TruncateIdempotent(content: string)
    ensures Truncate(Truncate(content)) == Truncate(content)
  {
    if |content| > MaxFileChars {
      var r := Truncate(content);
      assert r[..MaxFileChars] == content[..MaxFileChars];
    }
  }

  /** What a file adds to the text: its text, cut, or the error line. */
  function FileBody(f: JsFile): string {
    match ReadFileContent(f)
    case Ok(c) => Truncate(c)
    case Err(m) => "[Error reading file: " + m + "]"
  }

  /** The heading and body of one file. */
  function FileEntry(name: string, body: string): string {
    "\n\n--- File: " + name + " ---\n" + body
  }

  /** `fileContexts` after the loop: one entry per file, in upload order. */
  function FileContexts(files: seq<JsFile>): string
    decreases |files|
  {
    if files == [] then ""
    else FileContexts(files[..|files| - 1]) + FileEntry(files[|files| - 1].name, FileBody(files[|files| - 1]))
  }

  /** The `for (const file of uploadedFiles)` loop. */
  method BuildFileContexts(files: seq<JsFile>) returns (fileContexts: string)
    ensures fileContexts == FileContexts(files)
  {
    fileContexts := "";
    for i := 0 to |files|
      invariant fileContexts == FileContexts(files[..i])
    {
      var file := files[i];
      assert files[..i + 1][..i] == files[..i];
      var content := ReadFileContent(file);
      var body;
      match content {
        case Ok(c) => body := Truncate(c);
        case Err(m) => body := "[Error reading file: " + m + "]";
      }
      fileContexts := fileContexts + FileEntry(file.name, body);
    }
    assert files[..|files|] == files;
  }

  /** Every file adds an entry, so the texts are empty exactly when no file was
      uploaded. */
  lemma FileContextsEmpty(files: seq<JsFile>)
    ensures FileContexts(files) == "" <==> files == []
  {
    if files != [] {
      var last := files[|files| - 1];
      assert |FileEntry(last.name, FileBody(last))| > 0;
    }
  }

  /** A text file of at most 10000 characters reaches the model verbatim. */
  lemma {:induction false} SmallTextFileSent(files: seq<JsFile>, k: nat, t: string)
    requires k < |files| && ReaderOf(files[k].name, files[k].mimeType) == TextReader
    requires files[k].text == Some(t) && |t| <= MaxFileChars
    ensures Contains(FileContexts(files), t)
    decreases |files|
  {
    var last := files[|files| - 1];
    var front := files[..|files| - 1];
    var entry := FileEntry(last.name, FileBody(last));
    if k == |files| - 1 {
      assert FileBody(last) == t;
      var head := "\n\n--- File: " + last.name + " ---\n";
      assert entry == head + t;
      assert Contains(t, t) by { assert t <= t; }
      ContainsRight(head, t, t);
      ContainsRight(FileContexts(front), entry, t);
    } else {
      assert front[k] == files[k];
      SmallTextFileSent(front, k, t);
      ContainsLeft(FileContexts(front), entry, t);
    }
  }

  // ---------------------------------------------------------------------------
  // The request
  // ---------------------------------------------------------------------------

  const DefaultUserPrompt: string := "Fill this table based on the image."
  const ReferenceLabel: string := "\n\nUser provided reference materials:"

  /** The text part: the prompt (or the default when the box is empty), then
      the file texts under their label when there are any. */
  function UserText(promptInput: string, fileContexts: string): (t: string)
    ensures promptInput != "" ==> promptInput <= t
    ensures fileContexts == "" ==> t == if promptInput == "" then DefaultUserPrompt else promptInput
    ensures fileContexts != "" ==> EndsWith(t, fileContexts)
  {
    var prompt := if promptInput == "" then DefaultUserPrompt else promptInput;
    if fileContexts == "" then prompt else prompt + ReferenceLabel + fileContexts
  }

  /** The user message: the text part, then the captured picture when there is
      one. */
  function UserParts(text: string, capturedImage: Option<string>): (parts: seq<Part>)
    ensures |parts| == 2 <==> !IsNullOrEmpty(capturedImage)
    ensures |parts| >= 1 && parts[0] == TextPart(text)
    ensures |parts| == 2 ==> parts[1] == ImagePart(capturedImage.value)
  {
    [TextPart(text)] + if IsNullOrEmpty(capturedImage) then [] else [ImagePart(capturedImage.value)]
  }

  const CaptureFirst: string := "Please capture a selection first."
  const ApiKeyFirst: string := "Please enter an API Key in Settings."
  const Done: string := "Done! Table filled."

  /** What the status line says after a reply: the reply is fence-stripped and
      parsed, checked to be a list of lists, and written. */
  function FillResult(g: Grid, original: Range, reply: Result<string>, parse: string -> Option<Json>): (r: (string, Grid))
    requires original.Valid()
    ensures reply.Err? ==> r == ("Error: " + reply.message, g)
    ensures reply.Ok? && ValidateTable(parse(JsStripFence(reply.value))).Err? ==> r.1 == g
  {
    match reply
    case Err(m) => ("Error: " + m, g)
    case Ok(content) =>
      match ValidateTable(parse(JsStripFence(content)))
      case Err(m) => ("Error: " + m, g)
      case Ok(table) =>
        var (outcome, g') := JsFill(g, original, table);
        if outcome.Written? then (Done, g') else ("Error: " + outcome.message, g')
  }

  /** A reply that is a fenced list of rows of the range's width fills the
      resized range with its rows. */
  lemma FencedTableFills(g: Grid, original: Range, m: string, parse: string -> Option<Json>, table: seq<Json>)
    requires original.Valid() && IsTrimmed(m) && !(Fence <= m)
    requires parse(m) == Some(JArr(table)) && |table| > 0 && Fits(table, original.cols)
    ensures FillResult(g, original, Ok("```json\n" + m + "\n```"), parse) ==
      (Done, Assigned(JsFormatted(g, original, |table|), ResizedTarget(original, |table|), Rows(table)))
  {
    JsStripRoundTrip(m);
  }

  // ---------------------------------------------------------------------------
  // The pane's state
  // ---------------------------------------------------------------------------

  /** The module-level state of `taskpane.js` and the inputs it reads. */
  class TaskPane {
    /** `capturedRangeAddress`, as the range it names. */
    var capturedRange: Option<Range>
    var capturedImage: Option<string>
    var uploadedFiles: seq<JsFile>
    var savedPrompts: seq<PromptPreset>
    /** The `userPrompts` entry of local storage, as the list it holds. */
    var storage: Option<seq<PromptPreset>>
    var apiKey: string
    var promptInput: string
    var newTitle: string
    var newContent: string
    var settingsShown: bool
    var status: string

    /** The prompt list and the stored list agree. */
    predicate Synced()
      reads this
    {
      storage == Some(savedPrompts)
    }

    /** The pane as the page opens, before `loadPrompts`. */
    constructor (stored: Option<seq<PromptPreset>>, key: string)
      ensures capturedRange == None && capturedImage == None && uploadedFiles == []
      ensures savedPrompts == [] && storage == stored && apiKey == key
      ensures promptInput == "" && newTitle == "" && newContent == ""
      ensures !settingsShown && status == ""
    {
      capturedRange := None;
      capturedImage := None;
      uploadedFiles := [];
      savedPrompts := [];
      storage := stored;
      apiKey := key;
      promptInput := "";
      newTitle := "";
      newContent := "";
      settingsShown := false;
      status := "";
    }

    /** `loadPrompts`: the stored list, or the defaults, which are then stored. */
    method LoadPrompts()
      modifies this
      ensures old(storage).Some? ==> savedPrompts == old(storage).value
      ensures old(storage).None? ==> savedPrompts == DefaultPrompts
      ensures Synced()
      ensures uploadedFiles == old(uploadedFiles) && promptInput == old(promptInput)
      ensures capturedRange == old(capturedRange) && capturedImage == old(capturedImage)
      ensures apiKey == old(apiKey) && newTitle == old(newTitle) && newContent == old(newContent)
      ensures settingsShown == old(settingsShown) && status == old(status)
    {
      if storage.Some? {
        savedPrompts := storage.value;
      } else {
        savedPrompts := DefaultPrompts;
        storage := Some(savedPrompts);
      }
    }

    /** `addNewPrompt`: both boxes filled appends the prompt, stores the list and
      empties the boxes; otherwise nothing happens. */
    method AddNewPrompt()
      modifies this
      ensures old(newTitle) != "" && old(newContent) != "" ==>
        savedPrompts == old(savedPrompts) + [PromptPreset(old(newTitle), old(newContent))]
        && Synced() && newTitle == "" && newContent == ""
      ensures old(newTitle) == "" || old(newContent) == "" ==>
        savedPrompts == old(savedPrompts) && storage == old(storage)
        && newTitle == old(newTitle) && newContent == old(newContent)
      ensures uploadedFiles == old(uploadedFiles) && promptInput == old(promptInput)
      ensures capturedRange == old(capturedRange) && capturedImage == old(capturedImage)
      ensures apiKey == old(apiKey) && settingsShown == old(settingsShown) && status == old(status)
    {
      if newTitle != "" && newContent != "" {
        savedPrompts := savedPrompts + [PromptPreset(newTitle, newContent)];
        storage := Some(savedPrompts);
        newTitle := "";
        newContent := "";
      }
    }

    /** `deletePrompt(index)`: after confirmation, `splice(index, 1)` and store. */
    method DeletePrompt(index: int, confirmed: bool)
      modifies this
      ensures confirmed ==> savedPrompts == Splice(old(savedPrompts), index) && Synced()
      ensures !confirmed ==> savedPrompts == old(savedPrompts) && storage == old(storage)
      ensures uploadedFiles == old(uploadedFiles) && promptInput == old(promptInput)
      ensures capturedRange == old(capturedRange) && capturedImage == old(capturedImage)
      ensures apiKey == old(apiKey) && newTitle == old(newTitle) && newContent == old(newContent)
      ensures settingsShown == old(settingsShown) && status == old(status)
    {
      if confirmed {
        savedPrompts := Splice(savedPrompts, index);
        storage := Some(savedPrompts);
      }
    }

    /** `onPromptSelectChange`: an index of the shown list copies that prompt's
      text into the box; the empty choice leaves the box alone. */
    method SelectPrompt(choice: Option<nat>)
      requires choice.Some? ==> choice.value < |savedPrompts|
      modifies this
      ensures savedPrompts == old(savedPrompts) && storage == old(storage)
      ensures choice.Some? ==> promptInput == savedPrompts[choice.value].Content
      ensures choice.None? ==> promptInput == old(promptInput)
      ensures uploadedFiles == old(uploadedFiles)
      ensures capturedRange == old(capturedRange) && capturedImage == old(capturedImage)
      ensures apiKey == old(apiKey) && newTitle == old(newTitle) && newContent == old(newContent)
      ensures settingsShown == old(settingsShown) && status == old(status)
    {
      if choice.Some? {
        promptInput := savedPrompts[choice.value].Content;
      }
    }

    /** `captureSelection`: the selection and its picture, or, when the
        `Excel.run` batch throws, the error in the status line with the
        previous capture kept. */
    method CaptureSelection(capture: Result<(Range, string)>)
      modifies this
      ensures capture.Ok? ==> capturedRange == Some(capture.value.0) && capturedImage == Some(capture.value.1)
      ensures capture.Ok? ==> status == old(status)
      ensures capture.Err? ==> capturedRange == old(capturedRange) && capturedImage == old(capturedImage)
      ensures capture.Err? ==> status == "Error: " + capture.message
      ensures uploadedFiles == old(uploadedFiles) && promptInput == old(promptInput)
      ensures savedPrompts == old(savedPrompts) && storage == old(storage)
      ensures apiKey == old(apiKey) && newTitle == old(newTitle) && newContent == old(newContent)
      ensures settingsShown == old(settingsShown)
    {
      match capture
      case Ok((selection, image)) =>
        capturedRange := Some(selection);
        capturedImage := Some(image);
      case Err(message) =>
        status := "Error: " + message;
    }

    /** `handleFiles`: every file is appended, even one already uploaded. */
    method HandleFiles(files: seq<JsFile>)
      modifies this
      ensures uploadedFiles == old(uploadedFiles) + files
      ensures savedPrompts == old(savedPrompts) && storage == old(storage) && promptInput == old(promptInput)
      ensures capturedRange == old(capturedRange) && capturedImage == old(capturedImage)
      ensures apiKey == old(apiKey) && newTitle == old(newTitle) && newContent == old(newContent)
      ensures settingsShown == old(settingsShown) && status == old(status)
    {
      for i := 0 to |files|
        invariant uploadedFiles == old(uploadedFiles) + files[..i]
        invariant savedPrompts == old(savedPrompts) && storage == old(storage) && promptInput == old(promptInput)
        invariant capturedRange == old(capturedRange) && capturedImage == old(capturedImage)
        invariant apiKey == old(apiKey) && newTitle == old(newTitle) && newContent == old(newContent)
        invariant settingsShown == old(settingsShown) && status == old(status)
      {
        assert files[..i + 1] == files[..i] + [files[i]];
        uploadedFiles := uploadedFiles + [files[i]];
      }
      assert files[..|files|] == files;
    }

    /** `generateAndFill`. Without a captured range, or without an API key (which
      also opens the settings), nothing is sent. Otherwise the message holds the
      prompt with the file texts, then the captured picture; the reply, given
      here, is stripped of its fences, parsed by `parse`, checked to be a list of
      lists and written into the range resized to its length. A reply that
      fails any check leaves the sheet as it was. */
    method GenerateAndFill(sheet: Worksheet, reply: Result<string>, parse: string -> Option<Json>)
      returns (sent: Option<seq<Part>>)
      requires capturedRange.Some? ==> capturedRange.value.Valid()
      modifies this, sheet
      ensures capturedRange == old(capturedRange) && capturedImage == old(capturedImage)
      ensures uploadedFiles == old(uploadedFiles) && promptInput == old(promptInput)
      ensures savedPrompts == old(savedPrompts) && storage == old(storage)
      ensures apiKey == old(apiKey) && newTitle == old(newTitle) && newContent == old(newContent)
      ensures capturedRange.None? ==>
        sent.None? && status == CaptureFirst && sheet.cells == old(sheet.cells)
        && settingsShown == old(settingsShown)
      ensures capturedRange.Some? && apiKey == "" ==>
        sent.None? && status == ApiKeyFirst && sheet.cells == old(sheet.cells)
        && settingsShown == !old(settingsShown)
      ensures capturedRange.Some? && apiKey != "" ==>
        sent == Some(UserParts(UserText(promptInput, FileContexts(uploadedFiles)), capturedImage))
        && (status, sheet.cells) == FillResult(old(sheet.cells), capturedRange.value, reply, parse)
        && settingsShown == old(settingsShown)
    {
      if capturedRange.None? {
        status := CaptureFirst;
        return None;
      }
      if apiKey == "" {
        status := ApiKeyFirst;
        settingsShown := !settingsShown;
        return None;
      }
      var fileContexts := "";
      if |uploadedFiles| > 0 {
        fileContexts := BuildFileContexts(uploadedFiles);
      }
      var text := UserText(promptInput, fileContexts);
      sent := Some(UserParts(text, capturedImage));
      var r := FillResult(sheet.cells, capturedRange.value, reply, parse);
      status := r.0;
      sheet.cells := r.1;
    }
  }
}
