/** What the two WPF task panes share: the JSON files of the add-in's data
    folder and how a pane reads them back, the attachment list, the listing of
    the workbook's own macros, and the two runs of the run button (the write
    run with its header detection, region clearing and growing write, and the
    data-operation run that generates and runs a macro). */
module WpfCommon {
  import opened Wrappers
  import opened Strings
  import opened Models
  import opened Host
  import opened ScriptText
  import opened HeaderCache
  import ProviderConfig
  import opened Csv
  import opened Reconciler
  import opened Context
  import opened MacroRunner
  import opened WinFormsPane
  import opened Lists

  // ---------------------------------------------------------------------------
  // The data folder
  // ---------------------------------------------------------------------------

  /** What reading one JSON file of the data folder gives: no file, a read or
      parse that throws, or the deserialized value (`None` for the JSON
      literal `null`). */
  datatype Stored<T> = Absent | Unreadable | Parsed(value: Option<T>)

  /** `prompts.json`, `macros.json` and `settings.json` in the add-in's
      folder under the roaming application data. Writing a file stores the
      value that reading it gives back. */
  class DataFolder {
    var prompts: Stored<seq<PromptPreset>>
    var macros: Stored<seq<MacroPreset>>
    var settings: Stored<AppSettings>

    constructor (p: Stored<seq<PromptPreset>>, m: Stored<seq<MacroPreset>>, s: Stored<AppSettings>)
      ensures prompts == p && macros == m && settings == s
    {
      prompts := p;
      macros := m;
      settings := s;
    }
  }

  /** The macro a pane stores when it finds no macro list. */
  const HelloWorld: MacroPreset :=
    MacroPreset("HelloWorld", "Sub HelloWorld()\n    MsgBox \"Hello from VSTO!\"\nEnd Sub")

  /** The list field after the read of `LoadPrompts` or `LoadMacros`: a missing
      file leaves the field as it was (`None` before the first load), a file
      that cannot be read or parsed sets it to null, and otherwise it holds
      what was parsed. */
  function ReadList<T>(current: Option<seq<T>>, stored: Stored<seq<T>>): (r: Option<seq<T>>)
    ensures stored.Absent? ==> r == current
    ensures stored.Unreadable? ==> r.None?
    ensures stored.Parsed? ==> r == stored.value
  {
    match stored
    case Absent => current
    case Unreadable => None
    case Parsed(v) => v
  }

  /** Whether `LoadPrompts` falls back on the default prompts (and saves them):
      the list read is null or empty. */
  predicate PromptsReset(current: Option<seq<PromptPreset>>, stored: Stored<seq<PromptPreset>>) {
    var read := ReadList(current, stored);
    read.None? || read.value == []
  }

  /** The prompt list after `LoadPrompts`. */
  function LoadedPrompts(current: Option<seq<PromptPreset>>, stored: Stored<seq<PromptPreset>>): (r: seq<PromptPreset>)
    ensures r != []
    ensures PromptsReset(current, stored) ==> r == DefaultPrompts
    ensures !PromptsReset(current, stored) ==> Some(r) == ReadList(current, stored)
  {
    var read := ReadList(current, stored);
    if read.None? || read.value == [] then DefaultPrompts else read.value
  }

  /** Whether `LoadMacros` falls back on the single example macro (and saves
      it): only a null list does; an empty list is kept. */
  predicate MacrosReset(current: Option<seq<MacroPreset>>, stored: Stored<seq<MacroPreset>>) {
    ReadList(current, stored).None?
  }

  /** The macro list after `LoadMacros`. */
  function LoadedMacros(current: Option<seq<MacroPreset>>, stored: Stored<seq<MacroPreset>>): (r: seq<MacroPreset>)
    ensures MacrosReset(current, stored) ==> r == [HelloWorld]
    ensures !MacrosReset(current, stored) ==> Some(r) == ReadList(current, stored)
  {
    var read := ReadList(current, stored);
    if read.None? then [HelloWorld] else read.value
  }

  /** A file after a load: the fallback list is written back, otherwise the
      file is untouched. */
  function StoredAfterLoad<T>(stored: Stored<seq<T>>, reset: bool, loaded: seq<T>): (s: Stored<seq<T>>)
    ensures reset ==> s == Parsed(Some(loaded))
    ensures !reset ==> s == stored
  {
    if reset then Parsed(Some(loaded)) else stored
  }

  /** The settings after `LoadSettings`: a missing file and a file that cannot
      be read or parsed both keep the settings in memory (the `catch` is
      empty); a parsed `null`, or nothing at all before the first load, gives
      the fallback settings. */
  function LoadedSettings(current: Option<AppSettings>, stored: Stored<AppSettings>): (r: AppSettings)
    ensures stored.Parsed? && stored.value.Some? ==> r == stored.value.value
    ensures !stored.Parsed? && current.Some? ==> r == current.value
    ensures stored == Parsed(None) || (!stored.Parsed? && current.None?) ==> r == ProviderConfig.FallbackSettings()
  {
    var read := if stored.Parsed? then stored.value else current;
    if read.None? then ProviderConfig.FallbackSettings() else read.value
  }

  /** Loading twice is loading once: after a load (and the write-back it may
      do) a second load gives the same prompts and writes nothing. */
  lemma PromptLoadStable(current: Option<seq<PromptPreset>>, stored: Stored<seq<PromptPreset>>)
    ensures var r := LoadedPrompts(current, stored);
      var after := StoredAfterLoad(stored, PromptsReset(current, stored), r);
      LoadedPrompts(Some(r), after) == r && !PromptsReset(Some(r), after)
  {
  }

  /** The same for the macros. */
  lemma MacroLoadStable(current: Option<seq<MacroPreset>>, stored: Stored<seq<MacroPreset>>)
    ensures var r := LoadedMacros(current, stored);
      var after := StoredAfterLoad(stored, MacrosReset(current, stored), r);
      LoadedMacros(Some(r), after) == r && !MacrosReset(Some(r), after)
  {
  }

  /** A stored empty list is treated differently by the two loaders: the
      prompts fall back on the defaults, the macros stay empty. */
  lemma EmptyListsDiffer(p: Option<seq<PromptPreset>>, m: Option<seq<MacroPreset>>)
    ensures LoadedPrompts(p, Parsed(Some([]))) == DefaultPrompts
    ensures LoadedMacros(m, Parsed(Some([]))) == []
  {
  }

  /** A file that cannot be read leaves settings loaded earlier in force, and
      before any load it gives the fallback, which asks for a key. */
  lemma UnreadableSettings(current: AppSettings, kind: string)
    ensures LoadedSettings(Some(current), Unreadable) == current
    ensures ProviderConfig.MissingApiKey(ProviderConfig.GetConfig(LoadedSettings(None, Unreadable), kind).value)
  {
    ProviderConfig.FallbackNeedsKey(kind);
  }

  // ---------------------------------------------------------------------------
  // Attachments
  // ---------------------------------------------------------------------------

  /** The paths of the attached files, in list order. */
  function Paths(atts: seq<AttachmentItem>): (ps: seq<string>)
    ensures |ps| == |atts|
    ensures forall i :: 0 <= i < |atts| ==> ps[i] == atts[i].FilePath
  {
    seq(|atts|, i requires 0 <= i < |atts| => atts[i].FilePath)
  }

  /** No path is attached twice and each item shows its path's file name. */
  predicate AttachmentsValid(atts: seq<AttachmentItem>) {
    Distinct(Paths(atts)) && forall i :: 0 <= i < |atts| ==> ShowsFileName(atts[i])
  }

  /** The item shows its path's file name. */
  predicate ShowsFileName(item: AttachmentItem) {
    item.FileName == FileName(item.FilePath)
  }

  /** `AddAttachment(filePath)`: a path already attached is ignored; any other
      is appended with its file name. */
  function Attach(atts: seq<AttachmentItem>, path: string): (r: seq<AttachmentItem>)
    ensures path in Paths(atts) ==> r == atts
    ensures path !in Paths(atts) ==> r == atts + [AttachmentItem(path, FileName(path))]
  {
    if path in Paths(atts) then atts else atts + [AttachmentItem(path, FileName(path))]
  }

  /** `AddAttachment` for each of several paths in order: the file dialog, a
      pasted file list and a drop. */
  function AttachAll(atts: seq<AttachmentItem>, files: seq<string>): seq<AttachmentItem>
    decreases |files|
  {
    if files == [] then atts else Attach(AttachAll(atts, files[..|files| - 1]), files[|files| - 1])
  }

  /** The paths after attaching several files are exactly those the WinForms
      pane keeps after a drop of the same files, and the list stays valid. */
  lemma {:induction false} AttachAllPaths(atts: seq<AttachmentItem>, files: seq<string>)
    requires AttachmentsValid(atts)
    ensures Paths(AttachAll(atts, files)) == Dropped(Paths(atts), files)
    ensures AttachmentsValid(AttachAll(atts, files))
    decreases |files|
  {
    if files != [] {
      var front := files[..|files| - 1];
      var f := files[|files| - 1];
      AttachAllPaths(atts, front);
      var before := AttachAll(atts, front);
      if f !in Paths(before) {
        assert Paths(before + [AttachmentItem(f, FileName(f))]) == Paths(before) + [f];
      }
    }
  }

  /** The index of the first item with the path, or the list's length when
      there is none: `FirstOrDefault(a => a.FilePath == filePath)`. */
  function IndexOfPath(atts: seq<AttachmentItem>, path: string): (k: nat)
    ensures k <= |atts|
    ensures k < |atts| ==> atts[k].FilePath == path
    ensures forall j :: 0 <= j < k ==> atts[j].FilePath != path
    ensures k == |atts| <==> path !in Paths(atts)
    decreases |atts|
  {
    if atts == [] then 0
    else if atts[0].FilePath == path then 0
    else
      assert Paths(atts) == [atts[0].FilePath] + Paths(atts[1..]);
      1 + IndexOfPath(atts[1..], path)
  }

  /** `BtnRemoveAttachment_Click`: the first item with the button's path is
      removed; a path not attached changes nothing. */
  function Detached(atts: seq<AttachmentItem>, path: string): seq<AttachmentItem> {
    var k := IndexOfPath(atts, path);
    if k == |atts| then atts else RemoveAt(atts, k)
  }

  /** Removing a path just attached gives the list back. */
  lemma AttachThenDetach(atts: seq<AttachmentItem>, path: string)
    requires path !in Paths(atts)
    ensures Detached(Attach(atts, path), path) == atts
  {
    var longer := Attach(atts, path);
    assert IndexOfPath(longer, path) == |atts| by {
      assert Paths(longer) == Paths(atts) + [path];
    }
    RemoveAtLast(atts, AttachmentItem(path, FileName(path)));
  }

  /** The paths after a removal are the paths with the removed entry's path
      taken out at its index. */
  lemma DetachedPaths(atts: seq<AttachmentItem>, path: string)
    ensures IndexOfPath(atts, path) < |atts| ==>
      Paths(Detached(atts, path)) == RemoveAt(Paths(atts), IndexOfPath(atts, path))
    ensures IndexOfPath(atts, path) == |atts| ==> Detached(atts, path) == atts
  {
    var k := IndexOfPath(atts, path);
    if k < |atts| {
      var a, b := Paths(RemoveAt(atts, k)), RemoveAt(Paths(atts), k);
      assert |a| == |b|;
      assert forall i :: 0 <= i < |a| ==> a[i] == b[i];
    }
  }

  /** In a list without repetitions, the entries left after removing index `k`
      are exactly those other than the one at `k`. */
  lemma RemoveAtMembers(s: seq<string>, k: nat, x: string)
    requires k < |s| && Distinct(s)
    ensures x in RemoveAt(s, k) <==> x in s && x != s[k]
  {
    var r := RemoveAt(s, k);
    if x in s && x != s[k] {
      var i :| 0 <= i < |s| && s[i] == x;
      assert r[if i < k then i else i - 1] == x;
    }
    if x in r {
      var i :| 0 <= i < |r| && r[i] == x;
      var i' := if i < k then i else i + 1;
      assert s[i'] == x && i' != k;
    }
  }

  /** Every item left after a removal still shows its path's file name. */
  lemma RemoveAtNamed(atts: seq<AttachmentItem>, k: nat)
    requires k < |atts|
    requires forall i :: 0 <= i < |atts| ==> ShowsFileName(atts[i])
    ensures forall i :: 0 <= i < |RemoveAt(atts, k)| ==> ShowsFileName(RemoveAt(atts, k)[i])
  {
    RemoveAtKeeps(atts, k, ShowsFileName);
  }

  /** After a removal the path is no longer attached, every other path still
      is, and the list stays valid. */
  lemma DetachedContents(atts: seq<AttachmentItem>, path: string)
    requires AttachmentsValid(atts)
    ensures AttachmentsValid(Detached(atts, path))
    ensures path !in Paths(Detached(atts, path))
    ensures forall p :: p != path ==> (p in Paths(Detached(atts, path)) <==> p in Paths(atts))
  {
    var k := IndexOfPath(atts, path);
    DetachedPaths(atts, path);
    if k < |atts| {
      var ps := Paths(atts);
      RemoveAtDistinct(ps, k);
      RemoveAtNamed(atts, k);
      forall p
        ensures p in RemoveAt(ps, k) <==> p in ps && p != path
      {
        RemoveAtMembers(ps, k, p);
      }
    }
  }

  // ---------------------------------------------------------------------------
  // The workbook's own macros
  // ---------------------------------------------------------------------------

  /** The VBA project of the active workbook as the macro lists see it: no
      workbook, a project whose access throws (access to the VBA project is not
      trusted), or the code of each component in order. */
  datatype VbaProject = NoWorkbook | Untrusted | Modules(codes: seq<string>)

  /** One entry per `Sub <name>` declaration of one component, each titled by
      the name and the suffix and holding the component's whole code. A
      component without lines lists nothing. The names are those of the
      corrected scan (`DeclaredNames`); the code lists one entry per match of
      `Sub\s+(\w+)` (`SubNames`), and the two agree when every match is a
      declaration (`DeclaredNamesAgree`). */
  function Entries(code: string, suffix: string): (r: seq<MacroPreset>)
    ensures code == "" ==> r == []
    ensures |r| == (if code == "" then 0 else |DeclaredNames(code)|)
    ensures forall k :: 0 <= k < |r| ==> r[k] == MacroPreset(DeclaredNames(code)[k] + suffix, code)
  {
    if code == "" then []
    else
      var names := DeclaredNames(code);
      seq(|names|, k requires 0 <= k < |names| => MacroPreset(names[k] + suffix, code))
  }

  /** The entries of every component, in component order. */
  function ModuleEntries(codes: seq<string>, suffix: string): (r: seq<MacroPreset>)
    ensures forall e :: e in r ==> e.Code in codes && e.Code != ""
    decreases |codes|
  {
    if codes == [] then []
    else ModuleEntries(codes[..|codes| - 1], suffix) + Entries(codes[|codes| - 1], suffix)
  }

  /** Every declaration of every component is listed. */
  lemma {:induction false} ModuleEntryListed(codes: seq<string>, suffix: string, k: nat, n: string)
    requires k < |codes| && codes[k] != "" && n in DeclaredNames(codes[k])
    ensures MacroPreset(n + suffix, codes[k]) in ModuleEntries(codes, suffix)
    decreases |codes|
  {
    var front := codes[..|codes| - 1];
    if k < |codes| - 1 {
      assert front[k] == codes[k];
      ModuleEntryListed(front, suffix, k, n);
    } else {
      var names := DeclaredNames(codes[k]);
      var i :| 0 <= i < |names| && names[i] == n;
      assert Entries(codes[k], suffix)[i] == MacroPreset(n + suffix, codes[k]);
    }
  }

  /** The title the newer pane gives the workbook's own macros. */
  const InFileSuffix: string := " (In-File)"

  /** The macro list of the newer pane (`RefreshMacroCombo`): the saved macros
      first, then the workbook's own. Without a workbook, or when the project
      cannot be accessed, only the saved macros are listed. */
  function MacroItems(presets: seq<MacroPreset>, project: VbaProject): (r: seq<MacroPreset>)
    ensures presets <= r
    ensures !project.Modules? ==> r == presets
  {
    match project
    case Modules(codes) => presets + ModuleEntries(codes, InFileSuffix)
    case _ => presets
  }

  /** The index of the first entry with the title, if any. */
  function FirstTitled(items: seq<MacroPreset>, title: string): (k: Option<nat>)
    ensures k.Some? ==> k.value < |items| && items[k.value].Title == title
    ensures k.Some? ==> forall j :: 0 <= j < k.value ==> items[j].Title != title
    ensures k.None? ==> forall j :: 0 <= j < |items| ==> items[j].Title != title
    decreases |items|
  {
    if items == [] then None
    else if items[0].Title == title then Some(0)
    else
      match FirstTitled(items[1..], title)
      case None => None
      case Some(j) => Some(j + 1)
  }

  // ---------------------------------------------------------------------------
  // The write run
  // ---------------------------------------------------------------------------

  /** The context text of a write run: the header block with the row the write
      starts at, the newer pane's data block, the manual block with its blank
      line, and the attached files. */
  function WriteContext(pane: Pane, info: HeaderInfo, startRow: int, useExisting: bool, csv: string,
                        manual: string, paths: seq<string>, fs: Files): string
  {
    HeaderBlock(info, startRow)
    + (if pane == NewerPane then DataBlock(useExisting, csv) else "")
    + ManualBlock(manual, true)
    + RenderAll(Contributions(paths, fs, WpfWrite))
  }

  /** Text found in the second of four joined pieces is found in the whole. */
  lemma ContainsSecond(a: string, b: string, c: string, d: string, p: string)
    requires Contains(b, p)
    ensures Contains(a + b + c + d, p)
  {
    ContainsRight(a, b, p);
    ContainsLeft(a + b, c, p);
    ContainsLeft(a + b + c, d, p);
  }

  /** Text found in the third of four joined pieces is found in the whole. */
  lemma ContainsThird(a: string, b: string, c: string, d: string, p: string)
    requires Contains(c, p)
    ensures Contains(a + b + c + d, p)
  {
    ContainsRight(a + b, c, p);
    ContainsLeft(a + b + c, d, p);
  }

  /** The header text and start row open the context, and the manual text and
      (in the newer pane, when referenced) the existing data reach the model. */
  lemma WriteContextCarries(pane: Pane, info: HeaderInfo, startRow: int, useExisting: bool, csv: string,
                            manual: string, paths: seq<string>, fs: Files)
    ensures HeaderBlock(info, startRow) <= WriteContext(pane, info, startRow, useExisting, csv, manual, paths, fs)
    ensures pane == NewerPane && useExisting ==>
      Contains(WriteContext(pane, info, startRow, useExisting, csv, manual, paths, fs), csv)
    ensures !IsNullOrWhiteSpace(Some(manual)) ==>
      Contains(WriteContext(pane, info, startRow, useExisting, csv, manual, paths, fs), manual)
  {
    var data: string := if pane == NewerPane then DataBlock(useExisting, csv) else "";
    FirstOpens(HeaderBlock(info, startRow), data, ManualBlock(manual, true), RenderAll(Contributions(paths, fs, WpfWrite)));
    if pane == NewerPane && useExisting {
      ExistingDataInContext(info, startRow, useExisting, csv, manual, paths, fs);
    }
    if !IsNullOrWhiteSpace(Some(manual)) {
      ManualInContext(info, startRow, data, manual, paths, fs);
    }
  }

  /** The first of four joined pieces opens the whole. */
  lemma FirstOpens(a: string, b: string, c: string, d: string)
    ensures a <= a + b + c + d
  {
    assert a + b + c + d == a + (b + c + d);
    assert (a + (b + c + d))[..|a|] == a;
  }

  /** The newer pane's context carries the referenced existing data. */
  lemma ExistingDataInContext(info: HeaderInfo, startRow: int, useExisting: bool, csv: string,
                              manual: string, paths: seq<string>, fs: Files)
    requires useExisting
    ensures Contains(HeaderBlock(info, startRow) + DataBlock(useExisting, csv) + ManualBlock(manual, true)
                     + RenderAll(Contributions(paths, fs, WpfWrite)), csv)
  {
    var data := DataBlock(useExisting, csv);
    assert Contains(data, csv) by { DataBlockChoice(useExisting, csv); }
    ContainsSecond(HeaderBlock(info, startRow), data, ManualBlock(manual, true),
                   RenderAll(Contributions(paths, fs, WpfWrite)), csv);
  }

  /** Manual text that is not blank reaches the context. */
  lemma ManualInContext(info: HeaderInfo, startRow: int, data: string, manual: string, paths: seq<string>, fs: Files)
    requires !IsNullOrWhiteSpace(Some(manual))
    ensures Contains(HeaderBlock(info, startRow) + data + ManualBlock(manual, true)
                     + RenderAll(Contributions(paths, fs, WpfWrite)), manual)
  {
    var man := ManualBlock(manual, true);
    assert Contains(man, manual) by { ManualTextEmbedded(manual, true); }
    ContainsThird(HeaderBlock(info, startRow), data, man, RenderAll(Contributions(paths, fs, WpfWrite)), manual);
  }

  /** The end of a write run: the reply is cleaned, parsed and written with the
      growing write into the region; the status says how it went. */
  function DynamicFillStatus(g: Grid, region: Range, reply: Result<string>, parse: string -> Result<Json>): (r: (string, Grid))
    requires region.Valid()
    ensures reply.Err? ==> r == ("Error: " + reply.message, g)
    ensures reply.Ok? && parse(CleanJsonReply(reply.value)).Err? ==>
      r == ("Error: " + parse(CleanJsonReply(reply.value)).message, g)
    ensures reply.Ok? && parse(CleanJsonReply(reply.value)).Ok? ==>
      r.1 == DynamicWrite(g, parse(CleanJsonReply(reply.value)).value, region).1
      && (r.0 == "Done!" <==> !DynamicWrite(g, parse(CleanJsonReply(reply.value)).value, region).0.Failed?)
  {
    match reply
    case Err(m) => ("Error: " + m, g)
    case Ok(content) =>
      match parse(CleanJsonReply(content))
      case Err(m) => ("Error: " + m, g)
      case Ok(rows) =>
        var (outcome, g') := DynamicWrite(g, rows, region);
        if outcome.Failed? then ("Error: " + outcome.message, g') else ("Done!", g')
  }

  /** When the reply's rows fit in the region, the WPF panes' growing write and
      the WinForms pane's fixed write at the region end the same way. */
  lemma FillsAgreeWithoutGrowth(g: Grid, region: Range, content: string, parse: string -> Result<Json>)
    requires region.Valid() && parse(CleanJsonReply(content)).Ok?
    requires Count(parse(CleanJsonReply(content)).value) <= region.rows
    requires DynamicWrite(g, parse(CleanJsonReply(content)).value, region).0.Written?
    ensures DynamicFillStatus(g, region, Ok(content), parse) == FillStatus(g, Some(region), Ok(content), parse)
  {
    WritesAgreeWithoutGrowth(g, parse(CleanJsonReply(content)).value, region);
  }

  /** The end of `BtnRun_Click` for a write: parse and write the reply. */
  method FillDynamic(sheet: Worksheet, region: Range, reply: Result<string>, parse: string -> Result<Json>)
    returns (status: string)
    requires region.Valid()
    modifies sheet
    ensures (status, sheet.cells) == DynamicFillStatus(old(sheet.cells), region, reply, parse)
  {
    match reply {
      case Err(m) =>
        status := "Error: " + m;
      case Ok(content) =>
        var cleaned := CleanJsonReply(content);
        match parse(cleaned) {
          case Err(m) =>
            status := "Error: " + m;
          case Ok(rows) =>
            var outcome := WriteToExcelWithDynamicRows(sheet, rows, region);
            status := if outcome.Failed? then "Error: " + outcome.message else "Done!";
        }
    }
  }

  /** The text inputs of a run: the prompt box, the manual context box and the
      attached paths, with the file system as the run finds it. */
  datatype RunInputs = RunInputs(prompt: string, manual: string, paths: seq<string>, fs: Files)

  /** The part of a write run after the region is known: the existing data
      (newer pane, box ticked) is the captured range's CSV as it was before the
      region was cleared; the region is cleared before the request is sent;
      the user message is assembled and the reply written. Gives the status,
      the user message and the sheet. */
  function SendAndFill(pane: Pane, info: HeaderInfo, region: Range, g: Grid, captured: Range,
                       image: Option<string>, inputs: RunInputs, useExisting: bool,
                       reply: Result<string>, parse: string -> Result<Json>): (string, seq<Part>, Grid)
    requires region.Valid()
  {
    var parts := SentParts(pane, info, region.row, g, captured, image, inputs, useExisting);
    var (status, g') := DynamicFillStatus(Cleared(g, region), region, reply, parse);
    (status, parts, g')
  }

  /** The user message of a write run whose region starts at `startRow`, with
      the existing data read from the sheet `g` as it was before clearing. This
      is the corrected order; the code reads the data after clearing
      (`ExistingCsvAsWritten`). */
  function SentParts(pane: Pane, info: HeaderInfo, startRow: int, g: Grid, captured: Range,
                     image: Option<string>, inputs: RunInputs, useExisting: bool): seq<Part>
  {
    var csv := if pane == NewerPane && useExisting then RangeCsv(g, captured) else "";
    var context := WriteContext(pane, info, startRow, useExisting, csv, inputs.manual, inputs.paths, inputs.fs);
    UserContent(inputs.prompt, context, SendsCapture(pane, useExisting, image),
                Images(Contributions(inputs.paths, inputs.fs, WpfWrite)))
  }

  /** How the run button ends in write mode before a run starts. */
  datatype Refusal = NeedsApiKey | NeedsCapture

  /** How a write run ends: the status line, the user message if one was sent,
      the sheet, and the header slot. */
  datatype WriteEnd = WriteEnd(status: string, sent: Option<seq<Part>>, cells: Grid,
                               info: Option<HeaderInfo>, key: Option<string>)

  /** The write run once both gates have passed, from the header slot's state
      `info0`/`key0` and the sheet `g`. Detection runs only when no header is
      cached; a detection that throws ends the run, and one that returns a null
      header is stored and then dereferenced. */
  function WriteRun(pane: Pane, info0: Option<HeaderInfo>, key0: Option<string>, g: Grid,
                    captured: Range, image: Option<string>, detection: Result<Option<HeaderInfo>>,
                    inputs: RunInputs, useExisting: bool, reply: Result<string>,
                    parse: string -> Result<Json>): WriteEnd
    requires captured.Valid()
  {
    var isNew := info0.None?;
    if isNew && detection.Err? then WriteEnd("Error: " + detection.message, None, g, info0, key0)
    else
      var info := if isNew then detection.value else info0;
      var key := if isNew then Some(ColumnRangeKey(captured)) else key0;
      WriteAfterDetection(pane, isNew, info, key, g, captured, image, inputs, useExisting, reply, parse)
  }

  /** The write run once the header slot holds `info` and `key`; `isNew` tells
      whether that header was detected by this run. */
  function WriteAfterDetection(pane: Pane, isNew: bool, info: Option<HeaderInfo>, key: Option<string>, g: Grid,
                               captured: Range, image: Option<string>, inputs: RunInputs, useExisting: bool,
                               reply: Result<string>, parse: string -> Result<Json>): WriteEnd
    requires captured.Valid()
  {
    if info.None? then WriteEnd("Error: " + NullReference, None, g, info, key)
    else
      match WriteRegion(captured, info.value.HeaderRows, isNew)
      case Err(m) => WriteEnd("Error: " + m, None, g, info, key)
      case Ok(region) =>
        var (status, parts, g') :=
          SendAndFill(pane, info.value, region, g, captured, image, inputs, useExisting, reply, parse);
        WriteEnd(status, Some(parts), g', info, key)
  }

  /** With a header cached, nothing is detected, the slot is kept, the region
      is the whole captured range and the context opens with the header block
      naming the range's first row. */
  lemma CachedRunUsesSelection(pane: Pane, info0: HeaderInfo, key0: Option<string>, g: Grid,
                               captured: Range, image: Option<string>, detection: Result<Option<HeaderInfo>>,
                               inputs: RunInputs, useExisting: bool, reply: Result<string>,
                               parse: string -> Result<Json>)
    requires captured.Valid()
    ensures var e := WriteRun(pane, Some(info0), key0, g, captured, image, detection, inputs, useExisting, reply, parse);
      e.info == Some(info0) && e.key == key0 && e.sent.Some?
      && e.sent.value[0].text[..|inputs.prompt| + 2] == inputs.prompt + "\n\n"
      && HeaderBlock(info0, captured.row) <= e.sent.value[0].text[|inputs.prompt| + 2..]
  {
    var csv := if pane == NewerPane && useExisting then RangeCsv(g, captured) else "";
    var context := WriteContext(pane, info0, captured.row, useExisting, csv, inputs.manual, inputs.paths, inputs.fs);
    assert HeaderBlock(info0, captured.row) <= context by {
      FirstOpens(HeaderBlock(info0, captured.row), if pane == NewerPane then DataBlock(useExisting, csv) else "",
                 ManualBlock(inputs.manual, true), RenderAll(Contributions(inputs.paths, inputs.fs, WpfWrite)));
    }
    var text := inputs.prompt + "\n\n" + context;
    assert text[|inputs.prompt| + 2..] == context;
    assert text[..|inputs.prompt| + 2] == inputs.prompt + "\n\n";
    assert SentParts(pane, info0, captured.row, g, captured, image, inputs, useExisting)[0].text == text;
    CachedRunSends(pane, info0, key0, g, captured, image, detection, inputs, useExisting, reply, parse);
  }

  /** With a header cached, the slot is kept and the message for the whole
      captured range is sent. */
  lemma CachedRunSends(pane: Pane, info0: HeaderInfo, key0: Option<string>, g: Grid,
                       captured: Range, image: Option<string>, detection: Result<Option<HeaderInfo>>,
                       inputs: RunInputs, useExisting: bool, reply: Result<string>,
                       parse: string -> Result<Json>)
    requires captured.Valid()
    ensures var e := WriteRun(pane, Some(info0), key0, g, captured, image, detection, inputs, useExisting, reply, parse);
      e.info == Some(info0) && e.key == key0
      && e.sent == Some(SentParts(pane, info0, captured.row, g, captured, image, inputs, useExisting))
  {
    assert WriteRegion(captured, info0.HeaderRows, false) == Ok(captured);
  }

  /** A detection that throws ends the run before anything is cleared or
      sent, and leaves the slot empty. */
  lemma DetectionFailureKeepsSheet(pane: Pane, g: Grid, captured: Range, image: Option<string>,
                                   message: string, inputs: RunInputs, useExisting: bool,
                                   reply: Result<string>, parse: string -> Result<Json>)
    requires captured.Valid()
    ensures WriteRun(pane, None, None, g, captured, image, Err(message), inputs, useExisting, reply, parse)
            == WriteEnd("Error: " + message, None, g, None, None)
  {
  }

  /** A detection that returns no header is cached with its key, and that run
      then fails on the null reference without touching the sheet. */
  lemma NullHeaderFails(pane: Pane, g: Grid, captured: Range, image: Option<string>, key0: Option<string>,
                        inputs: RunInputs, useExisting: bool,
                        reply: Result<string>, parse: string -> Result<Json>)
    requires captured.Valid()
    ensures WriteRun(pane, None, key0, g, captured, image, Ok(None), inputs, useExisting, reply, parse)
            == WriteEnd("Error: " + NullReference, None, g, None, Some(ColumnRangeKey(captured)))
  {
  }

  /** The run after a null header detects again: the slot still holds no
      header, so the stored key makes no difference once a detection succeeds. */
  lemma NullHeaderRedetected(pane: Pane, g: Grid, captured: Range, image: Option<string>, key: string,
                             detected: Option<HeaderInfo>, inputs: RunInputs, useExisting: bool,
                             reply: Result<string>, parse: string -> Result<Json>)
    requires captured.Valid()
    ensures WriteRun(pane, None, Some(key), g, captured, image, Ok(detected), inputs, useExisting, reply, parse)
            == WriteRun(pane, None, None, g, captured, image, Ok(detected), inputs, useExisting, reply, parse)
  {
  }

  /** A failed request still clears the region: the values in the write
      region are gone, and every cell outside it is as it was. */
  lemma FailedReplyClearsRegion(pane: Pane, info: HeaderInfo, region: Range, g: Grid, captured: Range,
                                image: Option<string>, inputs: RunInputs, useExisting: bool, message: string,
                                parse: string -> Result<Json>, r: int, c: int)
    requires region.Valid()
    ensures var (status, _, g') :=
        SendAndFill(pane, info, region, g, captured, image, inputs, useExisting, Err(message), parse);
      status == "Error: " + message
      && (region.Covers(r, c) ==> g'(r, c) == Cell(JNull, g(r, c).format))
      && (!region.Covers(r, c) ==> g'(r, c) == g(r, c))
  {
  }

  /** In the newer pane, with the data referenced, the captured range's data
      as it was before the run reaches the model. */
  lemma ExistingDataSent(info: HeaderInfo, startRow: int, g: Grid, captured: Range, image: Option<string>,
                         inputs: RunInputs)
    ensures Contains(SentParts(NewerPane, info, startRow, g, captured, image, inputs, true)[0].text,
                     RangeCsv(g, captured))
  {
    var csv := RangeCsv(g, captured);
    var context := WriteContext(NewerPane, info, startRow, true, csv, inputs.manual, inputs.paths, inputs.fs);
    assert Contains(context, csv) by {
      WriteContextCarries(NewerPane, info, startRow, true, csv, inputs.manual, inputs.paths, inputs.fs);
    }
    UserTextCarries(inputs.prompt, context, SendsCapture(NewerPane, true, image),
                    Images(Contributions(inputs.paths, inputs.fs, WpfWrite)), csv);
  }

  /** Text found in the context is found in the user message's text part. */
  lemma UserTextCarries(prompt: string, context: string, capture: Option<string>, images: seq<string>, p: string)
    requires Contains(context, p)
    ensures Contains(UserContent(prompt, context, capture, images)[0].text, p)
  {
    assert UserContent(prompt, context, capture, images)[0].text == (prompt + "\n\n") + context;
    ContainsRight(prompt + "\n\n", context, p);
  }

  /** The write run's steps after the region is known. */
  method ClearAndSend(pane: Pane, info: HeaderInfo, region: Range, sheet: Worksheet, captured: Range,
                      image: Option<string>, inputs: RunInputs, useExisting: bool,
                      reply: Result<string>, parse: string -> Result<Json>)
    returns (status: string, parts: seq<Part>)
    requires region.Valid()
    modifies sheet
    ensures (status, parts, sheet.cells)
            == SendAndFill(pane, info, region, old(sheet.cells), captured, image, inputs, useExisting, reply, parse)
  {
    var csv := "";
    if pane == NewerPane && useExisting {
      csv := GetRangeCsv(sheet, captured);
    }
    sheet.ClearContents(region);
    var head := HeaderBlock(info, region.row)
      + (if pane == NewerPane then DataBlock(useExisting, csv) else "")
      + ManualBlock(inputs.manual, true);
    var context, images := AppendAttachments(head, inputs.paths, inputs.fs, WpfWrite);
    parts := BuildUserContent(inputs.prompt, context, SendsCapture(pane, useExisting, image), images);
    status := FillDynamic(sheet, region, reply, parse);
  }

  /** The write run's steps on the header slot and the sheet. */
  method RunWrite(pane: Pane, header: HeaderSlot, sheet: Worksheet, captured: Range, image: Option<string>,
                  detection: Result<Option<HeaderInfo>>, inputs: RunInputs, useExisting: bool,
                  reply: Result<string>, parse: string -> Result<Json>)
    returns (status: string, sent: Option<seq<Part>>)
    requires captured.Valid()
    modifies header, sheet
    ensures WriteEnd(status, sent, sheet.cells, header.info, header.columnKey)
            == WriteRun(pane, old(header.info), old(header.columnKey), old(sheet.cells), captured, image,
                        detection, inputs, useExisting, reply, parse)
  {
    var isNew, failure := header.Detect(captured, detection);
    if failure.Some? {
      return "Error: " + failure.value, None;
    }
    ghost var g0 := sheet.cells;
    ghost var e := WriteAfterDetection(pane, isNew, header.info, header.columnKey, g0, captured, image,
                                       inputs, useExisting, reply, parse);
    assert WriteRun(pane, old(header.info), old(header.columnKey), g0, captured, image, detection, inputs,
                    useExisting, reply, parse) == e;
    status, sent := SendAfterDetection(pane, isNew, header.info, header.columnKey, sheet, captured, image,
                                       inputs, useExisting, reply, parse);
  }

  /** The write run's steps on the sheet once the header slot is settled. */
  method SendAfterDetection(pane: Pane, isNew: bool, info: Option<HeaderInfo>, key: Option<string>,
                            sheet: Worksheet, captured: Range,
                            image: Option<string>, inputs: RunInputs, useExisting: bool,
                            reply: Result<string>, parse: string -> Result<Json>)
    returns (status: string, sent: Option<seq<Part>>)
    requires captured.Valid()
    modifies sheet
    ensures WriteEnd(status, sent, sheet.cells, info, key)
            == WriteAfterDetection(pane, isNew, info, key, old(sheet.cells), captured, image, inputs, useExisting,
                             reply, parse)
  {
    if info.None? {
      return "Error: " + NullReference, None;
    }
    var w := WriteRegion(captured, info.value.HeaderRows, isNew);
    if w.Err? {
      return "Error: " + w.message, None;
    }
    var parts;
    status, parts := ClearAndSend(pane, info.value, w.value, sheet, captured, image, inputs, useExisting,
                                  reply, parse);
    sent := Some(parts);
  }

  // ---------------------------------------------------------------------------
  // Finding: the existing data is read after the region is cleared
  // ---------------------------------------------------------------------------

  /** The existing-data CSV as the newer pane computes it: `GetRangeCsv` of the
      captured range runs after `writeRange.ClearContents()`. */
  function ExistingCsvAsWritten(g: Grid, captured: Range, region: Range): string {
    RangeCsv(Cleared(g, region), captured)
  }

  /** As written, the values inside the cleared region never reach the model:
      two sheets that differ only there give the same CSV. With a cached
      header the region is the captured range, so the CSV is blank. */
  lemma AsWrittenCsvIgnoresRegion(g1: Grid, g2: Grid, captured: Range, region: Range)
    requires forall r, c :: !region.Covers(r, c) ==> g1(r, c) == g2(r, c)
    ensures ExistingCsvAsWritten(g1, captured, region) == ExistingCsvAsWritten(g2, captured, region)
  {
    var a := Texts(Cleared(g1, region), captured);
    var b := Texts(Cleared(g2, region), captured);
    forall i, j | 0 <= i < captured.rows && 0 <= j < captured.cols
      ensures a[i][j] == b[i][j]
    {
      var r, c := captured.row + i, captured.col + j;
      if !region.Covers(r, c) {
        assert g1(r, c) == g2(r, c);
      }
    }
    assert forall i :: 0 <= i < captured.rows ==> a[i] == b[i];
    assert a == b;
  }

  /** A one-row, two-column capture of "x" values with the header cached: the
      data sent as written is two empty fields instead of the values. */
  lemma AsWrittenCsvLosesData()
    ensures var g: Grid := (r: int, c: int) => Cell(JStr("x"), 0);
      var a := Range(1, 1, 1, 2);
      RangeCsv(g, a) == "x,x\r\n" && ExistingCsvAsWritten(g, a, a) == ",\r\n"
  {
    var g: Grid := (r: int, c: int) => Cell(JStr("x"), 0);
    var a := Range(1, 1, 1, 2);
    assert !NeedsQuotes("x") by { LetterNeedsNoQuotes('x'); }
    assert !NeedsQuotes("");
    assert Texts(g, a) == [["x", "x"]] by { OneRowTexts(g, a, "x", "x"); }
    TwoFieldCsv("x", "x");
    assert Texts(Cleared(g, a), a) == [["", ""]] by { OneRowTexts(Cleared(g, a), a, "", ""); }
    TwoFieldCsv("", "");
  }

  /** The texts of a one-row, two-column range. */
  lemma OneRowTexts(g: Grid, a: Range, x: string, y: string)
    requires a.rows == 1 && a.cols == 2
    requires CellText(g(a.row, a.col).value) == x && CellText(g(a.row, a.col + 1).value) == y
    ensures Texts(g, a) == [[x, y]]
  {
    var row := RowTexts(g, a, 0);
    assert row == [x, y];
  }

  /** The CSV text of one row of two fields that need no quotes. */
  lemma TwoFieldCsv(x: string, y: string)
    requires !NeedsQuotes(x) && !NeedsQuotes(y)
    ensures CsvText([[x, y]]) == x + "," + y + "\r\n"
  {
    assert FieldPiece([x, y], 0) == x + "," && FieldPiece([x, y], 1) == y;
    assert Pieces([x, y]) == [x + ",", y];
    assert Concat([y]) == y + Concat([]);
    assert Concat([x + ",", y]) == x + "," + Concat([y]);
    assert Lines([[x, y]]) == [Line([x, y])];
    assert Concat([Line([x, y])]) == Line([x, y]) + Concat([]);
  }

  /** A text whose one character is a letter needs no quotes in the CSV. */
  lemma LetterNeedsNoQuotes(c: char)
    requires 'a' <= c <= 'z'
    ensures !NeedsQuotes([c])
  {
    ContainsChar([c], ',');
    ContainsChar([c], '"');
    ContainsChar([c], '\n');
  }

  // ---------------------------------------------------------------------------
  // The data-operation run
  // ---------------------------------------------------------------------------

  /** The context of a data-operation run: the selection as CSV, the manual
      block without a blank line, and the text files only. */
  function DataOpContext(csv: string, manual: string, paths: seq<string>, fs: Files): string {
    SelectedDataBlock(csv) + ManualBlock(manual, false) + RenderAll(Contributions(paths, fs, WpfDataOp))
  }

  /** The user message of a data-operation run on the grid: none without a
      selection, otherwise the prompt, a blank line and the context. */
  function DataOpMessage(g: Grid, selection: Option<Range>, inputs: RunInputs): Option<string> {
    if selection.None? then None
    else Some(inputs.prompt + "\n\n" + DataOpContext(RangeCsv(g, selection.value), inputs.manual, inputs.paths, inputs.fs))
  }

  /** `RunDataMode`: nothing without a selected range. Otherwise the user
      message is the prompt, a blank line and the context; a reply is cleaned of
      its fences and run as the generated macro. A failed request ends the run
      before anything runs. */
  method DataOperation(sheet: Worksheet, app: Application, host: MacroHost, selection: Option<Range>,
                       inputs: RunInputs, reply: Result<string>)
    returns (sentText: Option<string>, code: Option<string>)
    modifies app
    ensures sentText == DataOpMessage(sheet.cells, selection, inputs)
    ensures selection.None? ==> code.None?
    ensures selection.Some? && reply.Ok? ==> code == Some(CleanLLMOutput(reply.value))
    ensures selection.None? || reply.Err? ==> code.None?
    ensures app.flags == old(app.flags)
    ensures code.Some? && host.accessTrusted ==>
      app.components == old(app.components) + {TempRunner}
      && app.runs == old(app.runs) + [MacroCall(GeneratedEntry, old(app.flags), old(app.components) + {TempRunner})]
    ensures code.None? || !host.accessTrusted ==>
      app.components == old(app.components) && app.runs == old(app.runs)
  {
    if selection.None? {
      return None, None;
    }
    var csv := GetRangeCsv(sheet, selection.value);
    var context, images := AppendAttachments(SelectedDataBlock(csv) + ManualBlock(inputs.manual, false),
                                             inputs.paths, inputs.fs, WpfDataOp);
    sentText := Some(inputs.prompt + "\n\n" + context);
    if reply.Err? {
      return sentText, None;
    }
    code := Some(CleanLLMOutput(reply.value));
    var failure := RunGeneratedMacro(app, host);
  }
}
