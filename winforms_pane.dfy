/** The WinForms pane (`TaskPaneControl`): the list of dropped files shown
    beside the parallel list of their paths, with a placeholder item while it is
    empty; its prompt presets; and the run that sends the manual text and the
    files with the captured picture and writes the reply at the captured cell. */
module WinFormsPane {
  import opened Wrappers
  import opened Strings
  import opened Models
  import opened Host
  import opened ScriptText
  import opened Reconciler
  import opened Context
  import opened Lists

  // ---------------------------------------------------------------------------
  // The file list and its placeholder
  // ---------------------------------------------------------------------------

  /** The item the list shows while no file is attached. */
  const Placeholder: string := "[Drag files here...]"

  /** The shown names of a list of paths. */
  function Names(paths: seq<string>): (n: seq<string>)
    ensures |n| == |paths|
    ensures forall i :: 0 <= i < |paths| ==> n[i] == FileName(paths[i])
  {
    seq(|paths|, i requires 0 <= i < |paths| => FileName(paths[i]))
  }

  lemma NamesAppend(a: seq<string>, b: seq<string>)
    ensures Names(a + b) == Names(a) + Names(b)
  {
  }

  predicate Distinct(s: seq<string>) {
    forall i, j :: 0 <= i < j < |s| ==> s[i] != s[j]
  }

  /** What the list box should show: the placeholder alone, or the name of each
      path at the path's index. */
  function Shown(paths: seq<string>): seq<string> {
    if paths == [] then [Placeholder] else Names(paths)
  }

  /** `filePaths` and `lstFiles.Items` agree index by index. */
  predicate Aligned(paths: seq<string>, items: seq<string>) {
    items == Shown(paths)
  }

  /** The paths after a drop: each dropped path not yet in the list is appended,
      in drop order; a path dropped twice is added once. */
  function Dropped(paths: seq<string>, files: seq<string>): (r: seq<string>)
    ensures paths <= r
    decreases |files|
  {
    if files == [] then paths
    else
      var p := Dropped(paths, files[..|files| - 1]);
      var f := files[|files| - 1];
      if f in p then p else p + [f]
  }

  /** After a drop, exactly the paths attached before and the dropped ones are
      attached, and none twice. */
  lemma {:induction false} DroppedContents(paths: seq<string>, files: seq<string>)
    requires Distinct(paths)
    ensures Distinct(Dropped(paths, files))
    ensures forall p :: p in Dropped(paths, files) <==> p in paths || p in files
    decreases |files|
  {
    if files != [] {
      var front := files[..|files| - 1];
      DroppedContents(paths, front);
      assert forall q :: q in files <==> q in front || q == files[|files| - 1];
    }
  }

  /** Removing an entry of a list without repetitions leaves one without. */
  lemma RemoveAtDistinct(s: seq<string>, index: nat)
    requires index < |s| && Distinct(s)
    ensures Distinct(RemoveAt(s, index))
  {
    var r := RemoveAt(s, index);
    forall i, j | 0 <= i < j < |r|
      ensures r[i] != r[j]
    {
      var i' := if i < index then i else i + 1;
      var j' := if j < index then j else j + 1;
      assert r[i] == s[i'] && r[j] == s[j'];
    }
  }

  /** Removing the same index from both lists keeps them aligned. */
  lemma RemoveAtNames(paths: seq<string>, index: nat)
    requires index < |paths|
    ensures Names(RemoveAt(paths, index)) == RemoveAt(Names(paths), index)
  {
  }

  /** `LstFiles_DragDrop` as written: the placeholder is recognised by its text,
      then each new path is appended to both lists. */
  function DropAsWritten(paths: seq<string>, items: seq<string>, files: seq<string>): (r: (seq<string>, seq<string>))
    ensures r.0 == Dropped(paths, files)
  {
    var cleared := if |items| == 1 && items[0] == Placeholder then [] else items;
    var after := Dropped(paths, files);
    (after, cleared + Names(after[|paths|..]))
  }

  /** The message of `List.RemoveAt` with an index past the end. */
  const OutOfRange: string := "Index was out of range. Must be non-negative and less than the size of the collection."

  /** `LstFiles_KeyDown` as written, for the Delete or Backspace key on the
      selected item: an item whose text is the placeholder's stays; otherwise the
      index is removed from both lists, which throws when it is past the end of
      the paths, and the placeholder returns to an emptied list. */
  function DeleteAsWritten(paths: seq<string>, items: seq<string>, selected: nat): (r: Result<(seq<string>, seq<string>)>)
    requires selected < |items|
    ensures items[selected] == Placeholder ==> r == Ok((paths, items))
  {
    if items[selected] == Placeholder then Ok((paths, items))
    else if selected >= |paths| then Err(OutOfRange)
    else
      var left := RemoveAt(items, selected);
      Ok((RemoveAt(paths, selected), if left == [] then [Placeholder] else left))
  }

  /** A file whose name is the placeholder's text, dropped into the empty list,
      cannot be removed again; a second drop then clears its item as if it were
      the placeholder, and the two lists no longer agree. */
  lemma PlaceholderNamedFile(folder: string, other: string)
    requires other != folder + "\\" + Placeholder
    ensures FileName(folder + "\\" + Placeholder) == Placeholder
    ensures DropAsWritten([], [Placeholder], [folder + "\\" + Placeholder])
      == ([folder + "\\" + Placeholder], [Placeholder])
    ensures Aligned([folder + "\\" + Placeholder], [Placeholder])
    ensures DeleteAsWritten([folder + "\\" + Placeholder], [Placeholder], 0)
      == Ok(([folder + "\\" + Placeholder], [Placeholder]))
    ensures DropAsWritten([folder + "\\" + Placeholder], [Placeholder], [other])
      == ([folder + "\\" + Placeholder, other], [FileName(other)])
    ensures !Aligned([folder + "\\" + Placeholder, other], [FileName(other)])
  {
    assert forall i :: 0 <= i < |Placeholder| ==> !IsSeparator(Placeholder[i]);
    FileNameInFolder(folder, Placeholder);
    var p := folder + "\\" + Placeholder;
    FirstDrop(p);
    SecondDrop(p, other);
    TwoPathsTwoItems(p, other, FileName(other));
  }

  /** A path not attached yet is appended by a drop of that path alone. */
  lemma DroppedOne(paths: seq<string>, f: string)
    requires f !in paths
    ensures Dropped(paths, [f]) == paths + [f]
  {
    assert [f][..0] == [];
  }

  lemma FirstDrop(p: string)
    requires FileName(p) == Placeholder
    ensures DropAsWritten([], [Placeholder], [p]) == ([p], [Placeholder])
    ensures Aligned([p], [Placeholder])
  {
    DroppedOne([], p);
    assert [p][0..] == [p];
    OneName(p);
    assert DropAsWritten([], [Placeholder], [p]).1 == [] + Names([p]);
    assert [] + Names([p]) == [Placeholder];
  }

  lemma OneName(p: string)
    ensures Names([p]) == [FileName(p)]
  {
  }

  lemma SecondDrop(p: string, other: string)
    requires other != p
    ensures DropAsWritten([p], [Placeholder], [other]) == ([p, other], [FileName(other)])
  {
    DroppedOne([p], other);
    assert [p, other][1..] == [other];
    var names := Names([other]);
    assert names == [FileName(other)] by {
      assert |names| == 1 && names[0] == FileName(other);
    }
    var r := DropAsWritten([p], [Placeholder], [other]);
    assert r.0 == [p, other];
    assert r.1 == [] + names;
    assert [] + names == names;
  }

  /** Appending a new path to a list without repetitions: the list stays
      without repetitions, and its name joins the shown names, replacing the
      placeholder of an empty list. */
  lemma ShownAppend(paths: seq<string>, file: string)
    requires Distinct(paths) && file !in paths
    ensures Distinct(paths + [file])
    ensures Shown(paths + [file]) == (if paths == [] then [] else Shown(paths)) + [FileName(file)]
  {
    var r := paths + [file];
    forall i, j | 0 <= i < j < |r| ensures r[i] != r[j]
    {
      if j < |paths| {
        assert r[i] == paths[i] && r[j] == paths[j];
      } else {
        assert r[i] == paths[i] && r[j] == file;
      }
    }
    NamesAppend(paths, [file]);
    OneName(file);
    if paths == [] {
      assert r == [file];
    }
  }

  /** Two paths are never shown as one item. */
  lemma TwoPathsTwoItems(p: string, other: string, item: string)
    ensures !Aligned([p, other], [item])
  {
    assert |Shown([p, other])| == 2;
  }

  /** As long as no attached file is named like the placeholder, the drop as
      written keeps the lists aligned and does what the corrected drop does. */
  lemma DropAgrees(paths: seq<string>, items: seq<string>, files: seq<string>)
    requires Aligned(paths, items) && files != []
    requires forall i :: 0 <= i < |paths| ==> FileName(paths[i]) != Placeholder
    ensures DropAsWritten(paths, items, files) == (Dropped(paths, files), Shown(Dropped(paths, files)))
  {
    var after := Dropped(paths, files);
    assert after == paths + after[|paths|..];
    NamesAppend(paths, after[|paths|..]);
    if paths == [] {
      DroppedContents(paths, files);
      assert files[|files| - 1] in after;
    }
  }

  /** Deleting the selected file as written, under the same condition, removes
      that file from both lists. */
  lemma DeleteAgrees(paths: seq<string>, items: seq<string>, selected: nat)
    requires Aligned(paths, items) && selected < |items| && paths != []
    requires forall i :: 0 <= i < |paths| ==> FileName(paths[i]) != Placeholder
    ensures DeleteAsWritten(paths, items, selected) ==
      Ok((RemoveAt(paths, selected), Shown(RemoveAt(paths, selected))))
  {
    RemoveAtNames(paths, selected);
  }

  // ---------------------------------------------------------------------------
  // The run
  // ---------------------------------------------------------------------------

  /** The context of a run: the manual text block with its blank line, then each
      existing file, text embedded and anything else named. */
  function RunContext(manual: string, paths: seq<string>, fs: Files): string {
    ManualBlock(manual, true) + RenderAll(Contributions(paths, fs, WinForms))
  }

  /** What the status line says after the reply and what the sheet holds: the
      fences are removed anywhere in the reply, the rest is parsed by `parse`,
      and the rows are written at the captured cell. */
  function FillStatus(g: Grid, captured: Option<Range>, reply: Result<string>, parse: string -> Result<Json>): (r: (string, Grid))
    ensures reply.Err? ==> r == ("Error: " + reply.message, g)
    ensures reply.Ok? && parse(CleanJsonReply(reply.value)).Err? ==> r.1 == g
  {
    match reply
    case Err(m) => ("Error: " + m, g)
    case Ok(content) =>
      match parse(CleanJsonReply(content))
      case Err(m) => ("Error: " + m, g)
      case Ok(rows) =>
        var (outcome, g') := FixedWrite(g, rows, captured);
        if outcome.Failed? then ("Error: " + outcome.message, g') else ("Done!", g')
  }

  /** An empty reply array leaves the sheet alone and reports success. */
  lemma EmptyReplyWritesNothing(g: Grid, captured: Option<Range>, content: string, parse: string -> Result<Json>)
    requires parse(CleanJsonReply(content)) == Ok(JArr([]))
    ensures FillStatus(g, captured, Ok(content), parse) == ("Done!", g)
  {
  }

  /** The stored settings of this pane; a property missing from the file is
      null, and a text box set to null shows the empty text. */
  datatype PaneSettings = PaneSettings(ApiUrl: Option<string>, ApiKey: Option<string>, Model: Option<string>)

  function TextOf(s: Option<string>): string {
    if s.Some? then s.value else ""
  }

  /** The pane's state. */
  class TaskPaneControl {
    var filePaths: seq<string>
    /** `lstFiles.Items`. */
    var items: seq<string>
    var promptPresets: seq<PromptPreset>
    /** The prompt list in `prompts.json`, as it was last saved. */
    var storedPrompts: Option<seq<PromptPreset>>
    /** `cmbPrompts.SelectedIndex`: -1 when nothing is selected. */
    var selectedIndex: int
    var promptText: string
    var contextText: string
    var apiUrl: string
    var apiKey: string
    var model: string
    var settingsVisible: bool
    var status: string
    var captured: Option<Range>
    var capturedImage: Option<string>

    /** The lists agree, no path is repeated, and the selection is an index of
        the presets or -1. */
    predicate Valid()
      reads this
    {
      Aligned(filePaths, items) && Distinct(filePaths) && -1 <= selectedIndex < |promptPresets|
    }

    /** The constructor: `InitializePrompts` with the list read from
        `prompts.json` (nothing when the file is missing, empty or corrupt),
        `SetupCustomUI`, and `InitializeSettings` with the settings read from
        `settings.json`. */
    constructor (loaded: Option<seq<PromptPreset>>, settings: Option<PaneSettings>)
      ensures Valid()
      ensures loaded.None? || loaded.value == [] ==>
        promptPresets == DefaultPrompts && storedPrompts == Some(DefaultPrompts)
      ensures loaded.Some? && loaded.value != [] ==>
        promptPresets == loaded.value && storedPrompts == loaded
      ensures promptText == promptPresets[0].Content && selectedIndex == -1
      ensures filePaths == [] && items == [Placeholder] && contextText == ""
      ensures settings.None? ==> apiUrl == "https://api.openai.com/v1" && apiKey == "" && model == "gpt-4o"
      ensures settings.Some? ==>
        apiUrl == TextOf(settings.value.ApiUrl) && apiKey == TextOf(settings.value.ApiKey)
        && model == TextOf(settings.value.Model)
      ensures !settingsVisible && status == "Ready" && captured.None? && capturedImage.None?
    {
      var presets := if loaded.None? || loaded.value == [] then DefaultPrompts else loaded.value;
      promptPresets := presets;
      storedPrompts := if loaded.None? || loaded.value == [] then Some(DefaultPrompts) else loaded;
      filePaths := [];
      items := [Placeholder];
      selectedIndex := -1;
      promptText := presets[0].Content;
      contextText := "";
      apiUrl := "https://api.openai.com/v1";
      apiKey := "";
      model := "gpt-4o";
      settingsVisible := false;
      status := "Ready";
      captured := None;
      capturedImage := None;
      if settings.Some? {
        apiUrl := TextOf(settings.value.ApiUrl);
        apiKey := TextOf(settings.value.ApiKey);
        model := TextOf(settings.value.Model);
      }
    }

    /** `BtnCapture_Click`: nothing without a selected range; otherwise the range
        is kept, and the picture too when the clipboard received one. A capture
        without a picture keeps the previous picture. */
    method Capture(selection: Option<Range>, picture: Option<string>)
      modifies this
      ensures selection.Some? ==> captured == selection
      ensures selection.None? ==> captured == old(captured)
      ensures selection.Some? && picture.Some? ==> capturedImage == picture
      ensures selection.None? || picture.None? ==> capturedImage == old(capturedImage)
      ensures filePaths == old(filePaths) && items == old(items)
      ensures promptPresets == old(promptPresets) && storedPrompts == old(storedPrompts)
      ensures selectedIndex == old(selectedIndex) && promptText == old(promptText)
      ensures contextText == old(contextText) && apiKey == old(apiKey) && apiUrl == old(apiUrl)
      ensures model == old(model) && settingsVisible == old(settingsVisible) && status == old(status)
    {
      if selection.None? {
        return;
      }
      captured := selection;
      if picture.Some? {
        capturedImage := picture;
      }
    }

    /** `LstFiles_DragDrop`, corrected to recognise the empty list by its paths
        rather than by the text of its item: each dropped path not yet attached is
        appended to both lists, and the placeholder goes when the first file
        arrives. */
    method DragDrop(files: seq<string>)
      requires Valid()
      modifies this
      ensures Valid()
      ensures filePaths == Dropped(old(filePaths), files)
      ensures promptPresets == old(promptPresets) && storedPrompts == old(storedPrompts)
      ensures selectedIndex == old(selectedIndex) && promptText == old(promptText)
      ensures contextText == old(contextText) && apiKey == old(apiKey) && apiUrl == old(apiUrl)
      ensures model == old(model) && settingsVisible == old(settingsVisible) && status == old(status)
      ensures captured == old(captured) && capturedImage == old(capturedImage)
    {
      for i := 0 to |files|
        invariant Valid()
        invariant filePaths == Dropped(old(filePaths), files[..i])
        invariant promptPresets == old(promptPresets) && storedPrompts == old(storedPrompts)
        invariant selectedIndex == old(selectedIndex) && promptText == old(promptText)
        invariant contextText == old(contextText) && apiKey == old(apiKey) && apiUrl == old(apiUrl)
        invariant model == old(model) && settingsVisible == old(settingsVisible) && status == old(status)
        invariant captured == old(captured) && capturedImage == old(capturedImage)
      {
        assert files[..i + 1][..i] == files[..i];
        AddPath(files[i]);
      }
      assert files[..|files|] == files;
    }

    /** One step of the drop loop: a path not yet attached is appended to both
        lists, replacing the placeholder if it was shown. */
    method AddPath(file: string)
      requires Valid()
      modifies this
      ensures Valid()
      ensures filePaths == if file in old(filePaths) then old(filePaths) else old(filePaths) + [file]
      ensures promptPresets == old(promptPresets) && storedPrompts == old(storedPrompts)
      ensures selectedIndex == old(selectedIndex) && promptText == old(promptText)
      ensures contextText == old(contextText) && apiKey == old(apiKey) && apiUrl == old(apiUrl)
      ensures model == old(model) && settingsVisible == old(settingsVisible) && status == old(status)
      ensures captured == old(captured) && capturedImage == old(capturedImage)
    {
      if file !in filePaths {
        ShownAppend(filePaths, file);
        items := (if filePaths == [] then [] else items) + [FileName(file)];
        filePaths := filePaths + [file];
      }
    }

    /** `LstFiles_KeyDown` for Delete or Backspace with item `selected` selected
        (-1 for none), corrected like the drop: the placeholder cannot be
        removed; a file is removed from both lists at its index, and the
        placeholder returns to an emptied list. */
    method DeleteFile(selected: int)
      requires Valid() && -1 <= selected < |items|
      modifies this
      ensures Valid()
      ensures selected >= 0 && old(filePaths) != [] ==> filePaths == RemoveAt(old(filePaths), selected)
      ensures selected < 0 || old(filePaths) == [] ==> filePaths == old(filePaths)
      ensures promptPresets == old(promptPresets) && storedPrompts == old(storedPrompts)
      ensures selectedIndex == old(selectedIndex) && promptText == old(promptText)
      ensures contextText == old(contextText) && apiKey == old(apiKey) && apiUrl == old(apiUrl)
      ensures model == old(model) && settingsVisible == old(settingsVisible) && status == old(status)
      ensures captured == old(captured) && capturedImage == old(capturedImage)
    {
      if selected < 0 || filePaths == [] {
        return;
      }
      RemoveAtNames(filePaths, selected);
      RemoveAtDistinct(filePaths, selected);
      filePaths := RemoveAt(filePaths, selected);
      items := RemoveAt(items, selected);
      if items == [] {
        items := [Placeholder];
      }
    }

    /** `CmbPrompts_SelectedIndexChanged`: a selected preset's text goes into the
        prompt box. */
    method SelectPrompt(index: int)
      requires Valid() && -1 <= index < |promptPresets|
      modifies this
      ensures Valid() && selectedIndex == index
      ensures index >= 0 ==> promptText == promptPresets[index].Content
      ensures index < 0 ==> promptText == old(promptText)
      ensures filePaths == old(filePaths) && items == old(items)
      ensures promptPresets == old(promptPresets) && storedPrompts == old(storedPrompts)
      ensures contextText == old(contextText) && apiKey == old(apiKey) && apiUrl == old(apiUrl)
      ensures model == old(model) && settingsVisible == old(settingsVisible) && status == old(status)
      ensures captured == old(captured) && capturedImage == old(capturedImage)
    {
      selectedIndex := index;
      if 0 <= index < |promptPresets| {
        promptText := promptPresets[index].Content;
      }
    }

    /** `BtnSavePrompt_Click` with the title typed in the dialog (empty when it
        is cancelled): a title that is not blank appends the prompt box's text
        under it, saves, and selects the new last entry. */
    method SavePrompt(title: string)
      requires Valid()
      modifies this
      ensures Valid()
      ensures !IsNullOrWhiteSpace(Some(title)) ==>
        promptPresets == old(promptPresets) + [PromptPreset(title, old(promptText))]
        && storedPrompts == Some(promptPresets) && selectedIndex == |promptPresets| - 1
      ensures IsNullOrWhiteSpace(Some(title)) ==>
        promptPresets == old(promptPresets) && storedPrompts == old(storedPrompts)
        && selectedIndex == old(selectedIndex)
      ensures promptText == old(promptText)
      ensures filePaths == old(filePaths) && items == old(items)
      ensures contextText == old(contextText) && apiKey == old(apiKey) && apiUrl == old(apiUrl)
      ensures model == old(model) && settingsVisible == old(settingsVisible) && status == old(status)
      ensures captured == old(captured) && capturedImage == old(capturedImage)
    {
      if !IsNullOrWhiteSpace(Some(title)) {
        promptPresets := promptPresets + [PromptPreset(title, promptText)];
        storedPrompts := Some(promptPresets);
        selectedIndex := |promptPresets| - 1;
        promptText := promptPresets[selectedIndex].Content;
      }
    }

    /** `BtnDeletePrompt_Click`: with a preset selected and the deletion
        confirmed, exactly that preset goes, the list is saved, the selection is
        cleared and the prompt box emptied. */
    method DeletePrompt(confirmed: bool)
      requires Valid()
      modifies this
      ensures Valid()
      ensures old(selectedIndex) >= 0 && confirmed ==>
        promptPresets == RemoveAt(old(promptPresets), old(selectedIndex))
        && storedPrompts == Some(promptPresets) && selectedIndex == -1 && promptText == ""
      ensures old(selectedIndex) < 0 || !confirmed ==>
        promptPresets == old(promptPresets) && storedPrompts == old(storedPrompts)
        && selectedIndex == old(selectedIndex) && promptText == old(promptText)
      ensures filePaths == old(filePaths) && items == old(items)
      ensures contextText == old(contextText) && apiKey == old(apiKey) && apiUrl == old(apiUrl)
      ensures model == old(model) && settingsVisible == old(settingsVisible) && status == old(status)
      ensures captured == old(captured) && capturedImage == old(capturedImage)
    {
      if selectedIndex >= 0 && confirmed {
        promptPresets := RemoveAt(promptPresets, selectedIndex);
        storedPrompts := Some(promptPresets);
        selectedIndex := -1;
        promptText := "";
      }
    }

    /** `BtnRun_Click`. Without an API key the settings panel opens and nothing
        is sent. Otherwise the text part is the prompt, a blank line and the
        context, followed by the captured picture when there is one; the reply is
        given here, and is cleaned, parsed and written at the captured cell. */
    method Run(sheet: Worksheet, fs: Files, reply: Result<string>, parse: string -> Result<Json>)
      returns (sent: Option<seq<Part>>)
      modifies this, sheet
      ensures filePaths == old(filePaths) && items == old(items)
      ensures promptPresets == old(promptPresets) && storedPrompts == old(storedPrompts)
      ensures selectedIndex == old(selectedIndex) && promptText == old(promptText)
      ensures contextText == old(contextText) && apiKey == old(apiKey) && apiUrl == old(apiUrl)
      ensures model == old(model) && captured == old(captured) && capturedImage == old(capturedImage)
      ensures apiKey == "" ==>
        sent.None? && settingsVisible && status == old(status) && sheet.cells == old(sheet.cells)
      ensures apiKey != "" ==>
        sent == Some(UserContent(promptText, RunContext(contextText, filePaths, fs),
                                 SendsCapture(WinFormsPane, false, capturedImage), []))
        && (status, sheet.cells) == FillStatus(old(sheet.cells), captured, reply, parse)
        && settingsVisible == old(settingsVisible)
    {
      if apiKey == "" {
        settingsVisible := true;
        return None;
      }
      status := "Reading files...";
      var context, images := AppendAttachments(ManualBlock(contextText, true), filePaths, fs, WinForms);
      var parts := BuildUserContent(promptText, context, SendsCapture(WinFormsPane, false, capturedImage), images);
      sent := Some(parts);
      status := FillFromReply(sheet, captured, reply, parse);
    }
  }

  /** The end of `BtnRun_Click`: the reply is cleaned, parsed and written at
      the captured cell, and the status says how it went. */
  method FillFromReply(sheet: Worksheet, captured: Option<Range>, reply: Result<string>, parse: string -> Result<Json>)
    returns (status: string)
    modifies sheet
    ensures (status, sheet.cells) == FillStatus(old(sheet.cells), captured, reply, parse)
  {
    match reply {
      case Err(m) =>
        status := "Error: " + m;
      case Ok(content) =>
        var cleaned := CleanJsonReply(content);
        match parse(cleaned) {
          case Err(m) =>
            status := "Error: " + m;
          case Ok(rows) =>
            var outcome := WriteToExcel(sheet, rows, captured);
            status := if outcome.Failed? then "Error: " + outcome.message else "Done!";
        }
    }
  }
}
