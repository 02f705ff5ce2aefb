/** The newer WPF task pane (`ExcelSP2/WpfTaskPaneControl.xaml.cs`): the
    captured selection and its picture, the attachment list and manual context,
    the prompt and macro lists with their text boxes, the settings, and the
    handlers that change them. The Excel host, the data folder and the header
    slot are objects the pane works on; replies of the model are parameters. */
module NewerPane {
  import opened Wrappers
  import opened Strings
  import opened Models
  import opened Host
  import opened ScriptText
  import opened HeaderCache
  import ProviderConfig
  import opened Csv
  import opened Context
  import opened MacroRunner
  import opened WpfCommon

  /** The exception `CallLLM` throws before any request when the URL is empty. */
  const NoApiUrl: string := "API URL is not configured. Please check your settings."

  /** Every kind a pane asks for resolves to a configuration. */
  lemma KnownKindsResolve(s: AppSettings)
    ensures ProviderConfig.GetConfig(s, "Header").Some? && ProviderConfig.GetConfig(s, "Write").Some?
    ensures ProviderConfig.GetConfig(s, "Op").Some? && ProviderConfig.GetConfig(s, "Vba").Some?
  {
  }

  // ---------------------------------------------------------------------------
  // The repair chain
  // ---------------------------------------------------------------------------

  /** What the repair chain does: the prompts it sends, in order, and the
      preset it saves or the message it fails with. */
  datatype RepairEnd = RepairEnd(requests: seq<string>, result: Result<MacroPreset>)

  /** `RepairMacro` with the self-healing configuration `config`: an empty URL
      fails before any request; the intent request and then the fix request are
      sent, and either failing ends the chain; otherwise the repaired preset is
      what is saved. */
  function Repair(config: LLMConfig, code: string, errorLog: string, name: string, context: string,
                  intentReply: Result<string>, fixReply: Result<string>): (r: RepairEnd)
    requires IsWordName(name)
    ensures IsNullOrEmpty(config.ApiUrl) ==> r.requests == [] && r.result == Err(NoApiUrl)
    ensures !IsNullOrEmpty(config.ApiUrl) ==> |r.requests| >= 1 && r.requests[0] == IntentPrompt(code)
    ensures r.result.Ok? ==>
      intentReply.Ok? && fixReply.Ok? && !IsNullOrEmpty(config.ApiUrl)
      && r.requests == [IntentPrompt(code), FixPrompt(intentReply.value, errorLog, context, code)]
      && r.result.value == RepairedPreset(fixReply.value, name)
    ensures !IsNullOrEmpty(config.ApiUrl) && intentReply.Ok? && fixReply.Ok? ==> r.result.Ok?
  {
    if IsNullOrEmpty(config.ApiUrl) then RepairEnd([], Err(NoApiUrl))
    else
      var first := IntentPrompt(code);
      match intentReply
      case Err(m) => RepairEnd([first], Err(m))
      case Ok(intent) =>
        var second := FixPrompt(intent, errorLog, context, code);
        match fixReply
        case Err(m) => RepairEnd([first, second], Err(m))
        case Ok(fixed) => RepairEnd([first, second], Ok(RepairedPreset(fixed, name)))
  }

  /** Every request of the chain carries the failing code, and the fix request
      carries the intent the first request returned and the error. */
  lemma RepairRequestsCarry(config: LLMConfig, code: string, errorLog: string, name: string, context: string,
                            intentReply: Result<string>, fixReply: Result<string>)
    requires IsWordName(name)
    ensures var r := Repair(config, code, errorLog, name, context, intentReply, fixReply);
      (forall i :: 0 <= i < |r.requests| ==> Contains(r.requests[i], code))
      && (|r.requests| == 2 ==> intentReply.Ok? && Contains(r.requests[1], intentReply.value)
                                && Contains(r.requests[1], errorLog))
  {
    RepairPromptsCarryInputs(if intentReply.Ok? then intentReply.value else "", errorLog, context, code);
  }

  // ---------------------------------------------------------------------------
  // Finding: a saved macro is selected by title
  // ---------------------------------------------------------------------------

  /** The entry `BtnSaveMacro_Click` and `RepairMacro` select after a save, as
      written: the first entry of the refreshed list carrying the saved title. */
  function SelectedAfterSaveAsWritten(presets: seq<MacroPreset>, saved: MacroPreset, project: VbaProject)
    : (k: Option<nat>)
  {
    FirstTitled(MacroItems(presets + [saved], project), saved.Title)
  }

  /** The entry evidently meant ("select the newly added macro"): the new
      preset, the last of the saved list. */
  function SelectedAfterSave(presets: seq<MacroPreset>, saved: MacroPreset, project: VbaProject): (k: nat)
    ensures k < |MacroItems(presets + [saved], project)|
    ensures MacroItems(presets + [saved], project)[k] == saved
  {
    |presets|
  }

  /** As written, a title that is already saved selects the older entry, and
      the code box shows the older code instead of the code just saved. */
  lemma SaveSelectsOlderDuplicate(presets: seq<MacroPreset>, code: string, project: VbaProject)
    requires presets != [] && presets[0].Code != code
    ensures var saved := MacroPreset(presets[0].Title, code);
      var items := MacroItems(presets + [saved], project);
      SelectedAfterSaveAsWritten(presets, saved, project) == Some(0)
      && items[0].Code != code
      && items[SelectedAfterSave(presets, saved, project)].Code == code
  {
    var saved := MacroPreset(presets[0].Title, code);
    assert MacroItems(presets + [saved], project)[0] == presets[0];
  }

  /** Without an earlier entry of the same title the two selections agree. */
  lemma SaveSelectionsAgree(presets: seq<MacroPreset>, saved: MacroPreset, project: VbaProject)
    requires forall j :: 0 <= j < |presets| ==> presets[j].Title != saved.Title
    ensures SelectedAfterSaveAsWritten(presets, saved, project) == Some(SelectedAfterSave(presets, saved, project))
  {
    var items := MacroItems(presets + [saved], project);
    assert items[|presets|] == saved;
    assert forall j :: 0 <= j < |presets| ==> items[j] == presets[j];
  }

  // ---------------------------------------------------------------------------
  // The pane
  // ---------------------------------------------------------------------------

  class WpfTaskPane {
    const folder: DataFolder
    const header: HeaderSlot
    /** The captured address and the captured picture (base64). */
    var captured: Option<Range>
    var capturedImage: Option<string>
    var attachments: seq<AttachmentItem>
    /** The manual context box. */
    var contextText: string
    var promptPresets: seq<PromptPreset>
    var promptIndex: int
    /** The prompt box. */
    var promptText: string
    var macroPresets: seq<MacroPreset>
    /** The macro list shown: the saved macros, then the workbook's own. */
    var macroItems: seq<MacroPreset>
    var macroIndex: int
    /** The macro code box. */
    var macroCode: string
    var settings: AppSettings
    /** The status line. */
    var status: string

    predicate Valid()
      reads this
    {
      promptPresets != [] && 0 <= promptIndex < |promptPresets|
      && macroPresets <= macroItems && -1 <= macroIndex < |macroItems|
      && (macroItems != [] ==> 0 <= macroIndex)
      && AttachmentsValid(attachments)
      && (captured.Some? ==> captured.value.Valid())
    }

    twostate predicate SameCapture()
      reads this
    {
      captured == old(captured) && capturedImage == old(capturedImage)
    }

    twostate predicate SameInputs()
      reads this
    {
      attachments == old(attachments) && contextText == old(contextText)
    }

    twostate predicate SamePrompts()
      reads this
    {
      promptPresets == old(promptPresets) && promptIndex == old(promptIndex) && promptText == old(promptText)
    }

    twostate predicate SameMacros()
      reads this
    {
      macroPresets == old(macroPresets) && macroItems == old(macroItems)
      && macroIndex == old(macroIndex) && macroCode == old(macroCode)
    }

    /** The constructor: `InitializePrompts`, `InitializeMacros` and
        `InitializeSettings`, each loading its file and writing back a
        fallback list; no header is cached and nothing is captured. */
    constructor (folder: DataFolder, project: VbaProject)
      modifies folder
      ensures this.folder == folder && fresh(header) && header.info.None? && header.columnKey.None?
      ensures captured.None? && capturedImage.None? && attachments == [] && contextText == ""
      ensures promptPresets == LoadedPrompts(None, old(folder.prompts))
      ensures folder.prompts
              == StoredAfterLoad(old(folder.prompts), PromptsReset(None, old(folder.prompts)), promptPresets)
      ensures promptIndex == 0 && promptText == promptPresets[0].Content
      ensures macroPresets == LoadedMacros(None, old(folder.macros))
      ensures folder.macros
              == StoredAfterLoad(old(folder.macros), MacrosReset(None, old(folder.macros)), macroPresets)
      ensures macroItems == MacroItems(macroPresets, project)
      ensures macroItems == [] ==> macroIndex == -1 && macroCode == ""
      ensures macroItems != [] ==> macroIndex == 0 && macroCode == macroItems[0].Code
      ensures settings == LoadedSettings(None, folder.settings) && folder.settings == old(folder.settings)
      ensures Valid()
    {
      this.folder := folder;
      header := new HeaderSlot();
      captured := None;
      capturedImage := None;
      attachments := [];
      contextText := "";
      var prompts := LoadedPrompts(None, folder.prompts);
      promptPresets := prompts;
      promptIndex := 0;
      promptText := prompts[0].Content;
      var macros := LoadedMacros(None, folder.macros);
      macroPresets := macros;
      var items := MacroItems(macros, project);
      macroItems := items;
      if items == [] {
        macroIndex := -1;
        macroCode := "";
      } else {
        macroIndex := 0;
        macroCode := items[0].Code;
      }
      settings := LoadedSettings(None, folder.settings);
      status := "";
      new;
      folder.prompts := StoredAfterLoad(folder.prompts, PromptsReset(None, folder.prompts), prompts);
      folder.macros := StoredAfterLoad(folder.macros, MacrosReset(None, folder.macros), macros);
    }

    /** `RefreshPromptCombo`: the list is shown again and its first entry
        selected, which puts its content in the prompt box. */
    method RefreshPrompts()
      requires promptPresets != []
      modifies this
      ensures promptPresets == old(promptPresets)
      ensures promptIndex == 0 && promptText == promptPresets[0].Content
      ensures SameCapture() && SameInputs() && SameMacros()
      ensures settings == old(settings) && status == old(status)
    {
      promptIndex := 0;
      promptText := promptPresets[0].Content;
    }

    /** `RefreshMacroCombo`: the list is rebuilt from the saved macros and the
        workbook's project; a non-empty list selects its first entry, which
        puts its code in the code box. */
    method RefreshMacros(project: VbaProject)
      modifies this
      ensures macroItems == MacroItems(macroPresets, project) && macroPresets == old(macroPresets)
      ensures macroItems == [] ==> macroIndex == -1 && macroCode == old(macroCode)
      ensures macroItems != [] ==> macroIndex == 0 && macroCode == macroItems[0].Code
      ensures SameCapture() && SameInputs() && SamePrompts()
      ensures settings == old(settings) && status == old(status)
    {
      macroItems := MacroItems(macroPresets, project);
      if macroItems == [] {
        macroIndex := -1;
      } else {
        macroIndex := 0;
        macroCode := macroItems[0].Code;
      }
    }

    /** The `SettingsSaved` handler: `LoadSettings`, `LoadPrompts` and
        `LoadMacros` again, over what the pane already holds. */
    method Reload(project: VbaProject)
      requires Valid()
      modifies this, folder
      ensures settings == LoadedSettings(Some(old(settings)), folder.settings)
      ensures promptPresets == LoadedPrompts(Some(old(promptPresets)), old(folder.prompts))
      ensures folder.prompts == StoredAfterLoad(old(folder.prompts),
                                                PromptsReset(Some(old(promptPresets)), old(folder.prompts)),
                                                promptPresets)
      ensures promptIndex == 0 && promptText == promptPresets[0].Content
      ensures macroPresets == LoadedMacros(Some(old(macroPresets)), old(folder.macros))
      ensures folder.macros == StoredAfterLoad(old(folder.macros),
                                               MacrosReset(Some(old(macroPresets)), old(folder.macros)),
                                               macroPresets)
      ensures macroItems == MacroItems(macroPresets, project)
      ensures macroItems == [] ==> macroIndex == -1 && macroCode == old(macroCode)
      ensures macroItems != [] ==> macroIndex == 0 && macroCode == macroItems[0].Code
      ensures folder.settings == old(folder.settings)
      ensures SameCapture() && SameInputs() && status == old(status)
      ensures Valid()
    {
      settings := LoadedSettings(Some(settings), folder.settings);
      var prompts := LoadedPrompts(Some(promptPresets), folder.prompts);
      folder.prompts := StoredAfterLoad(folder.prompts, PromptsReset(Some(promptPresets), folder.prompts), prompts);
      promptPresets := prompts;
      RefreshPrompts();
      var macros := LoadedMacros(Some(macroPresets), folder.macros);
      folder.macros := StoredAfterLoad(folder.macros, MacrosReset(Some(macroPresets), folder.macros), macros);
      macroPresets := macros;
      RefreshMacros(project);
    }

    /** `BtnCapture_Click`: without a selected range nothing happens. Otherwise
        the range is captured and its picture replaces the captured one when
        the clipboard holds a picture (an earlier picture stays otherwise).
        Gives whether the header cache applies to the new selection. */
    method Capture(selection: Option<Range>, picture: Option<string>) returns (cached: bool)
      requires Valid() && (selection.Some? ==> selection.value.Valid())
      modifies this
      ensures selection.None? ==> !cached && SameCapture()
      ensures selection.Some? ==>
        captured == selection && cached == ShowsCached(header.info, header.columnKey, selection.value)
      ensures selection.Some? && picture.Some? ==> capturedImage == picture
      ensures selection.None? || picture.None? ==> capturedImage == old(capturedImage)
      ensures SameInputs() && SamePrompts() && SameMacros()
      ensures settings == old(settings) && status == old(status)
      ensures Valid()
    {
      cached := false;
      if selection.None? {
        return;
      }
      captured := selection;
      cached := ShowsCached(header.info, header.columnKey, selection.value);
      if picture.Some? {
        capturedImage := picture;
      }
    }

    /** `BtnClearCapture_Click`: the address and the picture are forgotten;
        the header cache is kept. */
    method ClearCapture()
      requires Valid()
      modifies this
      ensures captured.None? && capturedImage.None?
      ensures SameInputs() && SamePrompts() && SameMacros()
      ensures settings == old(settings) && status == old(status)
      ensures Valid()
    {
      captured := None;
      capturedImage := None;
    }

    /** `BtnResetHeader_Click`: the cached header and its key are cleared. */
    method ResetHeader()
      modifies header
      ensures header.info.None? && header.columnKey.None?
    {
      header.Reset();
    }

    /** `AddAttachment` for each file of the file dialog, a pasted file list or
        a drop, in order. */
    method AddFiles(files: seq<string>)
      requires Valid()
      modifies this
      ensures attachments == AttachAll(old(attachments), files)
      ensures contextText == old(contextText)
      ensures SameCapture() && SamePrompts() && SameMacros()
      ensures settings == old(settings) && status == old(status)
      ensures Valid()
    {
      for i := 0 to |files|
        invariant attachments == AttachAll(old(attachments), files[..i])
        invariant contextText == old(contextText) && SameCapture() && SamePrompts() && SameMacros()
        invariant settings == old(settings) && status == old(status)
      {
        assert files[..i + 1][..i] == files[..i];
        attachments := Attach(attachments, files[i]);
      }
      assert files[..|files|] == files;
      AttachAllPaths(old(attachments), files);
    }

    /** `BtnRemoveAttachment_Click` for the item carrying `path`. */
    method RemoveAttachment(path: string)
      requires Valid()
      modifies this
      ensures attachments == Detached(old(attachments), path)
      ensures contextText == old(contextText)
      ensures SameCapture() && SamePrompts() && SameMacros()
      ensures settings == old(settings) && status == old(status)
      ensures Valid()
    {
      assert AttachmentsValid(Detached(attachments, path)) by {
        DetachedContents(attachments, path);
      }
      attachments := Detached(attachments, path);
    }

    /** `BtnClearContext_Click`: no attachments and an empty context box. */
    method ClearContext()
      requires Valid()
      modifies this
      ensures attachments == [] && contextText == ""
      ensures SameCapture() && SamePrompts() && SameMacros()
      ensures settings == old(settings) && status == old(status)
      ensures Valid()
    {
      attachments := [];
      contextText := "";
    }

    /** `CmbPrompts_SelectionChanged`: the selected preset's content fills the
        prompt box. */
    method SelectPrompt(index: int)
      requires Valid() && 0 <= index < |promptPresets|
      modifies this
      ensures promptPresets == old(promptPresets)
      ensures promptIndex == index && promptText == promptPresets[index].Content
      ensures SameCapture() && SameInputs() && SameMacros()
      ensures settings == old(settings) && status == old(status)
      ensures Valid()
    {
      promptIndex := index;
      promptText := promptPresets[index].Content;
    }

    /** `BtnSavePrompt_Click` with the title typed in the input box: a blank
        title (or a cancelled box) does nothing; otherwise the prompt box is
        saved under the title, the file is written, and the new entry is
        selected, so the prompt box ends holding the text it held. */
    method SavePrompt(title: string)
      requires Valid()
      modifies this, folder
      ensures IsNullOrWhiteSpace(Some(title)) ==>
        SamePrompts() && folder.prompts == old(folder.prompts)
      ensures !IsNullOrWhiteSpace(Some(title)) ==>
        promptPresets == old(promptPresets) + [PromptPreset(title, old(promptText))]
        && folder.prompts == Parsed(Some(promptPresets))
        && promptIndex == |promptPresets| - 1 && promptText == old(promptText)
      ensures folder.macros == old(folder.macros) && folder.settings == old(folder.settings)
      ensures SameCapture() && SameInputs() && SameMacros()
      ensures settings == old(settings) && status == old(status)
      ensures Valid()
    {
      if IsNullOrWhiteSpace(Some(title)) {
        return;
      }
      promptPresets := promptPresets + [PromptPreset(title, promptText)];
      folder.prompts := Parsed(Some(promptPresets));
      RefreshPrompts();
      SelectPrompt(|promptPresets| - 1);
    }

    /** `BtnDeletePrompt_Click`: only the prompt box is emptied; no preset is
        removed. */
    method ClearPrompt()
      requires Valid()
      modifies this
      ensures promptText == "" && promptPresets == old(promptPresets) && promptIndex == old(promptIndex)
      ensures SameCapture() && SameInputs() && SameMacros()
      ensures settings == old(settings) && status == old(status)
      ensures Valid()
    {
      promptText := "";
    }

    /** `CmbMacros_SelectionChanged`: the selected entry's code fills the code
        box. */
    method SelectMacro(index: int)
      requires Valid() && 0 <= index < |macroItems|
      modifies this
      ensures macroPresets == old(macroPresets) && macroItems == old(macroItems)
      ensures macroIndex == index && macroCode == macroItems[index].Code
      ensures SameCapture() && SameInputs() && SamePrompts()
      ensures settings == old(settings) && status == old(status)
      ensures Valid()
    {
      macroIndex := index;
      macroCode := macroItems[index].Code;
    }

    /** Saving one preset, as `BtnSaveMacro_Click` and a successful repair do:
        the preset is appended, the file written, the list rebuilt, and the new
        entry selected (the corrected selection, see `SelectedAfterSave`). */
    method AddMacro(preset: MacroPreset, project: VbaProject)
      requires Valid()
      modifies this, folder
      ensures macroPresets == old(macroPresets) + [preset]
      ensures folder.macros == Parsed(Some(macroPresets))
      ensures macroItems == MacroItems(macroPresets, project)
      ensures macroIndex == SelectedAfterSave(old(macroPresets), preset, project)
      ensures macroCode == preset.Code
      ensures folder.prompts == old(folder.prompts) && folder.settings == old(folder.settings)
      ensures SameCapture() && SameInputs() && SamePrompts()
      ensures settings == old(settings) && status == old(status)
      ensures Valid()
    {
      var before := macroPresets;
      macroPresets := macroPresets + [preset];
      folder.macros := Parsed(Some(macroPresets));
      RefreshMacros(project);
      var k := SelectedAfterSave(before, preset, project);
      SelectMacro(k);
    }

    /** `BtnSaveMacro_Click` with the title typed in the input box: a blank
        title does nothing; otherwise the code box is saved under it and the
        new entry is selected. Selecting the new entry is the corrected
        behaviour; the code selects the first entry with that title
        (`SaveSelectsOlderDuplicate`). */
    method SaveMacro(title: string, project: VbaProject)
      requires Valid()
      modifies this, folder
      ensures IsNullOrWhiteSpace(Some(title)) ==> SameMacros() && folder.macros == old(folder.macros)
      ensures !IsNullOrWhiteSpace(Some(title)) ==>
        macroPresets == old(macroPresets) + [MacroPreset(title, old(macroCode))]
        && folder.macros == Parsed(Some(macroPresets))
        && macroItems == MacroItems(macroPresets, project)
        && macroIndex == |old(macroPresets)| && macroCode == old(macroCode)
      ensures folder.prompts == old(folder.prompts) && folder.settings == old(folder.settings)
      ensures SameCapture() && SameInputs() && SamePrompts()
      ensures settings == old(settings) && status == old(status)
      ensures Valid()
    {
      if IsNullOrWhiteSpace(Some(title)) {
        return;
      }
      AddMacro(MacroPreset(title, macroCode), project);
    }

    /** `BtnRunMacro_Click` up to its error dialog: the code box is run and
        then shows the code as run. When the run fails, the dialog offers the
        repair; accepting it is `RepairMacro` with the outcome's error and
        name. */
    method RunMacro(app: Application, host: MacroHost) returns (outcome: MacroOutcome)
      requires Valid()
      modifies this, app
      ensures RunOutcome(old(macroCode), host, outcome)
      ensures macroCode == RunCode(old(macroCode))
      ensures app.flags == old(app.flags) && app.components == old(app.components)
      ensures (outcome.Ran? || outcome.RunFailed?) && host.accessTrusted ==>
        RanInTempModule(app.runs, old(app.runs), outcome.name, Quiet, old(app.components))
      ensures outcome.Skipped? || outcome.NoEntryPoint? ==> app.runs == old(app.runs)
      ensures macroPresets == old(macroPresets) && macroItems == old(macroItems) && macroIndex == old(macroIndex)
      ensures SameCapture() && SameInputs() && SamePrompts()
      ensures settings == old(settings) && status == old(status)
      ensures Valid()
    {
      var shown;
      outcome, shown := MacroRunner.RunMacro(app, host, macroCode);
      macroCode := shown;
    }

    /** `RepairMacro` after a failed run of the code box as `name` with the
        error `errorLog`, given the workbook context text: the chain runs with
        the self-healing configuration, a repaired macro is saved and its new
        entry selected (the corrected selection, as in `SaveMacro`), and the
        status line ends as "Ready" whatever happens. */
    method RepairMacro(errorLog: string, name: string, context: string,
                       intentReply: Result<string>, fixReply: Result<string>, project: VbaProject)
      returns (requests: seq<string>)
      requires Valid() && IsWordName(name)
      modifies this, folder
      ensures var r := Repair(ProviderConfig.GetConfig(settings, "Vba").value, old(macroCode), errorLog, name, context,
                              intentReply, fixReply);
        requests == r.requests && status == "Ready"
        && (r.result.Err? ==> SameMacros() && folder.macros == old(folder.macros))
        && (r.result.Ok? ==>
              macroPresets == old(macroPresets) + [r.result.value]
              && folder.macros == Parsed(Some(macroPresets))
              && macroItems == MacroItems(macroPresets, project)
              && macroIndex == |old(macroPresets)| && macroCode == r.result.value.Code)
      ensures folder.prompts == old(folder.prompts) && folder.settings == old(folder.settings)
      ensures SameCapture() && SameInputs() && SamePrompts() && settings == old(settings)
      ensures Valid()
    {
      KnownKindsResolve(settings);
      var r := Repair(ProviderConfig.GetConfig(settings, "Vba").value, macroCode, errorLog, name, context,
                      intentReply, fixReply);
      requests := r.requests;
      if r.result.Ok? {
        AddMacro(r.result.value, project);
      }
      status := "Ready";
    }

    /** The run inputs the pane holds: the prompt box, the context box and the
        attached paths. */
    function Inputs(fs: Files): (r: RunInputs)
      reads this`promptText, this`contextText, this`attachments
      ensures r.prompt == promptText && r.manual == contextText && r.paths == Paths(attachments) && r.fs == fs
    {
      RunInputs(promptText, contextText, Paths(attachments), fs)
    }

    /** `BtnRun_Click` in data-operation mode: an OpenAI configuration without
        a key refuses the run and changes nothing; otherwise the run goes on as
        `DataRun`. */
    method RunDataOperation(sheet: Worksheet, app: Application, host: MacroHost, selection: Option<Range>,
                            fs: Files, reply: Result<string>)
      returns (refused: bool, sentText: Option<string>)
      requires Valid()
      modifies this, app
      ensures refused <==> ProviderConfig.MissingApiKey(ProviderConfig.GetConfig(settings, "Op").value)
      ensures refused ==>
        sentText.None? && macroCode == old(macroCode) && status == old(status)
        && app.flags == old(app.flags) && app.components == old(app.components) && app.runs == old(app.runs)
      ensures !refused ==> DataRunDone(sheet, app, host, selection, fs, reply, sentText)
      ensures macroPresets == old(macroPresets) && macroItems == old(macroItems) && macroIndex == old(macroIndex)
      ensures SameCapture() && SameInputs() && SamePrompts() && settings == old(settings)
      ensures Valid()
    {
      KnownKindsResolve(settings);
      var config := ProviderConfig.GetConfig(settings, "Op").value;
      if ProviderConfig.MissingApiKey(config) {
        return true, None;
      }
      refused := false;
      sentText := DataRun(sheet, app, host, selection, fs, reply);
    }

    /** What a data-operation run that was not refused leaves: the text sent
        (none without a selection), the generated macro in the code box and
        run in the runner module, and "Ready" on the status line. */
    twostate predicate DataRunDone(sheet: Worksheet, app: Application, host: MacroHost, selection: Option<Range>,
                                   fs: Files, reply: Result<string>, new sentText: Option<string>)
      reads this, sheet, app
    {
      sentText == DataOpMessage(sheet.cells, selection, Inputs(fs))
      && (selection.Some? && reply.Ok? ==> macroCode == CleanLLMOutput(reply.value))
      && (selection.None? || reply.Err? ==> macroCode == old(macroCode))
      && status == "Ready"
      && app.flags == old(app.flags)
      && (selection.Some? && reply.Ok? && host.accessTrusted ==>
            app.components == old(app.components) + {TempRunner}
            && app.runs == old(app.runs)
                           + [MacroCall(GeneratedEntry, old(app.flags), old(app.components) + {TempRunner})])
      && (!(selection.Some? && reply.Ok? && host.accessTrusted) ==>
            app.components == old(app.components) && app.runs == old(app.runs))
    }

    /** `RunDataMode` on the pane: the selection's CSV, the context box and the
        attached text files are sent with the prompt box; a generated macro
        is shown in the code box and run. */
    method DataRun(sheet: Worksheet, app: Application, host: MacroHost, selection: Option<Range>,
                   fs: Files, reply: Result<string>)
      returns (sentText: Option<string>)
      requires Valid()
      modifies this, app
      ensures DataRunDone(sheet, app, host, selection, fs, reply, sentText)
      ensures macroPresets == old(macroPresets) && macroItems == old(macroItems) && macroIndex == old(macroIndex)
      ensures SameCapture() && SameInputs() && SamePrompts() && settings == old(settings)
      ensures Valid()
    {
      status := "Ready";
      var inputs := Inputs(fs);
      var code;
      sentText, code := DataOperation(sheet, app, host, selection, inputs, reply);
      macroCode := code.GetOr(macroCode);
    }

    /** `BtnRun_Click` in write mode: an OpenAI configuration without a key,
        and then a missing capture (address or picture), refuse the run;
        otherwise the write run goes on the header slot and the sheet with the
        captured range and picture and the pane's inputs, and its status is
        what the status line shows. */
    method RunWriteMode(sheet: Worksheet, detection: Result<Option<HeaderInfo>>, fs: Files, useExisting: bool,
                        reply: Result<string>, parse: string -> Result<Json>)
      returns (refusal: Option<Refusal>, sent: Option<seq<Part>>)
      requires Valid()
      modifies this, header, sheet
      ensures ProviderConfig.MissingApiKey(ProviderConfig.GetConfig(settings, "Write").value) ==>
        refusal == Some(NeedsApiKey)
      ensures !ProviderConfig.MissingApiKey(ProviderConfig.GetConfig(settings, "Write").value)
              && (captured.None? || IsNullOrEmpty(capturedImage)) ==>
        refusal == Some(NeedsCapture)
      ensures refusal.Some? ==>
        sent.None? && status == old(status) && sheet.cells == old(sheet.cells)
        && header.info == old(header.info) && header.columnKey == old(header.columnKey)
      ensures refusal.None? ==>
        captured.Some? && captured.value.Valid()
        && WriteEnd(status, sent, sheet.cells, header.info, header.columnKey)
           == WriteRun(NewerPane, old(header.info), old(header.columnKey), old(sheet.cells), captured.value,
                       capturedImage, detection, old(Inputs(fs)), useExisting, reply, parse)
      ensures SameCapture() && SameInputs() && SamePrompts() && SameMacros() && settings == old(settings)
      ensures Valid()
    {
      KnownKindsResolve(settings);
      var config := ProviderConfig.GetConfig(settings, "Write").value;
      if ProviderConfig.MissingApiKey(config) {
        return Some(NeedsApiKey), None;
      }
      if captured.None? || IsNullOrEmpty(capturedImage) {
        return Some(NeedsCapture), None;
      }
      refusal := None;
      var inputs := Inputs(fs);
      var st;
      st, sent := WpfCommon.RunWrite(NewerPane, header, sheet, captured.value, capturedImage, detection,
                                     inputs, useExisting, reply, parse);
      status := st;
    }
  }
}
