/** The older WPF task pane (`ExcelSP2/ExcelSP2/WpfTaskPaneControl.xaml.cs`):
    the same capture, attachment and write run as the newer pane, but its
    macro list holds the saved macros only, its delete buttons remove the
    selected preset after a confirmation, its run button runs the code box as
    it is, and its configuration ignores a stored provider. */
module OlderPane {
  import opened Wrappers
  import opened Strings
  import opened Models
  import opened Host
  import opened ScriptText
  import opened HeaderCache
  import ProviderConfig
  import opened Csv
  import opened Context
  import opened Lists
  import opened MacroRunner
  import opened WpfCommon

  /** Every kind the older pane asks for resolves to a configuration. */
  lemma LegacyKindsResolve(s: AppSettings)
    ensures ProviderConfig.LegacyGetConfig(s, "Header").Some? && ProviderConfig.LegacyGetConfig(s, "Write").Some?
    ensures ProviderConfig.LegacyGetConfig(s, "Op").Some?
  {
  }

  /** What the older run button gives for the code box: blank code is
      skipped; otherwise the code names its entry point with its first `Sub`
      declaration, and the run succeeds exactly when there is one, access to the
      VBA project is trusted and the macro raises no error. */
  predicate LegacyOutcome(code: string, host: MacroHost, outcome: MacroOutcome) {
    (outcome == Skipped <==> IsNullOrWhiteSpace(Some(code)))
    && (outcome == NoEntryPoint <==> !outcome.Skipped? && FirstSubName(code).None?)
    && (outcome.Ran? || outcome.RunFailed? ==> FirstSubName(code) == Some(outcome.name))
    && (outcome.Ran? <==>
          !outcome.Skipped? && FirstSubName(code).Some? && host.accessTrusted && host.runError.None?)
    && (outcome.RunFailed? && !host.accessTrusted ==> outcome.message == UntrustedError)
    && (outcome.RunFailed? && host.accessTrusted ==> Some(outcome.message) == host.runError)
  }

  /** The selection a preset list shows after it is refreshed: its first
      entry, or none when it is empty. */
  function RefreshedIndex<T>(presets: seq<T>): (k: int)
    ensures presets == [] <==> k == -1
    ensures presets != [] ==> k == 0
  {
    if presets == [] then -1 else 0
  }

  /** Deleting the entry just saved gives the list back, and the file holds
      the list it held before the save. */
  lemma SaveThenDeleteRestores<T>(presets: seq<T>, saved: T)
    ensures RemoveAt(presets + [saved], |presets|) == presets
    ensures RefreshedIndex(RemoveAt(presets + [saved], |presets|)) == RefreshedIndex(presets)
  {
    RemoveAtLast(presets, saved);
  }

  class LegacyWpfTaskPane {
    const folder: DataFolder
    const header: HeaderSlot
    /** The captured address and the captured picture (base64). */
    var captured: Option<Range>
    var capturedImage: Option<string>
    var attachments: seq<AttachmentItem>
    /** The manual context box. */
    var contextText: string
    var promptPresets: seq<PromptPreset>
    var promptIndex: int
    /** The prompt box. */
    var promptText: string
    /** The saved macros, which are also the entries of the macro list. */
    var macroPresets: seq<MacroPreset>
    var macroIndex: int
    /** The macro code box. */
    var macroCode: string
    var settings: AppSettings
    /** The status line. */
    var status: string

    /** Each list selects one of its entries unless it is empty. */
    predicate Valid()
      reads this
    {
      -1 <= promptIndex < |promptPresets| && (promptPresets != [] ==> 0 <= promptIndex)
      && -1 <= macroIndex < |macroPresets| && (macroPresets != [] ==> 0 <= macroIndex)
      && AttachmentsValid(attachments)
      && (captured.Some? ==> captured.value.Valid())
    }

    twostate predicate SameCapture()
      reads this
    {
      captured == old(captured) && capturedImage == old(capturedImage)
    }

    twostate predicate SameInputs()
      reads this
    {
      attachments == old(attachments) && contextText == old(contextText)
    }

    twostate predicate SamePrompts()
      reads this
    {
      promptPresets == old(promptPresets) && promptIndex == old(promptIndex) && promptText == old(promptText)
    }

    twostate predicate SameMacros()
      reads this
    {
      macroPresets == old(macroPresets) && macroIndex == old(macroIndex) && macroCode == old(macroCode)
    }

    /** The constructor: `InitializePrompts`, `InitializeMacros` and
        `InitializeSettings`, each loading its file and writing back a
        fallback list; no header is cached and nothing is captured. */
    constructor (folder: DataFolder)
      modifies folder
      ensures this.folder == folder && fresh(header) && header.info.None? && header.columnKey.None?
      ensures captured.None? && capturedImage.None? && attachments == [] && contextText == ""
      ensures promptPresets == LoadedPrompts(None, old(folder.prompts))
      ensures folder.prompts
              == StoredAfterLoad(old(folder.prompts), PromptsReset(None, old(folder.prompts)), promptPresets)
      ensures promptIndex == 0 && promptText == promptPresets[0].Content
      ensures macroPresets == LoadedMacros(None, old(folder.macros))
      ensures folder.macros
              == StoredAfterLoad(old(folder.macros), MacrosReset(None, old(folder.macros)), macroPresets)
      ensures macroIndex == RefreshedIndex(macroPresets)
      ensures macroPresets == [] ==> macroCode == ""
      ensures macroPresets != [] ==> macroCode == macroPresets[0].Code
      ensures settings == LoadedSettings(None, folder.settings) && folder.settings == old(folder.settings)
      ensures Valid()
    {
      this.folder := folder;
      header := new HeaderSlot();
      captured := None;
      capturedImage := None;
      attachments := [];
      contextText := "";
      var prompts := LoadedPrompts(None, folder.prompts);
      promptPresets := prompts;
      promptIndex := 0;
      promptText := prompts[0].Content;
      var macros := LoadedMacros(None, folder.macros);
      macroPresets := macros;
      macroIndex := RefreshedIndex(macros);
      macroCode := if macros == [] then "" else macros[0].Code;
      settings := LoadedSettings(None, folder.settings);
      status := "";
      new;
      folder.prompts := StoredAfterLoad(folder.prompts, PromptsReset(None, folder.prompts), prompts);
      folder.macros := StoredAfterLoad(folder.macros, MacrosReset(None, folder.macros), macros);
    }

    /** `RefreshPromptCombo`: the list is shown again; a non-empty list
        selects its first entry, which puts its content in the prompt box. */
    method RefreshPrompts()
      modifies this
      ensures promptPresets == old(promptPresets) && promptIndex == RefreshedIndex(promptPresets)
      ensures promptPresets == [] ==> promptText == old(promptText)
      ensures promptPresets != [] ==> promptText == promptPresets[0].Content
      ensures SameCapture() && SameInputs() && SameMacros()
      ensures settings == old(settings) && status == old(status)
    {
      promptIndex := RefreshedIndex(promptPresets);
      if promptPresets != [] {
        promptText := promptPresets[0].Content;
      }
    }

    /** `RefreshMacroCombo`: the saved macros are shown again; a non-empty
        list selects its first entry, which puts its code in the code box. */
    method RefreshMacros()
      modifies this
      ensures macroPresets == old(macroPresets) && macroIndex == RefreshedIndex(macroPresets)
      ensures macroPresets == [] ==> macroCode == old(macroCode)
      ensures macroPresets != [] ==> macroCode == macroPresets[0].Code
      ensures SameCapture() && SameInputs() && SamePrompts()
      ensures settings == old(settings) && status == old(status)
    {
      macroIndex := RefreshedIndex(macroPresets);
      if macroPresets != [] {
        macroCode := macroPresets[0].Code;
      }
    }

    /** The `SettingsSaved` handler: `LoadSettings`, `LoadPrompts` and
        `LoadMacros` again, over what the pane already holds. */
    method Reload()
      requires Valid()
      modifies this, folder
      ensures settings == LoadedSettings(Some(old(settings)), folder.settings)
      ensures promptPresets == LoadedPrompts(Some(old(promptPresets)), old(folder.prompts))
      ensures folder.prompts == StoredAfterLoad(old(folder.prompts),
                                                PromptsReset(Some(old(promptPresets)), old(folder.prompts)),
                                                promptPresets)
      ensures promptIndex == 0 && promptText == promptPresets[0].Content
      ensures macroPresets == LoadedMacros(Some(old(macroPresets)), old(folder.macros))
      ensures folder.macros == StoredAfterLoad(old(folder.macros),
                                               MacrosReset(Some(old(macroPresets)), old(folder.macros)),
                                               macroPresets)
      ensures macroIndex == RefreshedIndex(macroPresets)
      ensures macroPresets == [] ==> macroCode == old(macroCode)
      ensures macroPresets != [] ==> macroCode == macroPresets[0].Code
      ensures folder.settings == old(folder.settings)
      ensures SameCapture() && SameInputs() && status == old(status)
      ensures Valid()
    {
      settings := LoadedSettings(Some(settings), folder.settings);
      var prompts := LoadedPrompts(Some(promptPresets), folder.prompts);
      folder.prompts := StoredAfterLoad(folder.prompts, PromptsReset(Some(promptPresets), folder.prompts), prompts);
      promptPresets := prompts;
      RefreshPrompts();
      var macros := LoadedMacros(Some(macroPresets), folder.macros);
      folder.macros := StoredAfterLoad(folder.macros, MacrosReset(Some(macroPresets), folder.macros), macros);
      macroPresets := macros;
      RefreshMacros();
    }

    /** `BtnCapture_Click`: without a selected range nothing happens. Otherwise
        the range is captured and its picture replaces the captured one when
        the clipboard holds a picture. Gives whether the header cache applies
        to the new selection. */
    method Capture(selection: Option<Range>, picture: Option<string>) returns (cached: bool)
      requires Valid() && (selection.Some? ==> selection.value.Valid())
      modifies this
      ensures selection.None? ==> !cached && SameCapture()
      ensures selection.Some? ==>
        captured == selection && cached == ShowsCached(header.info, header.columnKey, selection.value)
      ensures selection.Some? && picture.Some? ==> capturedImage == picture
      ensures selection.None? || picture.None? ==> capturedImage == old(capturedImage)
      ensures SameInputs() && SamePrompts() && SameMacros()
      ensures settings == old(settings) && status == old(status)
      ensures Valid()
    {
      cached := false;
      if selection.None? {
        return;
      }
      captured := selection;
      cached := ShowsCached(header.info, header.columnKey, selection.value);
      if picture.Some? {
        capturedImage := picture;
      }
    }

    /** `BtnClearCapture_Click`: the address and the picture are forgotten;
        the header cache is kept. */
    method ClearCapture()
      requires Valid()
      modifies this
      ensures captured.None? && capturedImage.None?
      ensures SameInputs() && SamePrompts() && SameMacros()
      ensures settings == old(settings) && status == old(status)
      ensures Valid()
    {
      captured := None;
      capturedImage := None;
    }

    /** `BtnResetHeader_Click`: the cached header and its key are cleared. */
    method ResetHeader()
      modifies header
      ensures header.info.None? && header.columnKey.None?
    {
      header.Reset();
    }

    /** `AddAttachment` for each file of the file dialog, a pasted file list or
        a drop, in order. */
    method AddFiles(files: seq<string>)
      requires Valid()
      modifies this
      ensures attachments == AttachAll(old(attachments), files)
      ensures contextText == old(contextText)
      ensures SameCapture() && SamePrompts() && SameMacros()
      ensures settings == old(settings) && status == old(status)
      ensures Valid()
    {
      for i := 0 to |files|
        invariant attachments == AttachAll(old(attachments), files[..i])
        invariant contextText == old(contextText) && SameCapture() && SamePrompts() && SameMacros()
        invariant settings == old(settings) && status == old(status)
      {
        assert files[..i + 1][..i] == files[..i];
        attachments := Attach(attachments, files[i]);
      }
      assert files[..|files|] == files;
      AttachAllPaths(old(attachments), files);
    }

    /** `BtnRemoveAttachment_Click` for the item carrying `path`. */
    method RemoveAttachment(path: string)
      requires Valid()
      modifies this
      ensures attachments == Detached(old(attachments), path)
      ensures contextText == old(contextText)
      ensures SameCapture() && SamePrompts() && SameMacros()
      ensures settings == old(settings) && status == old(status)
      ensures Valid()
    {
      assert AttachmentsValid(Detached(attachments, path)) by {
        DetachedContents(attachments, path);
      }
      attachments := Detached(attachments, path);
    }

    /** `CmbPrompts_SelectionChanged`: the selected preset's content fills the
        prompt box. */
    method SelectPrompt(index: int)
      requires Valid() && 0 <= index < |promptPresets|
      modifies this
      ensures promptPresets == old(promptPresets)
      ensures promptIndex == index && promptText == promptPresets[index].Content
      ensures SameCapture() && SameInputs() && SameMacros()
      ensures settings == old(settings) && status == old(status)
      ensures Valid()
    {
      promptIndex := index;
      promptText := promptPresets[index].Content;
    }

    /** `BtnSavePrompt_Click` with the title typed in the input box: a blank
        title does nothing; otherwise the prompt box is saved under the title,
        the file is written and the new entry is selected, so the prompt box
        ends holding the text it held. */
    method SavePrompt(title: string)
      requires Valid()
      modifies this, folder
      ensures IsNullOrWhiteSpace(Some(title)) ==>
        SamePrompts() && folder.prompts == old(folder.prompts)
      ensures !IsNullOrWhiteSpace(Some(title)) ==>
        promptPresets == old(promptPresets) + [PromptPreset(title, old(promptText))]
        && folder.prompts == Parsed(Some(promptPresets))
        && promptIndex == |promptPresets| - 1 && promptText == old(promptText)
      ensures folder.macros == old(folder.macros) && folder.settings == old(folder.settings)
      ensures SameCapture() && SameInputs() && SameMacros()
      ensures settings == old(settings) && status == old(status)
      ensures Valid()
    {
      if IsNullOrWhiteSpace(Some(title)) {
        return;
      }
      promptPresets := promptPresets + [PromptPreset(title, promptText)];
      folder.prompts := Parsed(Some(promptPresets));
      RefreshPrompts();
      SelectPrompt(|promptPresets| - 1);
    }

    /** `BtnDeletePrompt_Click` with the answer to its confirmation: with an
        entry selected and the deletion confirmed, the entry is removed, the
        file written and the list refreshed, and the prompt box is emptied
        (even when the refresh selected an entry); otherwise nothing changes. */
    method DeletePrompt(confirmed: bool)
      requires Valid()
      modifies this, folder
      ensures !(0 <= old(promptIndex) && confirmed) ==> SamePrompts() && folder.prompts == old(folder.prompts)
      ensures 0 <= old(promptIndex) && confirmed ==>
        promptPresets == RemoveAt(old(promptPresets), old(promptIndex))
        && folder.prompts == Parsed(Some(promptPresets))
        && promptIndex == RefreshedIndex(promptPresets) && promptText == ""
      ensures folder.macros == old(folder.macros) && folder.settings == old(folder.settings)
      ensures SameCapture() && SameInputs() && SameMacros()
      ensures settings == old(settings) && status == old(status)
      ensures Valid()
    {
      if promptIndex < 0 || !confirmed {
        return;
      }
      promptPresets := RemoveAt(promptPresets, promptIndex);
      folder.prompts := Parsed(Some(promptPresets));
      RefreshPrompts();
      promptText := "";
    }

    /** `CmbMacros_SelectionChanged`: the selected macro's code fills the code
        box. */
    method SelectMacro(index: int)
      requires Valid() && 0 <= index < |macroPresets|
      modifies this
      ensures macroPresets == old(macroPresets)
      ensures macroIndex == index && macroCode == macroPresets[index].Code
      ensures SameCapture() && SameInputs() && SamePrompts()
      ensures settings == old(settings) && status == old(status)
      ensures Valid()
    {
      macroIndex := index;
      macroCode := macroPresets[index].Code;
    }

    /** `BtnSaveMacro_Click` with the title typed in the input box: a blank
        title does nothing; otherwise the code box is saved under it, the file
        written, and the new entry (the last) selected. */
    method SaveMacro(title: string)
      requires Valid()
      modifies this, folder
      ensures IsNullOrWhiteSpace(Some(title)) ==> SameMacros() && folder.macros == old(folder.macros)
      ensures !IsNullOrWhiteSpace(Some(title)) ==>
        macroPresets == old(macroPresets) + [MacroPreset(title, old(macroCode))]
        && folder.macros == Parsed(Some(macroPresets))
        && macroIndex == |macroPresets| - 1 && macroCode == old(macroCode)
      ensures folder.prompts == old(folder.prompts) && folder.settings == old(folder.settings)
      ensures SameCapture() && SameInputs() && SamePrompts()
      ensures settings == old(settings) && status == old(status)
      ensures Valid()
    {
      if IsNullOrWhiteSpace(Some(title)) {
        return;
      }
      macroPresets := macroPresets + [MacroPreset(title, macroCode)];
      folder.macros := Parsed(Some(macroPresets));
      RefreshMacros();
      SelectMacro(|macroPresets| - 1);
    }

    /** `BtnDeleteMacro_Click` with the answer to its confirmation: with an
        entry selected and the deletion confirmed, the macro is removed, the
        file written and the list refreshed, and the code box is emptied;
        otherwise nothing changes. */
    method DeleteMacro(confirmed: bool)
      requires Valid()
      modifies this, folder
      ensures !(0 <= old(macroIndex) && confirmed) ==> SameMacros() && folder.macros == old(folder.macros)
      ensures 0 <= old(macroIndex) && confirmed ==>
        macroPresets == RemoveAt(old(macroPresets), old(macroIndex))
        && folder.macros == Parsed(Some(macroPresets))
        && macroIndex == RefreshedIndex(macroPresets) && macroCode == ""
      ensures folder.prompts == old(folder.prompts) && folder.settings == old(folder.settings)
      ensures SameCapture() && SameInputs() && SamePrompts()
      ensures settings == old(settings) && status == old(status)
      ensures Valid()
    {
      if macroIndex < 0 || !confirmed {
        return;
      }
      macroPresets := RemoveAt(macroPresets, macroIndex);
      folder.macros := Parsed(Some(macroPresets));
      RefreshMacros();
      macroCode := "";
    }

    /** `BtnRunMacro_Click`: the code box is run as it is, in a temporary
        module that is removed whether the macro succeeds or throws; the code
        box is not changed and nothing offers a repair. */
    method RunMacro(app: Application, host: MacroHost) returns (outcome: MacroOutcome)
      requires Valid()
      modifies app
      ensures LegacyOutcome(macroCode, host, outcome)
      ensures app.flags == old(app.flags) && app.components == old(app.components)
      ensures (outcome.Ran? || outcome.RunFailed?) && host.accessTrusted ==>
        RanInTempModule(app.runs, old(app.runs), outcome.name, old(app.flags), old(app.components))
      ensures !((outcome.Ran? || outcome.RunFailed?) && host.accessTrusted) ==> app.runs == old(app.runs)
    {
      outcome := LegacyRunMacro(app, host, macroCode);
    }

    /** The run inputs the pane holds: the prompt box, the context box and the
        attached paths. */
    function Inputs(fs: Files): (r: RunInputs)
      reads this
      ensures r.prompt == promptText && r.manual == contextText && r.paths == Paths(attachments) && r.fs == fs
    {
      RunInputs(promptText, contextText, Paths(attachments), fs)
    }

    /** `BtnRun_Click` in data-operation mode: an OpenAI configuration without
        a key refuses the run and changes nothing; otherwise `RunDataMode` runs
        with the pane's inputs. The generated macro is run but not shown in the
        code box, and the status line ends as "Ready". */
    method RunDataOperation(sheet: Worksheet, app: Application, host: MacroHost, selection: Option<Range>,
                            fs: Files, reply: Result<string>)
      returns (refused: bool, sentText: Option<string>)
      requires Valid()
      modifies this, app
      ensures refused <==> ProviderConfig.MissingApiKey(ProviderConfig.LegacyGetConfig(settings, "Op").value)
      ensures refused ==>
        sentText.None? && status == old(status)
        && app.flags == old(app.flags) && app.components == old(app.components) && app.runs == old(app.runs)
      ensures !refused ==> DataRunDone(sheet, app, host, selection, fs, reply, sentText)
      ensures SameCapture() && SameInputs() && SamePrompts() && SameMacros() && settings == old(settings)
      ensures Valid()
    {
      LegacyKindsResolve(settings);
      var config := ProviderConfig.LegacyGetConfig(settings, "Op").value;
      if ProviderConfig.MissingApiKey(config) {
        return true, None;
      }
      refused := false;
      sentText := DataRun(sheet, app, host, selection, fs, reply);
    }

    /** `RunDataMode` on the pane: the selection's CSV, the context box and the
        attached text files are sent with the prompt box, and a generated
        macro is run; the code box is left alone. */
    method DataRun(sheet: Worksheet, app: Application, host: MacroHost, selection: Option<Range>,
                   fs: Files, reply: Result<string>)
      returns (sentText: Option<string>)
      requires Valid()
      modifies this, app
      ensures DataRunDone(sheet, app, host, selection, fs, reply, sentText)
      ensures SameCapture() && SameInputs() && SamePrompts() && SameMacros() && settings == old(settings)
      ensures Valid()
    {
      status := "Ready";
      var code;
      sentText, code := DataOperation(sheet, app, host, selection, Inputs(fs), reply);
    }

    /** What a data-operation run that was not refused leaves: the text sent
        (none without a selection), the generated macro run in the runner
        module, and "Ready" on the status line. */
    twostate predicate DataRunDone(sheet: Worksheet, app: Application, host: MacroHost, selection: Option<Range>,
                                   fs: Files, reply: Result<string>, new sentText: Option<string>)
      reads this, sheet, app
    {
      sentText == DataOpMessage(sheet.cells, selection, Inputs(fs))
      && status == "Ready"
      && app.flags == old(app.flags)
      && (selection.Some? && reply.Ok? && host.accessTrusted ==>
            app.components == old(app.components) + {TempRunner}
            && app.runs == old(app.runs)
                           + [MacroCall(GeneratedEntry, old(app.flags), old(app.components) + {TempRunner})])
      && (!(selection.Some? && reply.Ok? && host.accessTrusted) ==>
            app.components == old(app.components) && app.runs == old(app.runs))
    }

    /** `BtnRun_Click` in write mode: an OpenAI configuration without a key,
        and then a missing capture (address or picture), refuse the run;
        otherwise the write run goes on the header slot and the sheet with the
        captured range and picture and the pane's inputs, and its status is
        what the status line shows. */
    method RunWriteMode(sheet: Worksheet, detection: Result<Option<HeaderInfo>>, fs: Files,
                        reply: Result<string>, parse: string -> Result<Json>)
      returns (refusal: Option<Refusal>, sent: Option<seq<Part>>)
      requires Valid()
      modifies this, header, sheet
      ensures ProviderConfig.MissingApiKey(ProviderConfig.LegacyGetConfig(settings, "Write").value) ==>
        refusal == Some(NeedsApiKey)
      ensures !ProviderConfig.MissingApiKey(ProviderConfig.LegacyGetConfig(settings, "Write").value)
              && (captured.None? || IsNullOrEmpty(capturedImage)) ==>
        refusal == Some(NeedsCapture)
      ensures refusal.Some? ==>
        sent.None? && status == old(status) && sheet.cells == old(sheet.cells)
        && header.info == old(header.info) && header.columnKey == old(header.columnKey)
      ensures refusal.None? ==>
        captured.Some? && captured.value.Valid()
        && WriteEnd(status, sent, sheet.cells, header.info, header.columnKey)
           == WriteRun(OlderPane, old(header.info), old(header.columnKey), old(sheet.cells), captured.value,
                       capturedImage, detection, old(Inputs(fs)), false, reply, parse)
      ensures SameCapture() && SameInputs() && SamePrompts() && SameMacros() && settings == old(settings)
      ensures Valid()
    {
      LegacyKindsResolve(settings);
      var config := ProviderConfig.LegacyGetConfig(settings, "Write").value;
      if ProviderConfig.MissingApiKey(config) {
        return Some(NeedsApiKey), None;
      }
      if captured.None? || IsNullOrEmpty(capturedImage) {
        return Some(NeedsCapture), None;
      }
      refusal := None;
      var inputs := Inputs(fs);
      var st;
      st, sent := WpfCommon.RunWrite(OlderPane, header, sheet, captured.value, capturedImage, detection,
                                     inputs, false, reply, parse);
      status := st;
    }
  }
}
