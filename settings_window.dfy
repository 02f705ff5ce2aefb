/** The settings window (`ExcelSP2/ExcelSP2/SettingsWindow.xaml.cs`): it loads
    the three files of the data folder, lists the saved prompts and macros and
    the workbook's own macros, edits them, fills its provider boxes and text
    boxes from the settings, and writes the settings back on OK. The provider
    boxes' item lists come from the window's markup, which is not part of this
    model: they are the parameter `providerItems`, shared by all five boxes. */
module SettingsEditor {
  import opened Wrappers
  import opened Strings
  import opened Models
  import opened ScriptText
  import ProviderConfig
  import opened Lists
  import opened WpfCommon

  // ---------------------------------------------------------------------------
  // Loading
  // ---------------------------------------------------------------------------

  /** A preset list as `LoadData` reads it: a missing or unreadable file, or
      one holding `null`, gives the empty list. */
  function LoadedList<T>(stored: Stored<seq<T>>): (r: seq<T>)
    ensures stored.Parsed? && stored.value.Some? ==> r == stored.value.value
    ensures !(stored.Parsed? && stored.value.Some?) ==> r == []
  {
    if stored.Parsed? && stored.value.Some? then stored.value.value else []
  }

  /** The settings as `LoadData` reads them: a missing or unreadable file, or
      one holding `null`, gives `new AppSettings()`. The window's settings type
      has no simple-mode provider, so a stored one is not read. */
  function LoadedWindowSettings(stored: Stored<AppSettings>): (r: AppSettings)
    ensures r.Provider.None?
    ensures stored.Parsed? && stored.value.Some? ==> r == stored.value.value.(Provider := None)
    ensures !(stored.Parsed? && stored.value.Some?) ==> r == NewAppSettings()
  {
    if stored.Parsed? && stored.value.Some? then stored.value.value.(Provider := None) else NewAppSettings()
  }

  /** The entry shown instead of the workbook's macros when its VBA project
      cannot be accessed. */
  const TrustHint: MacroPreset := MacroPreset("Enable 'Trust access to VBA' to see macros", "")

  /** `LoadInFileMacros`: nothing without a workbook, the hint alone when the
      project cannot be accessed, and otherwise one entry per `Sub <name>`
      declaration of each component, titled by the name and holding the
      component's whole code. */
  function InFileMacros(project: VbaProject): (r: seq<MacroPreset>)
    ensures project.NoWorkbook? ==> r == []
    ensures project.Untrusted? ==> r == [TrustHint]
    ensures project.Modules? ==> forall e :: e in r ==> e.Code in project.codes && e.Code != ""
  {
    match project
    case NoWorkbook => []
    case Untrusted => [TrustHint]
    case Modules(codes) => ModuleEntries(codes, "")
  }

  /** Every declared macro of an accessible project is listed under its own
      name. */
  lemma InFileMacrosComplete(codes: seq<string>, k: nat, name: string)
    requires k < |codes| && codes[k] != "" && name in DeclaredNames(codes[k])
    ensures MacroPreset(name, codes[k]) in InFileMacros(Modules(codes))
  {
    ModuleEntryListed(codes, "", k, name);
    assert name + "" == name;
  }

  /** `LoadInFileMacros` over the components of an accessible project, one
      component at a time. */
  method ScanModules(codes: seq<string>) returns (r: seq<MacroPreset>)
    ensures r == InFileMacros(Modules(codes))
  {
    r := [];
    for i := 0 to |codes|
      invariant r == ModuleEntries(codes[..i], "")
    {
      assert codes[..i + 1][..i] == codes[..i];
      r := r + Entries(codes[i], "");
    }
    assert codes[..|codes|] == codes;
  }

  // ---------------------------------------------------------------------------
  // Provider boxes
  // ---------------------------------------------------------------------------

  /** The index of the first item equal to `value`, if any. */
  function FirstMatch(items: seq<string>, value: string): (k: Option<nat>)
    ensures k.Some? ==> k.value < |items| && items[k.value] == value
    ensures k.Some? ==> forall j :: 0 <= j < k.value ==> items[j] != value
    ensures k.None? ==> value !in items
    decreases |items|
  {
    if items == [] then None
    else if items[0] == value then Some(0)
    else match FirstMatch(items[1..], value)
      case None => None
      case Some(j) => Some(j + 1)
  }

  /** The selection `SetComboValue` leaves: an empty value or one no item
      carries leaves the selection; otherwise the first item carrying the
      value is selected. */
  function ComboAfterSet(items: seq<string>, selected: int, value: Option<string>): (r: int)
    ensures IsNullOrEmpty(value) || value.value !in items ==> r == selected
    ensures !IsNullOrEmpty(value) && value.value in items ==>
      0 <= r < |items| && items[r] == value.value && forall j :: 0 <= j < r ==> items[j] != value.value
  {
    if IsNullOrEmpty(value) then selected
    else match FirstMatch(items, value.value)
      case None => selected
      case Some(k) => k
  }

  /** `SetComboValue`: the items are searched in order for the value. */
  method SetComboValue(items: seq<string>, selected: int, value: Option<string>) returns (r: int)
    ensures r == ComboAfterSet(items, selected, value)
  {
    r := selected;
    if IsNullOrEmpty(value) {
      return;
    }
    var i := 0;
    while i < |items|
      invariant 0 <= i <= |items|
      invariant forall j :: 0 <= j < i ==> items[j] != value.value
    {
      if items[i] == value.value {
        r := i;
        ghost var k := FirstMatch(items, value.value);
        assert k.Some? && k.value == i;
        return;
      }
      i := i + 1;
    }
  }

  /** The four controls of one endpoint: the provider box's selection (-1 for
      none) and the URL, key and model text boxes. A text box never holds
      `null`: setting it to `null` leaves it empty. */
  datatype ProviderBox = ProviderBox(selected: int, url: string, key: string, model: string)

  /** The controls after `LoadData` fills them from a configuration, starting
      with no provider selected: the provider box is set to the provider, and
      the text boxes take the URL, key and model. */
  function LoadedBox(items: seq<string>, c: LLMConfig): (b: ProviderBox)
    ensures b.selected == ComboAfterSet(items, -1, c.Provider)
    ensures Some(b.url) == (if c.ApiUrl.Some? then c.ApiUrl else Some(""))
    ensures Some(b.key) == (if c.ApiKey.Some? then c.ApiKey else Some(""))
    ensures Some(b.model) == (if c.Model.Some? then c.Model else Some(""))
  {
    ProviderBox(ComboAfterSet(items, -1, c.Provider), c.ApiUrl.GetOr(""), c.ApiKey.GetOr(""), c.Model.GetOr(""))
  }

  /** The configuration `BtnOk_Click` builds from one endpoint's controls:
      the selected item's text (null with none selected) and the three text
      boxes. */
  function SavedConfig(items: seq<string>, b: ProviderBox): (c: LLMConfig)
    ensures c.Provider.Some? <==> 0 <= b.selected < |items|
    ensures c.Provider.Some? ==> c.Provider.value == items[b.selected]
    ensures c.ApiUrl == Some(b.url) && c.ApiKey == Some(b.key) && c.Model == Some(b.model)
  {
    LLMConfig(if 0 <= b.selected < |items| then Some(items[b.selected]) else None,
              Some(b.url), Some(b.key), Some(b.model))
  }

  /** Loading a configuration into its controls and saving them gives it back
      when its provider is absent or one of the items and none of its strings
      is null. */
  lemma ConfigRoundTrip(items: seq<string>, c: LLMConfig)
    requires c.Provider.None? || (c.Provider.value != "" && c.Provider.value in items)
    requires c.ApiUrl.Some? && c.ApiKey.Some? && c.Model.Some?
    ensures SavedConfig(items, LoadedBox(items, c)) == c
  {
    var b := LoadedBox(items, c);
    if c.Provider.Some? {
      assert 0 <= b.selected < |items| && items[b.selected] == c.Provider.value;
    }
  }

  /** A provider no item carries is lost on the way through the window, and a
      null string comes back empty. */
  lemma UnlistedProviderLost(items: seq<string>, c: LLMConfig)
    requires c.Provider.Some? && c.Provider.value !in items
    ensures SavedConfig(items, LoadedBox(items, c)).Provider.None?
    ensures c.ApiUrl.None? ==> SavedConfig(items, LoadedBox(items, c)).ApiUrl == Some("")
  {
  }

  /** The settings `BtnOk_Click` writes: the mode is the advanced radio
      button's state, the shared strings come from the simple-mode text boxes,
      each role's configuration from that role's own controls, and the rest is
      what was loaded. The simple-mode provider box is not saved. */
  function SettingsFromControls(items: seq<string>, base: AppSettings, advanced: bool, simple: ProviderBox,
                                boxes: map<Role, ProviderBox>): (s: AppSettings)
    requires forall r: Role :: r in boxes
    ensures s.IsAdvancedMode == advanced && s.Provider == base.Provider
    ensures s.ApiUrl == Some(simple.url) && s.ApiKey == Some(simple.key) && s.Model == Some(simple.model)
    ensures forall r: Role :: s.RoleConfig(r) == SavedConfig(items, boxes[r])
  {
    base.(IsAdvancedMode := advanced, ApiUrl := Some(simple.url), ApiKey := Some(simple.key),
          Model := Some(simple.model),
          HeaderDetectionLLM := SavedConfig(items, boxes[HeaderDetection]),
          DataWriteLLM := SavedConfig(items, boxes[DataWrite]),
          DataOpLLM := SavedConfig(items, boxes[DataOp]),
          VBASelfHealingLLM := SavedConfig(items, boxes[VBASelfHealing]))
  }

  /** The four roles, each with its own controls. */
  const AllRoles: set<Role> := {HeaderDetection, DataWrite, DataOp, VBASelfHealing}

  lemma EveryRoleListed()
    ensures forall r: Role :: r in AllRoles
  {
    forall r: Role
      ensures r in AllRoles
    {
      match r
      case HeaderDetection =>
      case DataWrite =>
      case DataOp =>
      case VBASelfHealing =>
    }
  }

  /** The four role boxes as `LoadData` fills them. */
  function LoadedBoxes(items: seq<string>, s: AppSettings): (m: map<Role, ProviderBox>)
    ensures forall r: Role :: r in m && m[r] == LoadedBox(items, s.RoleConfig(r))
  {
    EveryRoleListed();
    map r | r in AllRoles :: LoadedBox(items, s.RoleConfig(r))
  }

  /** Settings with no null string and with every role provider absent or
      listed. */
  predicate Representable(items: seq<string>, s: AppSettings) {
    s.ApiUrl.Some? && s.ApiKey.Some? && s.Model.Some?
    && forall r: Role ::
         (s.RoleConfig(r).Provider.None?
          || (s.RoleConfig(r).Provider.value != "" && s.RoleConfig(r).Provider.value in items))
         && s.RoleConfig(r).ApiUrl.Some? && s.RoleConfig(r).ApiKey.Some? && s.RoleConfig(r).Model.Some?
  }

  /** Opening the window and pressing OK without an edit writes back the
      settings it read, apart from the simple-mode provider it cannot hold. */
  lemma OkAfterLoadKeepsSettings(items: seq<string>, s: AppSettings)
    requires Representable(items, s)
    ensures var loaded := s.(Provider := None);
      SettingsFromControls(items, loaded, loaded.IsAdvancedMode,
                           LoadedBox(items, ProviderConfig.SharedConfig(loaded, ProviderConfig.GuessProvider(loaded.Model))),
                           LoadedBoxes(items, loaded))
      == loaded
  {
    var loaded := s.(Provider := None);
    var boxes := LoadedBoxes(items, loaded);
    var out := SettingsFromControls(items, loaded, loaded.IsAdvancedMode,
                 LoadedBox(items, ProviderConfig.SharedConfig(loaded, ProviderConfig.GuessProvider(loaded.Model))),
                 boxes);
    forall r: Role
      ensures out.RoleConfig(r) == loaded.RoleConfig(r)
    {
      assert loaded.RoleConfig(r) == s.RoleConfig(r);
      ConfigRoundTrip(items, loaded.RoleConfig(r));
    }
    assert out.HeaderDetectionLLM == out.RoleConfig(HeaderDetection);
    assert out.DataWriteLLM == out.RoleConfig(DataWrite);
    assert out.DataOpLLM == out.RoleConfig(DataOp);
    assert out.VBASelfHealingLLM == out.RoleConfig(VBASelfHealing);
  }

  /** The entries the add buttons append. */
  const NewPrompt: PromptPreset := PromptPreset("New Prompt", "")
  const NewMacro: MacroPreset := MacroPreset("New Macro", "Sub NewMacro()\n\nEnd Sub")

  // ---------------------------------------------------------------------------
  // The window
  // ---------------------------------------------------------------------------

  class SettingsWindow {
    const folder: DataFolder
    /** The items of every provider box. */
    const providerItems: seq<string>
    var prompts: seq<PromptPreset>
    var macros: seq<MacroPreset>
    var inFileMacros: seq<MacroPreset>
    var settings: AppSettings
    /** The prompt list's selection and the prompt title and content boxes. */
    var promptIndex: int
    var promptTitle: string
    var promptContent: string
    /** The selections of the saved and the workbook macro lists, and the
        macro title and code boxes. */
    var macroIndex: int
    var inFileIndex: int
    var macroTitle: string
    var macroCode: string
    /** The advanced radio button, the simple-mode controls and each role's
        controls. */
    var advanced: bool
    var simple: ProviderBox
    var boxes: map<Role, ProviderBox>

    /** Every selection is in range, at most one macro list has a selection,
        and every role has its controls. */
    predicate Valid()
      reads this
    {
      -1 <= promptIndex < |prompts| && -1 <= macroIndex < |macros| && -1 <= inFileIndex < |inFileMacros|
      && (macroIndex == -1 || inFileIndex == -1)
      && forall r: Role :: r in boxes
    }

    twostate predicate SamePrompts()
      reads this
    {
      prompts == old(prompts) && promptIndex == old(promptIndex)
      && promptTitle == old(promptTitle) && promptContent == old(promptContent)
    }

    twostate predicate SameMacros()
      reads this
    {
      macros == old(macros) && inFileMacros == old(inFileMacros) && macroIndex == old(macroIndex)
      && inFileIndex == old(inFileIndex) && macroTitle == old(macroTitle) && macroCode == old(macroCode)
    }

    twostate predicate SameConnection()
      reads this
    {
      settings == old(settings) && advanced == old(advanced) && simple == old(simple) && boxes == old(boxes)
    }

    /** The constructor and `LoadData`: the lists are read (nothing selected),
        the workbook's macros are listed, the settings are read, and every
        control is filled from them; the simple-mode provider box shows the
        guess from the model name. The files are not written. */
    constructor (folder: DataFolder, providerItems: seq<string>, project: VbaProject)
      ensures this.folder == folder && this.providerItems == providerItems
      ensures prompts == LoadedList(folder.prompts) && macros == LoadedList(folder.macros)
      ensures inFileMacros == InFileMacros(project)
      ensures settings == LoadedWindowSettings(folder.settings)
      ensures promptIndex == -1 && macroIndex == -1 && inFileIndex == -1
      ensures advanced == settings.IsAdvancedMode
      ensures simple == LoadedBox(providerItems,
                                  ProviderConfig.SharedConfig(settings, ProviderConfig.GuessProvider(settings.Model)))
      ensures boxes == LoadedBoxes(providerItems, settings)
      ensures Valid()
    {
      this.folder := folder;
      this.providerItems := providerItems;
      prompts := LoadedList(folder.prompts);
      macros := LoadedList(folder.macros);
      var listed := [];
      match project {
        case NoWorkbook =>
        case Untrusted => listed := [TrustHint];
        case Modules(codes) => listed := ScanModules(codes);
      }
      inFileMacros := listed;
      var s := LoadedWindowSettings(folder.settings);
      settings := s;
      promptIndex := -1;
      promptTitle := "";
      promptContent := "";
      macroIndex := -1;
      inFileIndex := -1;
      macroTitle := "";
      macroCode := "";
      advanced := s.IsAdvancedMode;
      var simpleSel := SetComboValue(providerItems, -1, Some(ProviderConfig.GuessProvider(s.Model)));
      simple := ProviderBox(simpleSel, s.ApiUrl.GetOr(""), s.ApiKey.GetOr(""), s.Model.GetOr(""));
      var h := SetComboValue(providerItems, -1, s.HeaderDetectionLLM.Provider);
      var w := SetComboValue(providerItems, -1, s.DataWriteLLM.Provider);
      var o := SetComboValue(providerItems, -1, s.DataOpLLM.Provider);
      var v := SetComboValue(providerItems, -1, s.VBASelfHealingLLM.Provider);
      boxes := map[
        HeaderDetection := ProviderBox(h, s.HeaderDetectionLLM.ApiUrl.GetOr(""),
                                       s.HeaderDetectionLLM.ApiKey.GetOr(""), s.HeaderDetectionLLM.Model.GetOr("")),
        DataWrite := ProviderBox(w, s.DataWriteLLM.ApiUrl.GetOr(""),
                                 s.DataWriteLLM.ApiKey.GetOr(""), s.DataWriteLLM.Model.GetOr("")),
        DataOp := ProviderBox(o, s.DataOpLLM.ApiUrl.GetOr(""), s.DataOpLLM.ApiKey.GetOr(""), s.DataOpLLM.Model.GetOr("")),
        VBASelfHealing := ProviderBox(v, s.VBASelfHealingLLM.ApiUrl.GetOr(""),
                                      s.VBASelfHealingLLM.ApiKey.GetOr(""), s.VBASelfHealingLLM.Model.GetOr(""))];
    }

    /** `LstPrompts_SelectionChanged`: the selected prompt fills the title and
        content boxes. */
    method SelectPrompt(index: int)
      requires Valid() && 0 <= index < |prompts|
      modifies this
      ensures prompts == old(prompts) && promptIndex == index
      ensures promptTitle == prompts[index].Title && promptContent == prompts[index].Content
      ensures SameMacros() && SameConnection()
      ensures Valid()
    {
      promptIndex := index;
      promptTitle := prompts[index].Title;
      promptContent := prompts[index].Content;
    }

    /** Typing into the prompt title and content boxes. */
    method EditPrompt(title: string, content: string)
      requires Valid()
      modifies this
      ensures prompts == old(prompts) && promptIndex == old(promptIndex)
      ensures promptTitle == title && promptContent == content
      ensures SameMacros() && SameConnection()
      ensures Valid()
    {
      promptTitle := title;
      promptContent := content;
    }

    /** `BtnAddPrompt_Click`: a "New Prompt" entry with no content is appended
        and selected. The file is not written. */
    method AddPrompt()
      requires Valid()
      modifies this
      ensures prompts == old(prompts) + [NewPrompt]
      ensures promptIndex == |prompts| - 1
      ensures promptTitle == NewPrompt.Title && promptContent == NewPrompt.Content
      ensures SameMacros() && SameConnection()
      ensures Valid()
    {
      prompts := prompts + [NewPrompt];
      promptIndex := -1;
      SelectPrompt(|prompts| - 1);
    }

    /** `BtnDeletePrompt_Click`: the selected entry is removed and the list
        shown again with nothing selected; the boxes keep their text and the
        file is not written. Without a selection nothing changes. */
    method DeletePrompt()
      requires Valid()
      modifies this
      ensures old(promptIndex) == -1 ==> SamePrompts()
      ensures old(promptIndex) >= 0 ==>
        prompts == RemoveAt(old(prompts), old(promptIndex)) && promptIndex == -1
      ensures promptTitle == old(promptTitle) && promptContent == old(promptContent)
      ensures SameMacros() && SameConnection()
      ensures Valid()
    {
      if promptIndex >= 0 {
        prompts := RemoveAt(prompts, promptIndex);
        promptIndex := -1;
      }
    }

    /** `BtnSavePrompt_Click`: the selected entry takes the title and content
        boxes, the list is shown again with nothing selected, and the whole
        list is written to the prompts file. Without a selection nothing
        changes. */
    method SavePrompt()
      requires Valid()
      modifies this, folder
      ensures old(promptIndex) == -1 ==> SamePrompts() && folder.prompts == old(folder.prompts)
      ensures old(promptIndex) >= 0 ==>
        prompts == old(prompts)[old(promptIndex) := PromptPreset(promptTitle, promptContent)]
        && promptIndex == -1 && folder.prompts == Parsed(Some(prompts))
      ensures promptTitle == old(promptTitle) && promptContent == old(promptContent)
      ensures folder.macros == old(folder.macros) && folder.settings == old(folder.settings)
      ensures SameMacros() && SameConnection()
      ensures Valid()
    {
      if promptIndex >= 0 {
        prompts := prompts[promptIndex := PromptPreset(promptTitle, promptContent)];
        promptIndex := -1;
        folder.prompts := Parsed(Some(prompts));
      }
    }

    /** `LstMacros_SelectionChanged`: the selected macro fills the title and
        code boxes, and the workbook list loses its selection. */
    method SelectMacro(index: int)
      requires Valid() && 0 <= index < |macros|
      modifies this
      ensures macros == old(macros) && inFileMacros == old(inFileMacros)
      ensures macroIndex == index && inFileIndex == -1
      ensures macroTitle == macros[index].Title && macroCode == macros[index].Code
      ensures SamePrompts() && SameConnection()
      ensures Valid()
    {
      macroIndex := index;
      macroTitle := macros[index].Title;
      macroCode := macros[index].Code;
      inFileIndex := -1;
    }

    /** `LstInFileMacros_SelectionChanged`: the selected workbook macro fills
        the title and code boxes, and the saved list loses its selection, so
        the save and delete buttons have nothing to act on. */
    method SelectInFileMacro(index: int)
      requires Valid() && 0 <= index < |inFileMacros|
      modifies this
      ensures macros == old(macros) && inFileMacros == old(inFileMacros)
      ensures inFileIndex == index && macroIndex == -1
      ensures macroTitle == inFileMacros[index].Title && macroCode == inFileMacros[index].Code
      ensures SamePrompts() && SameConnection()
      ensures Valid()
    {
      inFileIndex := index;
      macroTitle := inFileMacros[index].Title;
      macroCode := inFileMacros[index].Code;
      macroIndex := -1;
    }

    /** Typing into the macro title and code boxes. */
    method EditMacro(title: string, code: string)
      requires Valid()
      modifies this
      ensures macros == old(macros) && inFileMacros == old(inFileMacros)
      ensures macroIndex == old(macroIndex) && inFileIndex == old(inFileIndex)
      ensures macroTitle == title && macroCode == code
      ensures SamePrompts() && SameConnection()
      ensures Valid()
    {
      macroTitle := title;
      macroCode := code;
    }

    /** `BtnAddMacro_Click`: a "New Macro" entry holding an empty `NewMacro`
        is appended and selected. The file is not written. */
    method AddMacro()
      requires Valid()
      modifies this
      ensures macros == old(macros) + [NewMacro] && inFileMacros == old(inFileMacros)
      ensures macroIndex == |macros| - 1 && inFileIndex == -1
      ensures macroTitle == NewMacro.Title && macroCode == NewMacro.Code
      ensures SamePrompts() && SameConnection()
      ensures Valid()
    {
      macros := macros + [NewMacro];
      macroIndex := -1;
      SelectMacro(|macros| - 1);
    }

    /** `BtnDeleteMacro_Click`: the selected saved macro is removed and the
        list shown again with nothing selected; the file is not written.
        Without a selection nothing changes. */
    method DeleteMacro()
      requires Valid()
      modifies this
      ensures old(macroIndex) == -1 ==> SameMacros()
      ensures old(macroIndex) >= 0 ==>
        macros == RemoveAt(old(macros), old(macroIndex)) && macroIndex == -1
      ensures inFileMacros == old(inFileMacros) && inFileIndex == old(inFileIndex)
      ensures macroTitle == old(macroTitle) && macroCode == old(macroCode)
      ensures SamePrompts() && SameConnection()
      ensures Valid()
    {
      if macroIndex >= 0 {
        macros := RemoveAt(macros, macroIndex);
        macroIndex := -1;
      }
    }

    /** `BtnSaveMacro_Click`: the selected saved macro takes the title and
        code boxes, the list is shown again with nothing selected, and the
        whole list is written to the macros file. Without a selection in the
        saved list nothing changes. */
    method SaveMacro()
      requires Valid()
      modifies this, folder
      ensures old(macroIndex) == -1 ==> SameMacros() && folder.macros == old(folder.macros)
      ensures old(macroIndex) >= 0 ==>
        macros == old(macros)[old(macroIndex) := MacroPreset(macroTitle, macroCode)]
        && macroIndex == -1 && folder.macros == Parsed(Some(macros))
      ensures inFileMacros == old(inFileMacros) && inFileIndex == old(inFileIndex)
      ensures macroTitle == old(macroTitle) && macroCode == old(macroCode)
      ensures folder.prompts == old(folder.prompts) && folder.settings == old(folder.settings)
      ensures SamePrompts() && SameConnection()
      ensures Valid()
    {
      if macroIndex >= 0 {
        macros := macros[macroIndex := MacroPreset(macroTitle, macroCode)];
        macroIndex := -1;
        folder.macros := Parsed(Some(macros));
      }
    }

    /** The simple or advanced radio button. */
    method SetMode(isAdvanced: bool)
      requires Valid()
      modifies this
      ensures advanced == isAdvanced
      ensures settings == old(settings) && simple == old(simple) && boxes == old(boxes)
      ensures SamePrompts() && SameMacros()
      ensures Valid()
    {
      advanced := isAdvanced;
    }

    /** `CmbSimpleProvider_SelectionChanged` after picking item `index`: a
        provider with a preset URL fills the URL box; any other leaves it. */
    method PickSimpleProvider(index: int)
      requires Valid() && 0 <= index < |providerItems|
      modifies this
      ensures simple == old(simple).(selected := index,
                                     url := ProviderConfig.SimpleProviderUrl(providerItems[index], old(simple).url))
      ensures settings == old(settings) && advanced == old(advanced) && boxes == old(boxes)
      ensures SamePrompts() && SameMacros()
      ensures Valid()
    {
      simple := simple.(selected := index, url := ProviderConfig.SimpleProviderUrl(providerItems[index], simple.url));
    }

    /** `CmbAdvancedProvider_SelectionChanged` after picking item `index` in
        the box tagged `tag`: the tagged role's URL box gets the provider's
        preset URL, or the empty text for any other provider; no other role's
        controls change. A box with another tag writes no URL. */
    method PickRoleProvider(tag: string, index: int)
      requires Valid() && 0 <= index < |providerItems|
      modifies this
      ensures ProviderConfig.RoleOf(tag).None? ==> boxes == old(boxes)
      ensures ProviderConfig.RoleOf(tag).Some? ==>
        var r := ProviderConfig.RoleOf(tag).value;
        boxes == old(boxes)[r := old(boxes)[r].(selected := index,
                                                url := ProviderConfig.AdvancedProviderUrl(providerItems[index]))]
      ensures settings == old(settings) && advanced == old(advanced) && simple == old(simple)
      ensures SamePrompts() && SameMacros()
      ensures Valid()
    {
      var role := ProviderConfig.RoleOf(tag);
      if role.Some? {
        var r := role.value;
        boxes := boxes[r := boxes[r].(selected := index, url := ProviderConfig.AdvancedProviderUrl(providerItems[index]))];
      }
    }

    /** Typing into the simple-mode URL, key and model boxes. */
    method EditSimple(url: string, key: string, model: string)
      requires Valid()
      modifies this
      ensures simple == old(simple).(url := url, key := key, model := model)
      ensures settings == old(settings) && advanced == old(advanced) && boxes == old(boxes)
      ensures SamePrompts() && SameMacros()
      ensures Valid()
    {
      simple := simple.(url := url, key := key, model := model);
    }

    /** Typing into one role's URL, key and model boxes. */
    method EditRole(r: Role, url: string, key: string, model: string)
      requires Valid()
      modifies this
      ensures boxes == old(boxes)[r := old(boxes)[r].(url := url, key := key, model := model)]
      ensures settings == old(settings) && advanced == old(advanced) && simple == old(simple)
      ensures SamePrompts() && SameMacros()
      ensures Valid()
    {
      boxes := boxes[r := boxes[r].(url := url, key := key, model := model)];
    }

    /** `BtnOk_Click`: the settings are rebuilt from the controls and written
        to the settings file; the prompt and macro files are left as they are.
        Raising `SettingsSaved` then has each pane reload the three files. */
    method Ok()
      requires Valid()
      modifies this, folder
      ensures Valid()
      ensures settings == SettingsFromControls(providerItems, old(settings), advanced, simple, boxes)
      ensures folder.settings == Parsed(Some(settings))
      ensures folder.prompts == old(folder.prompts) && folder.macros == old(folder.macros)
      ensures advanced == old(advanced) && simple == old(simple) && boxes == old(boxes)
      ensures SamePrompts() && SameMacros()
    {
      settings := SettingsFromControls(providerItems, settings, advanced, simple, boxes);
      folder.settings := Parsed(Some(settings));
    }
  }
}
