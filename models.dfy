/** The add-in's record types. Every C# `string` property may be `null`, so it
    is an `Option<string>` unless the code only ever stores non-null text in it. */
module Models {
  import opened Wrappers

  /** A named prompt template; titles need not be unique. */
  datatype PromptPreset = PromptPreset(Title: string, Content: string)

  /** The three prompts that `taskpane.js` and the WinForms pane fall back to
      when no prompt list is stored. */
  const DefaultPrompts: seq<PromptPreset> := [
    PromptPreset("General Fill", "Fill the table based on the provided image and files."),
    PromptPreset("Invoice Extraction", "Extract line items from the invoice image/pdf. Columns: Description, Quantity, Unit Price, Total."),
    PromptPreset("Data Cleanup", "Format the data in the image to be consistent and correct any typos.")
  ]

  /** A named VBA macro; titles need not be unique. */
  datatype MacroPreset = MacroPreset(Title: string, Code: string)

  /** Connection settings of one model endpoint. `Provider` is free text: the
      settings window writes "LM Studio" while the comments document "LMStudio". */
  datatype LLMConfig = LLMConfig(
    Provider: Option<string>,
    ApiUrl: Option<string>,
    ApiKey: Option<string>,
    Model: Option<string>)

  /** The four task roles of advanced mode. */
  datatype Role = HeaderDetection | DataWrite | DataOp | VBASelfHealing

  /** The persisted settings. `Provider` is the simple-mode provider that the newer
      pane reads; the older panes never read it. */
  datatype AppSettings = AppSettings(
    ApiUrl: Option<string>,
    ApiKey: Option<string>,
    Model: Option<string>,
    Provider: Option<string>,
    IsAdvancedMode: bool,
    HeaderDetectionLLM: LLMConfig,
    DataWriteLLM: LLMConfig,
    DataOpLLM: LLMConfig,
    VBASelfHealingLLM: LLMConfig)
  {
    /** The stored configuration of one role. */
    function RoleConfig(role: Role): LLMConfig {
      match role
      case HeaderDetection => HeaderDetectionLLM
      case DataWrite => DataWriteLLM
      case DataOp => DataOpLLM
      case VBASelfHealing => VBASelfHealingLLM
    }
  }

  /** The result of header detection. */
  datatype HeaderInfo = HeaderInfo(HeaderContent: Option<string>, HeaderRows: int)

  /** An attached file of the newer and older WPF panes. */
  datatype AttachmentItem = AttachmentItem(FilePath: string, FileName: string)

  /** `new LLMConfig()`: every property is null. */
  function NewLLMConfig(): (c: LLMConfig)
    ensures c.Provider.None? && c.ApiUrl.None? && c.ApiKey.None? && c.Model.None?
  {
    LLMConfig(None, None, None, None)
  }

  /** `new AppSettings()`: the shared strings are null, simple mode is selected and
      each of the four role configurations is a fresh, empty `LLMConfig`. */
  function NewAppSettings(): (s: AppSettings)
    ensures !s.IsAdvancedMode && s.ApiUrl.None? && s.ApiKey.None? && s.Model.None?
    ensures s.Provider.None?
    ensures forall role :: s.RoleConfig(role) == NewLLMConfig()
  {
    var c := NewLLMConfig();
    AppSettings(None, None, None, None, false, c, c, c, c)
  }
}
