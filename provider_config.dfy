/** Which model endpoint a task uses: the simple/advanced configuration
    resolution of the two WPF panes, the credential gate in front of every run,
    and the provider-to-URL presets of the settings window. */
module ProviderConfig {
  import opened Wrappers
  import opened Strings
  import opened Models

  const OpenAI: string := "OpenAI"
  const Ollama: string := "Ollama"
  const LMStudio: string := "LM Studio"

  const OpenAIUrl: string := "https://api.openai.com/v1"
  const OllamaUrl: string := "http://localhost:11434/v1"
  const LMStudioUrl: string := "http://localhost:1234/v1"

  /** `Model?.Contains("gpt") == true ? "OpenAI" : "Ollama"`: a case-sensitive
      substring test; a null model is not a GPT model. */
  function GuessProvider(model: Option<string>): (p: string)
    ensures p == OpenAI <==> (model.Some? && Contains(model.value, "gpt"))
    ensures p == OpenAI || p == Ollama
  {
    if model.Some? && Contains(model.value, "gpt") then OpenAI else Ollama
  }

  /** The role a task kind string selects in advanced mode; any other string
      selects none. */
  function RoleOf(kind: string): (r: Option<Role>)
    ensures r.Some? <==> kind in {"Header", "Write", "Op", "Vba"}
  {
    if kind == "Header" then Some(HeaderDetection)
    else if kind == "Write" then Some(DataWrite)
    else if kind == "Op" then Some(DataOp)
    else if kind == "Vba" then Some(VBASelfHealing)
    else None
  }

  /** The shared simple-mode configuration with the given provider. */
  function SharedConfig(s: AppSettings, provider: string): LLMConfig {
    LLMConfig(Some(provider), s.ApiUrl, s.ApiKey, s.Model)
  }

  /** `GetConfig(type)` of the newer pane. In simple mode every kind gets the same
      URL, key and model, and the stored provider when it is non-empty, otherwise
      the model-name guess. In advanced mode a known kind gets its role's own
      configuration and an unknown kind gets null. */
  function GetConfig(s: AppSettings, kind: string): (c: Option<LLMConfig>)
    ensures !s.IsAdvancedMode ==>
      c.Some? && c.value.ApiUrl == s.ApiUrl && c.value.ApiKey == s.ApiKey && c.value.Model == s.Model
    ensures !s.IsAdvancedMode && !IsNullOrEmpty(s.Provider) ==> c.Some? && c.value.Provider == s.Provider
    ensures !s.IsAdvancedMode && IsNullOrEmpty(s.Provider) ==>
      c.Some? && c.value.Provider == Some(GuessProvider(s.Model))
    ensures s.IsAdvancedMode ==> (c.Some? <==> RoleOf(kind).Some?)
    ensures s.IsAdvancedMode && c.Some? ==> c.value == s.RoleConfig(RoleOf(kind).value)
  {
    if !s.IsAdvancedMode then
      Some(SharedConfig(s, if !IsNullOrEmpty(s.Provider) then s.Provider.value else GuessProvider(s.Model)))
    else
      match RoleOf(kind)
      case Some(role) => Some(s.RoleConfig(role))
      case None => None
  }

  /** `GetConfig(type)` of the older pane: the same, except that the simple-mode
      provider always comes from the model-name guess, whatever is stored. */
  function LegacyGetConfig(s: AppSettings, kind: string): (c: Option<LLMConfig>)
    ensures !s.IsAdvancedMode ==> c == Some(SharedConfig(s, GuessProvider(s.Model)))
    ensures s.IsAdvancedMode ==> (c.Some? <==> RoleOf(kind).Some?)
    ensures s.IsAdvancedMode && c.Some? ==> c.value == s.RoleConfig(RoleOf(kind).value)
  {
    if !s.IsAdvancedMode then Some(SharedConfig(s, GuessProvider(s.Model)))
    else
      match RoleOf(kind)
      case Some(role) => Some(s.RoleConfig(role))
      case None => None
  }

  /** In simple mode all task kinds resolve to one and the same configuration. */
  lemma SimpleModeShared(s: AppSettings, k1: string, k2: string)
    requires !s.IsAdvancedMode
    ensures GetConfig(s, k1) == GetConfig(s, k2)
    ensures LegacyGetConfig(s, k1) == LegacyGetConfig(s, k2)
  {
  }

  /** The two variants agree except on a stored simple-mode provider. */
  lemma VariantsAgree(s: AppSettings, kind: string)
    requires s.IsAdvancedMode || IsNullOrEmpty(s.Provider)
    ensures GetConfig(s, kind) == LegacyGetConfig(s, kind)
  {
  }

  /** The older variant ignores the stored provider: a settings value that differs
      only in `Provider` resolves the same. */
  lemma LegacyIgnoresStoredProvider(s: AppSettings, p: Option<string>, kind: string)
    ensures LegacyGetConfig(s.(Provider := p), kind) == LegacyGetConfig(s, kind)
  {
  }

  /** The credential check in front of a run: refused only when the key is empty
      and the provider is exactly "OpenAI"; every other provider runs with an
      empty key. */
  predicate MissingApiKey(c: LLMConfig) {
    IsNullOrEmpty(c.ApiKey) && c.Provider == Some(OpenAI)
  }

  /** With the shared configuration, a local model runs without any key. */
  lemma LocalModelNeedsNoKey(s: AppSettings, kind: string)
    requires !s.IsAdvancedMode && (s.Model.None? || !Contains(s.Model.value, "gpt"))
    ensures LegacyGetConfig(s, kind).Some? && !MissingApiKey(LegacyGetConfig(s, kind).value)
  {
  }

  /** The URL preset of a provider name, if it has one. */
  function ProviderUrl(provider: string): (u: Option<string>)
    ensures u.Some? <==> provider in {Ollama, LMStudio, OpenAI}
  {
    if provider == Ollama then Some(OllamaUrl)
    else if provider == LMStudio then Some(LMStudioUrl)
    else if provider == OpenAI then Some(OpenAIUrl)
    else None
  }

  /** The simple-mode provider box: a known provider replaces the URL with its
      preset; any other provider leaves the URL as it was. */
  function SimpleProviderUrl(provider: string, currentUrl: string): (u: string)
    ensures ProviderUrl(provider).Some? ==> u == ProviderUrl(provider).value
    ensures ProviderUrl(provider).None? ==> u == currentUrl
  {
    match ProviderUrl(provider)
    case Some(preset) => preset
    case None => currentUrl
  }

  /** An advanced-mode provider box: a known provider gives its preset and any
      other provider gives the empty URL. */
  function AdvancedProviderUrl(provider: string): (u: string)
    ensures ProviderUrl(provider).Some? ==> u == ProviderUrl(provider).value
    ensures ProviderUrl(provider).None? ==> u == ""
  {
    ProviderUrl(provider).GetOr("")
  }

  /** Every preset URL is distinct, so a URL tells which preset set it. */
  lemma PresetUrlsDistinct(p: string, q: string)
    requires ProviderUrl(p).Some? && ProviderUrl(p) == ProviderUrl(q)
    ensures p == q
  {
  }

  /** The settings the panes fall back on when none could be loaded: the OpenAI
      URL and the "gpt-4o" model, everything else as `new AppSettings()`. */
  function FallbackSettings(): (s: AppSettings)
    ensures !s.IsAdvancedMode && s.ApiUrl == Some(OpenAIUrl) && s.Model == Some("gpt-4o")
    ensures s.ApiKey.None? && s.Provider.None?
    ensures forall role :: s.RoleConfig(role) == NewLLMConfig()
  {
    NewAppSettings().(ApiUrl := Some(OpenAIUrl), Model := Some("gpt-4o"))
  }

  /** The fallback resolves to OpenAI with no key, so a first run is refused until
      a key is entered. */
  lemma FallbackNeedsKey(kind: string)
    ensures GetConfig(FallbackSettings(), kind).Some?
    ensures MissingApiKey(GetConfig(FallbackSettings(), kind).value)
    ensures MissingApiKey(LegacyGetConfig(FallbackSettings(), kind).value)
  {
    assert "gpt" <= "gpt-4o";
  }
}
