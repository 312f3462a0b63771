/** The provider and feature settings rules: which providers exist, how the
    default model list of a provider is built, why a provider or a feature
    is disabled, and the labels shown for features and setting fields. */
module VoidSettingsTypes {
  import opened Wrappers

  datatype ProviderName =
    | Anthropic | OpenAI | Deepseek | OpenRouter | OpenAICompatible | Glama | Gemini
    | Groq | XAI | Mistral | LiteLLM | MicrosoftAzure | Ollama | VLLM | LmStudio

  /** The provider's name as the source spells it. */
  function ProviderId(p: ProviderName): string {
    match p
    case Anthropic => "anthropic"
    case OpenAI => "openAI"
    case Deepseek => "deepseek"
    case OpenRouter => "openRouter"
    case OpenAICompatible => "openAICompatible"
    case Glama => "glama"
    case Gemini => "gemini"
    case Groq => "groq"
    case XAI => "xAI"
    case Mistral => "mistral"
    case LiteLLM => "liteLLM"
    case MicrosoftAzure => "microsoftAzure"
    case Ollama => "ollama"
    case VLLM => "vLLM"
    case LmStudio => "lmStudio"
  }

  /** Distinct providers have distinct names. */
  lemma ProviderIdInjective(p: ProviderName, q: ProviderName)
    requires ProviderId(p) == ProviderId(q)
    ensures p == q
  {
  }

  /** `localProviderNames`, which are also the refreshable providers. */
  const LocalProviderNames: seq<ProviderName> := [Ollama, VLLM, LmStudio]

  /** `nonlocalProviderNames`. */
  const NonlocalProviderNames: seq<ProviderName> :=
    [Anthropic, OpenAI, Deepseek, OpenRouter, OpenAICompatible, Glama, Gemini, Groq, XAI, Mistral, LiteLLM, MicrosoftAzure]

  /** Every provider; the source takes them from the keys of the default
      provider settings, and only membership matters here. */
  const AllProviders: seq<ProviderName> := NonlocalProviderNames + LocalProviderNames

  lemma AllProvidersComplete(p: ProviderName)
    ensures p in AllProviders
    ensures p in LocalProviderNames <==> p !in NonlocalProviderNames
  {
  }

  datatype ModelType = Default | Autodetected | Custom

  /** `VoidStatefulModelInfo`. */
  datatype ModelInfo = ModelInfo(modelName: string, modelType: ModelType, isHidden: bool)

  /** The common part of a provider's settings; an undefined
      `_didFillInProviderSettings` reads as `false`. */
  datatype ProviderSettings = ProviderSettings(didFillInProviderSettings: bool, models: seq<ModelInfo>)

  datatype FeatureName = Chat | CtrlK | Autocomplete | Apply

  datatype ModelSelection = ModelSelection(providerName: ProviderName, modelName: string)

  /** The parts of `VoidSettingsState` the rules read. */
  datatype SettingsState = SettingsState(
    settingsOfProvider: ProviderName -> ProviderSettings,
    modelSelectionOfFeature: FeatureName -> Option<ModelSelection>)

  /** The results of `isProviderNameDisabled` and `isFeatureNameDisabled`;
      `NotDisabled` is the source's `false`. */
  datatype DisabledReason =
    | NotDisabled | ProviderNotAutoDetected | NotFilledIn | AddModel | NeedToEnableModel | AddProvider

  /** `modelInfoOfDefaultModelNames`: every name becomes a default model, in
      order, and all of them are hidden when there are ten or more. */
  function ModelInfoOfDefaultModelNames(names: seq<string>): (models: seq<ModelInfo>)
    ensures |models| == |names|
    ensures forall i :: 0 <= i < |names| ==>
      models[i].modelName == names[i] && models[i].modelType == Default && (models[i].isHidden <==> |names| >= 10)
  {
    seq(|names|, i requires 0 <= i < |names| => ModelInfo(names[i], Default, |names| >= 10))
  }

  function ModelNames(models: seq<ModelInfo>): (names: seq<string>)
    ensures |names| == |models|
    ensures forall i :: 0 <= i < |models| ==> names[i] == models[i].modelName
  {
    seq(|models|, i requires 0 <= i < |models| => models[i].modelName)
  }

  /** The default model list keeps the names and their order. */
  lemma DefaultModelNamesRoundTrip(names: seq<string>)
    ensures ModelNames(ModelInfoOfDefaultModelNames(names)) == names
  {
  }

  /** `modelSelectionsEqual`: same model name and same provider. */
  function ModelSelectionsEqual(m1: ModelSelection, m2: ModelSelection): (r: bool)
    ensures r <==> m1 == m2
  {
    m1.modelName == m2.modelName && m1.providerName == m2.providerName
  }

  lemma ModelSelectionsEqualIsEquivalence(a: ModelSelection, b: ModelSelection, c: ModelSelection)
    ensures ModelSelectionsEqual(a, a)
    ensures ModelSelectionsEqual(a, b) == ModelSelectionsEqual(b, a)
    ensures ModelSelectionsEqual(a, b) && ModelSelectionsEqual(b, c) ==> ModelSelectionsEqual(a, c)
  {
  }

  /** The feature's name as the source spells it in `featureNames`. */
  function FeatureId(f: FeatureName): string {
    match f
    case Chat => "Chat"
    case CtrlK => "Ctrl+K"
    case Autocomplete => "Autocomplete"
    case Apply => "Apply"
  }

  /** `displayInfoOfFeatureName`: `Ctrl+K` is shown as `Quick Edit`, the
      other features under their own names. */
  function DisplayInfoOfFeatureName(f: FeatureName): (shown: string)
    ensures f == CtrlK ==> shown == "Quick Edit"
    ensures f != CtrlK ==> shown == FeatureId(f)
  {
    if f == Autocomplete then "Autocomplete"
    else if f == CtrlK then "Quick Edit"
    else if f == Chat then "Chat"
    else "Apply"
  }

  /** No two features share a label. */
  lemma FeatureLabelsDistinct(f: FeatureName, g: FeatureName)
    requires DisplayInfoOfFeatureName(f) == DisplayInfoOfFeatureName(g)
    ensures f == g
  {
  }

  predicate IsRefreshableProviderName(p: ProviderName) {
    p in LocalProviderNames
  }

  /** `isProviderNameDisabled`. */
  function IsProviderNameDisabled(p: ProviderName, s: SettingsState): (r: DisabledReason)
    ensures r == NotDisabled <==> |s.settingsOfProvider(p).models| > 0
    ensures r in {NotDisabled, ProviderNotAutoDetected, NotFilledIn, AddModel}
  {
    var settings := s.settingsOfProvider(p);
    if |settings.models| == 0 then
      if IsRefreshableProviderName(p) then ProviderNotAutoDetected
      else if !settings.didFillInProviderSettings then NotFilledIn
      else AddModel
    else NotDisabled
  }

  /** With no models, the local providers report that nothing was detected;
      the others ask to be filled in, and then to have a model added. */
  lemma ProviderDisabledReasons(p: ProviderName, s: SettingsState)
    requires |s.settingsOfProvider(p).models| == 0
    ensures p in [Ollama, VLLM, LmStudio] ==> IsProviderNameDisabled(p, s) == ProviderNotAutoDetected
    ensures p !in [Ollama, VLLM, LmStudio] && !s.settingsOfProvider(p).didFillInProviderSettings ==>
      IsProviderNameDisabled(p, s) == NotFilledIn
    ensures p !in [Ollama, VLLM, LmStudio] && s.settingsOfProvider(p).didFillInProviderSettings ==>
      IsProviderNameDisabled(p, s) == AddModel
  {
  }

  predicate HasHiddenModel(settings: ProviderSettings) {
    exists m :: m in settings.models && m.isHidden
  }

  /** `isFeatureNameDisabled`. */
  function IsFeatureNameDisabled(f: FeatureName, s: SettingsState): (r: DisabledReason)
  {
    match s.modelSelectionOfFeature(f)
    case Some(selection) => IsProviderNameDisabled(selection.providerName, s)
    case None =>
      if exists p :: p in AllProviders && HasHiddenModel(s.settingsOfProvider(p)) then NeedToEnableModel
      else if exists p :: p in AllProviders && s.settingsOfProvider(p).didFillInProviderSettings then AddModel
      else AddProvider
  }

  /** With a model selected, the feature is disabled exactly as its provider is. */
  lemma FeatureFollowsSelectedProvider(f: FeatureName, s: SettingsState)
    requires s.modelSelectionOfFeature(f).Some?
    ensures IsFeatureNameDisabled(f, s) == IsProviderNameDisabled(s.modelSelectionOfFeature(f).value.providerName, s)
  {
  }

  /** Without a selection the feature is always disabled, for the first of
      these reasons that applies: some provider has a hidden model to turn
      on, some provider is filled in and needs a model, or a provider must
      be added. */
  lemma FeatureWithoutSelection(f: FeatureName, s: SettingsState)
    requires s.modelSelectionOfFeature(f).None?
    ensures (exists p :: HasHiddenModel(s.settingsOfProvider(p))) ==> IsFeatureNameDisabled(f, s) == NeedToEnableModel
    ensures ((forall p :: !HasHiddenModel(s.settingsOfProvider(p))) &&
             (exists p :: s.settingsOfProvider(p).didFillInProviderSettings)) ==>
      IsFeatureNameDisabled(f, s) == AddModel
    ensures ((forall p :: !HasHiddenModel(s.settingsOfProvider(p))) &&
             (forall p :: !s.settingsOfProvider(p).didFillInProviderSettings)) ==>
      IsFeatureNameDisabled(f, s) == AddProvider
  {
    if exists p :: HasHiddenModel(s.settingsOfProvider(p)) {
      var p :| HasHiddenModel(s.settingsOfProvider(p));
      AllProvidersComplete(p);
    }
    if exists p :: s.settingsOfProvider(p).didFillInProviderSettings {
      var p :| s.settingsOfProvider(p).didFillInProviderSettings;
      AllProvidersComplete(p);
    }
  }

  /** A feature is usable exactly when a model is selected for it and that
      model's provider has at least one model. */
  lemma FeatureEnabledIff(f: FeatureName, s: SettingsState)
    ensures IsFeatureNameDisabled(f, s) == NotDisabled <==>
      (s.modelSelectionOfFeature(f).Some? &&
       |s.settingsOfProvider(s.modelSelectionOfFeature(f).value.providerName).models| > 0)
  {
  }

  // ---------------------------------------------------------------------------
  // Setting field labels
  // ---------------------------------------------------------------------------

  datatype SettingName = ApiKey | Endpoint | AzureApiVersion | Project | DidFillInProviderSettings | Models

  /** The label, placeholder and password flag of a setting field; an absent
      flag is `false`. */
  datatype DisplayInfo = DisplayInfo(title: string, placeholder: string, isPasswordField: bool)

  /** The default endpoints of the local providers and the default Azure API
      version, which come from the model capability tables; those tables are
      not part of this model. */
  datatype ProviderDefaults = ProviderDefaults(
    ollamaEndpoint: string, vLLMEndpoint: string, lmStudioEndpoint: string, azureApiVersion: string)

  /** `apiKeyPlaceholders`. */
  function ApiKeyPlaceholder(p: ProviderName): Option<string> {
    match p
    case Anthropic => Some("sk-ant-key...")
    case OpenAI => Some("sk-proj-key...")
    case Deepseek => Some("sk-key...")
    case OpenRouter => Some("sk-or-key...")
    case Gemini => Some("AIzaSy...")
    case Groq => Some("gsk_key...")
    case OpenAICompatible => Some("sk-key...")
    case XAI => Some("xai-key...")
    case Mistral => Some("api-key...")
    case MicrosoftAzure => Some("key-...")
    case _ => None
  }

  /** `endpointInfos`: a title and a placeholder. */
  function EndpointInfo(p: ProviderName, defaults: ProviderDefaults): Option<(string, string)> {
    match p
    case Ollama => Some(("Endpoint", defaults.ollamaEndpoint))
    case VLLM => Some(("Endpoint", defaults.vLLMEndpoint))
    case LmStudio => Some(("Endpoint", defaults.lmStudioEndpoint))
    case OpenAICompatible => Some(("baseURL", "https://my-website.com/v1"))
    case MicrosoftAzure => Some(("baseURL", ""))
    case LiteLLM => Some(("baseURL", "http://localhost:4000"))
    case _ => None
  }

  /** `displayInfoOfSettingName`. */
  function DisplayInfoOfSettingName(p: ProviderName, setting: SettingName, defaults: ProviderDefaults): (d: DisplayInfo)
    ensures d.isPasswordField <==> setting == ApiKey
  {
    match setting
    case ApiKey =>
      var placeholder := ApiKeyPlaceholder(p);
      DisplayInfo("API Key", if placeholder.Some? && |placeholder.value| > 0 then placeholder.value else "", true)
    case Endpoint =>
      var info := EndpointInfo(p, defaults).GetOr(("(never)", "(never)"));
      DisplayInfo(info.0, info.1, false)
    case AzureApiVersion =>
      DisplayInfo("API Version", if p == MicrosoftAzure then defaults.azureApiVersion else "", false)
    case Project =>
      DisplayInfo(if p == MicrosoftAzure then "Resource" else "", if p == MicrosoftAzure then "my-resource" else "", false)
    case DidFillInProviderSettings => DisplayInfo("(never)", "(never)", false)
    case Models => DisplayInfo("(never)", "(never)", false)
  }

  /** The API key field is a password field titled `API Key`; providers
      without a key placeholder (the local ones, Glama and LiteLLM) show an
      empty one. */
  lemma ApiKeyDisplay(p: ProviderName, defaults: ProviderDefaults)
    ensures DisplayInfoOfSettingName(p, ApiKey, defaults).title == "API Key"
    ensures DisplayInfoOfSettingName(p, ApiKey, defaults).isPasswordField
    ensures ApiKeyPlaceholder(p).None? <==> p in [Glama, LiteLLM, Ollama, VLLM, LmStudio]
    ensures ApiKeyPlaceholder(p).None? ==> DisplayInfoOfSettingName(p, ApiKey, defaults).placeholder == ""
    ensures ApiKeyPlaceholder(p).Some? ==> DisplayInfoOfSettingName(p, ApiKey, defaults).placeholder == ApiKeyPlaceholder(p).value
  {
  }

  /** The endpoint field: the local providers show their default endpoint,
      three hosted ones a `baseURL`, and every other provider `(never)`. */
  lemma EndpointDisplay(p: ProviderName, defaults: ProviderDefaults)
    ensures p == Ollama ==> DisplayInfoOfSettingName(p, Endpoint, defaults) == DisplayInfo("Endpoint", defaults.ollamaEndpoint, false)
    ensures p in [OpenAICompatible, MicrosoftAzure, LiteLLM] ==> DisplayInfoOfSettingName(p, Endpoint, defaults).title == "baseURL"
    ensures p !in [Ollama, VLLM, LmStudio, OpenAICompatible, MicrosoftAzure, LiteLLM] ==>
      DisplayInfoOfSettingName(p, Endpoint, defaults) == DisplayInfo("(never)", "(never)", false)
  {
  }
}
