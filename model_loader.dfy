/**
 * Choosing the Groq model and checking the API key before the chat client is
 * built. The environment variables and the configuration value are inputs:
 * `None` stands for an unset variable or a configuration lookup that failed.
 */
module ModelLoader {
  import opened Wrappers
  import opened Text

  /** Models that are no longer served and must never be requested. */
  const DECOMMISSIONED: set<string> := {
    "deepseek-r1-distill-llama-70b",
    "deepseek-r1-distill-llama-70b-q4_k_m"
  }

  const GROQ_DEFAULT: string := "llama-3.1-8b-instant"

  const GROQ_ALLOWED_FALLBACKS: set<string> := {
    "llama-3.1-70b-versatile",
    "llama-3.2-90b-text-preview",
    "mixtral-8x7b"
  }

  /** Python truthiness of an optional string: set and not empty. */
  predicate Truthy(o: Option<string>) {
    o.Some? && o.value != ""
  }

  /** `env_model or cfg_model or GROQ_DEFAULT`. */
  function Preferred(envModel: Option<string>, cfgModel: Option<string>): (name: string)
    ensures Truthy(envModel) ==> name == envModel.value
    ensures !Truthy(envModel) && Truthy(cfgModel) ==> name == cfgModel.value
    ensures !Truthy(envModel) && !Truthy(cfgModel) ==> name == GROQ_DEFAULT
  {
    if Truthy(envModel) then envModel.value
    else if Truthy(cfgModel) then cfgModel.value
    else GROQ_DEFAULT
  }

  /**
   * `_resolve_groq_model`: the first truthy of the `GROQ_MODEL` variable, the
   * configured name and the default, stripped; a decommissioned name is
   * replaced by the default.
   */
  function ResolveGroqModel(envModel: Option<string>, cfgModel: Option<string>): (name: string)
    ensures name !in DECOMMISSIONED
    ensures name == GROQ_DEFAULT || name == Strip(Preferred(envModel, cfgModel))
    ensures Strip(Preferred(envModel, cfgModel)) !in DECOMMISSIONED ==> name == Strip(Preferred(envModel, cfgModel))
  {
    var stripped := Strip(Preferred(envModel, cfgModel));
    if stripped in DECOMMISSIONED then GROQ_DEFAULT else stripped
  }

  /** The default is served and carries no padding. */
  lemma DefaultIsClean()
    ensures GROQ_DEFAULT !in DECOMMISSIONED
    ensures Strip(GROQ_DEFAULT) == GROQ_DEFAULT
  {
    StripUnpadded(GROQ_DEFAULT);
  }

  /**
   * A set `GROQ_MODEL` decides alone: the configuration is not consulted, and
   * the result is the stripped variable unless that names a decommissioned
   * model.
   */
  lemma EnvironmentWins(envModel: Option<string>, cfgModel: Option<string>, otherCfg: Option<string>)
    requires Truthy(envModel)
    ensures ResolveGroqModel(envModel, cfgModel) == ResolveGroqModel(envModel, otherCfg)
    ensures Strip(envModel.value) !in DECOMMISSIONED ==> ResolveGroqModel(envModel, cfgModel) == Strip(envModel.value)
    ensures Strip(envModel.value) in DECOMMISSIONED ==> ResolveGroqModel(envModel, cfgModel) == GROQ_DEFAULT
  {
  }

  /**
   * With `GROQ_MODEL` unset or empty, a configured name decides: the variable's
   * absence and its emptiness are alike, and the result is the stripped
   * configured name unless that names a decommissioned model.
   */
  lemma ConfigWinsWhenEnvUnset(envModel: Option<string>, cfgModel: Option<string>)
    requires !Truthy(envModel) && Truthy(cfgModel)
    ensures ResolveGroqModel(envModel, cfgModel) == ResolveGroqModel(None, cfgModel)
    ensures Strip(cfgModel.value) !in DECOMMISSIONED ==> ResolveGroqModel(envModel, cfgModel) == Strip(cfgModel.value)
    ensures Strip(cfgModel.value) in DECOMMISSIONED ==> ResolveGroqModel(envModel, cfgModel) == GROQ_DEFAULT
  {
  }

  /** With neither the variable nor the configuration giving a name, the default is used. */
  lemma DefaultWhenNothingSet(envModel: Option<string>, cfgModel: Option<string>)
    requires !Truthy(envModel) && !Truthy(cfgModel)
    ensures ResolveGroqModel(envModel, cfgModel) == GROQ_DEFAULT
  {
    DefaultIsClean();
  }

  /**
   * Stripping comes before the disallow check: a decommissioned name with
   * whitespace around it still falls back to the default.
   */
  lemma PaddedDecommissionedFallsBack(envModel: Option<string>, cfgModel: Option<string>, d: string, a: nat)
    requires Truthy(envModel) && d in DECOMMISSIONED && PaddedAt(envModel.value, d, a)
    ensures ResolveGroqModel(envModel, cfgModel) == GROQ_DEFAULT
  {
    assert d[0] == 'd' && (d[|d| - 1] == 'b' || d[|d| - 1] == 'm');
    StripIsUniqueCore(envModel.value, d, a);
  }

  /** A `GROQ_MODEL` of whitespace only is truthy, wins, and strips to the empty name. */
  lemma BlankEnvironmentGivesEmptyName(envModel: Option<string>, cfgModel: Option<string>)
    requires Truthy(envModel) && AllSpace(envModel.value)
    ensures ResolveGroqModel(envModel, cfgModel) == ""
  {
  }

  /** The resolved name carries no surrounding whitespace. */
  lemma ResolvedIsStripped(envModel: Option<string>, cfgModel: Option<string>)
    ensures var name := ResolveGroqModel(envModel, cfgModel); Strip(name) == name
  {
    DefaultIsClean();
    StripIdempotent(Preferred(envModel, cfgModel));
  }

  /** Feeding a resolved, non-empty name back in as `GROQ_MODEL` resolves to itself. */
  lemma ResolveIsIdempotent(envModel: Option<string>, cfgModel: Option<string>, otherCfg: Option<string>)
    requires ResolveGroqModel(envModel, cfgModel) != ""
    ensures var name := ResolveGroqModel(envModel, cfgModel);
      ResolveGroqModel(Some(name), otherCfg) == name
  {
    ResolvedIsStripped(envModel, cfgModel);
  }

  datatype LoadError = MissingApiKey

  /**
   * What `load_llm` hands to the chat client: the model and key, and whether
   * the "custom Groq model" notice is printed.
   */
  datatype LlmSettings = LlmSettings(model: string, apiKey: string, customModel: bool)

  /**
   * `load_llm` up to the construction of the client: a missing or empty
   * `GROQ_API_KEY` is an error; otherwise the resolved model is used,
   * whether or not it is on the allow-list, which only decides the notice.
   */
  function LoadLlm(apiKey: Option<string>, envModel: Option<string>, cfgModel: Option<string>)
    : (r: Result<LlmSettings, LoadError>)
    ensures r.Failure? <==> !Truthy(apiKey)
    ensures r.Success? ==>
      r.value.model == ResolveGroqModel(envModel, cfgModel)
      && r.value.apiKey == apiKey.value
      && (r.value.customModel <==> r.value.model !in {GROQ_DEFAULT} + GROQ_ALLOWED_FALLBACKS)
  {
    if !Truthy(apiKey) then Failure(MissingApiKey)
    else
      var model := ResolveGroqModel(envModel, cfgModel);
      Success(LlmSettings(model, apiKey.value, model !in {GROQ_DEFAULT} + GROQ_ALLOWED_FALLBACKS))
  }

  /** The key is checked first: without one, the model settings make no difference. */
  lemma KeyCheckedFirst(apiKey: Option<string>, envModel: Option<string>, cfgModel: Option<string>,
                        otherEnv: Option<string>, otherCfg: Option<string>)
    requires !Truthy(apiKey)
    ensures LoadLlm(apiKey, envModel, cfgModel) == LoadLlm(apiKey, otherEnv, otherCfg) == Failure(MissingApiKey)
  {
  }

  /** The default model never triggers the custom-model notice. */
  lemma DefaultIsNotCustom(apiKey: Option<string>, envModel: Option<string>, cfgModel: Option<string>)
    requires Truthy(apiKey) && !Truthy(envModel) && !Truthy(cfgModel)
    ensures LoadLlm(apiKey, envModel, cfgModel) == Success(LlmSettings(GROQ_DEFAULT, apiKey.value, false))
  {
    DefaultWhenNothingSet(envModel, cfgModel);
  }
}
