/** Configuration read from the environment (src/config.ts). */
module Configuration {
  import opened Wrappers
  import opened Strings

  /** The validated configuration. */
  datatype Config = Config(openRouterApiKey: string, defaultModel: string)

  /** The model used when `DEFAULT_MODEL` is unset or empty. */
  const FallbackModel: string := "google/gemini-2.5-flash-lite"

  /** The message of the error thrown when the API key is missing. */
  const MissingKeyMessage: string :=
    "OPENROUTER_API_KEY environment variable is required. " +
    "Please create a .env file with your OpenRouter API key."

  /** `validateConfig`, over the values of `OPENROUTER_API_KEY` and `DEFAULT_MODEL`. */
  function ValidateConfig(apiKey: Option<string>, model: Option<string>): (r: Result<Config, Thrown>)
    ensures r.Err? <==> !Truthy(apiKey)
    ensures r.Err? ==> r.error == Error(MissingKeyMessage)
    ensures r.Ok? ==> r.value.openRouterApiKey == apiKey.value
    ensures r.Ok? ==> r.value.defaultModel == (if Truthy(model) then model.value else FallbackModel)
  {
    var defaultModel := if Truthy(model) then model.value else FallbackModel;
    if !Truthy(apiKey) then Err(Error(MissingKeyMessage))
    else Ok(Config(apiKey.value, defaultModel))
  }

  /** A validated configuration never has an empty key or model. */
  lemma ConfigNonEmpty(apiKey: Option<string>, model: Option<string>)
    requires ValidateConfig(apiKey, model).Ok?
    ensures ValidateConfig(apiKey, model).value.openRouterApiKey != ""
    ensures ValidateConfig(apiKey, model).value.defaultModel != ""
  {
  }

  /** Setting the environment to a validated configuration reproduces it. */
  lemma ConfigRoundTrip(apiKey: Option<string>, model: Option<string>)
    requires ValidateConfig(apiKey, model).Ok?
    ensures var c := ValidateConfig(apiKey, model).value;
            ValidateConfig(Some(c.openRouterApiKey), Some(c.defaultModel)) == Ok(c)
  {
  }

  /** An empty variable is treated as an absent one. */
  lemma EmptyIsUnset(apiKey: Option<string>, model: Option<string>)
    ensures ValidateConfig(Some(""), model) == ValidateConfig(None, model)
    ensures ValidateConfig(apiKey, Some("")) == ValidateConfig(apiKey, None)
  {
  }
}
