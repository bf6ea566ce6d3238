/**
 * The provider enumeration, its defaults and the configuration records
 * (src/types.rs).
 */
module Types {
  import opened Wrappers
  import opened Text

  const DEFAULT_OPENAI_BASE_URL := "https://api.openai.com/v1"
  const DEFAULT_OPENAI_MODEL := "gpt-4o-mini"
  const DEFAULT_ANTHROPIC_BASE_URL := "https://api.anthropic.com"
  const DEFAULT_ANTHROPIC_MODEL := "claude-3-5-haiku-latest"
  const DEFAULT_OPENROUTER_BASE_URL := "https://openrouter.ai/api/v1"
  const DEFAULT_OPENROUTER_MODEL := "openai/gpt-4o-mini"
  const DEFAULT_VERCEL_BASE_URL := "https://ai-gateway.vercel.sh/v1"
  const DEFAULT_VERCEL_MODEL := "openai/gpt-4o-mini"

  /** The closed set of backends. */
  datatype Provider = Openai | Anthropic | Openrouter | Vercel

  /** Every spelling `Provider::parse` accepts for `p`, once lower-cased. */
  function Names(p: Provider): set<string> {
    match p
    case Openai => {"openai"}
    case Anthropic => {"anthropic"}
    case Openrouter => {"openrouter"}
    case Vercel => {"vercel", "vercel-ai-gateway", "gateway"}
  }

  /** `Provider::parse`: ASCII case-insensitive, no trimming. */
  function Parse(input: string): (r: Option<Provider>)
    ensures r.Some? ==> ToAsciiLower(input) in Names(r.value)
    ensures r.None? ==> forall p :: ToAsciiLower(input) !in Names(p)
  {
    var name := ToAsciiLower(input);
    if name == "openai" then Some(Openai)
    else if name == "anthropic" then Some(Anthropic)
    else if name == "openrouter" then Some(Openrouter)
    else if name == "vercel" || name == "vercel-ai-gateway" || name == "gateway" then Some(Vercel)
    else None
  }

  /** `Provider::as_str` */
  function AsStr(p: Provider): string {
    match p
    case Openai => "openai"
    case Anthropic => "anthropic"
    case Openrouter => "openrouter"
    case Vercel => "vercel"
  }

  /** Printing a provider and parsing it back gives the same provider. */
  lemma ParseAsStr(p: Provider)
    ensures Parse(AsStr(p)) == Some(p)
  {
    LowerOfLower(AsStr(p));
  }

  /** `Provider::parse` ignores ASCII case: inputs that agree once lower-cased parse alike. */
  lemma ParseIgnoresCase(a: string, b: string)
    requires ToAsciiLower(a) == ToAsciiLower(b)
    ensures Parse(a) == Parse(b)
  {
  }

  /** The Vercel aliases, in any ASCII case. */
  lemma ParseVercelAliases(s: string)
    requires ToAsciiLower(s) in {"vercel", "vercel-ai-gateway", "gateway"}
    ensures Parse(s) == Some(Vercel)
  {
  }

  /** Surrounding whitespace is not trimmed: it makes a name unparseable. */
  lemma ParseDoesNotTrim(s: string)
    requires s != [] && IsWhitespace(s[0])
    ensures Parse(s) == None
  {
    var n := ToAsciiLower(s);
    assert n[0] == s[0];
    forall p ensures n !in Names(p) {
      forall m | m in Names(p) ensures m != n {
        assert m[0] in "aogv";
      }
    }
  }

  /** `Provider::default_base_url` */
  function DefaultBaseUrl(p: Provider): string {
    match p
    case Openai => DEFAULT_OPENAI_BASE_URL
    case Anthropic => DEFAULT_ANTHROPIC_BASE_URL
    case Openrouter => DEFAULT_OPENROUTER_BASE_URL
    case Vercel => DEFAULT_VERCEL_BASE_URL
  }

  /** `Provider::default_model` */
  function DefaultModel(p: Provider): string {
    match p
    case Openai => DEFAULT_OPENAI_MODEL
    case Anthropic => DEFAULT_ANTHROPIC_MODEL
    case Openrouter => DEFAULT_OPENROUTER_MODEL
    case Vercel => DEFAULT_VERCEL_MODEL
  }

  /** Every default base URL is an https URL without a trailing '/', so the
      endpoint built from it is the URL followed directly by the path; every
      default model is a non-blank id. */
  lemma DefaultsWellFormed(p: Provider)
    ensures StartsWith(DefaultBaseUrl(p), "https://")
    ensures TrimEndBy(DefaultBaseUrl(p), IsSlash) == DefaultBaseUrl(p)
    ensures !IsBlank(DefaultModel(p))
  {
    var u := DefaultBaseUrl(p);
    assert u[|u| - 1] != '/';
    assert !IsWhitespace(DefaultModel(p)[0]);
  }

  /** The `[...]` table of a configuration file; every entry is optional. */
  datatype FileConfig = FileConfig(
    provider: Option<Provider>,
    model: Option<string>,
    baseUrl: Option<string>,
    apiKey: Option<string>,
    noFun: Option<bool>)

  /** The resolved configuration of one invocation. */
  datatype AppConfig = AppConfig(
    provider: Provider,
    model: string,
    baseUrl: string,
    apiKey: string,
    explain: bool,
    json: bool,
    plain: bool,
    noFun: bool,
    setup: bool,
    prompt: Option<string>,
    outputFile: Option<string>)

  /** `AppConfig::provider_api_key_missing`: the key is empty after trimming. */
  predicate ProviderApiKeyMissing(config: AppConfig) {
    Trim(config.apiKey) == []
  }

  /** The key counts as missing exactly when it is made of whitespace only. */
  lemma ApiKeyMissingIff(config: AppConfig)
    ensures ProviderApiKeyMissing(config) <==> IsBlank(config.apiKey)
  {
    TrimShape(config.apiKey);
  }

  /** One generated command as the model returns it; `safety` is the raw
      string the program keeps (normalised once while parsing). */
  datatype GenerationOutput = GenerationOutput(command: string, explanation: string, safety: string)

  /** The record printed in `--json` mode. */
  datatype JsonOutput = JsonOutput(provider: string, model: string, command: string, explanation: string, safety: string)
}
