/** Provider selection (config.py): which hosted or local model the agents
    talk to, chosen from the environment and, when the user switches
    backend, from the selected model name. */
module Config {
  import opened Text

  /** The environment after `load_dotenv()`: an unset variable is absent. */
  type Env = map<string, string>

  const GroqKey: string := "GROQ_API_KEY"
  const OpenAIKey: string := "OPENAI_API_KEY"
  const AnthropicKey: string := "ANTHROPIC_API_KEY"
  const OllamaBaseUrlVar: string := "OLLAMA_BASE_URL"
  const OllamaBaseUrlFallback: string := "http://localhost:11434/v1"

  /** `if os.getenv(name):` -- present and not the empty string. */
  predicate IsSet(env: Env, name: string) {
    name in env && env[name] != ""
  }

  /** The module-level defaults: `DEFAULT_BASE_URL`, `DEFAULT_TEMPERATURE`
      and `DEFAULT_TIMEOUT`. */
  datatype Defaults = Defaults(baseUrl: string, temperature: real, timeout: int)

  /** `os.getenv("OLLAMA_BASE_URL", "http://localhost:11434/v1")` (a set but
      empty variable is returned as it is); temperature and timeout arrive
      already parsed. */
  function LoadDefaults(env: Env, temperature: real, timeout: int): (d: Defaults)
    ensures d.temperature == temperature && d.timeout == timeout
    ensures OllamaBaseUrlVar !in env ==> d.baseUrl == OllamaBaseUrlFallback
    ensures OllamaBaseUrlVar in env ==> d.baseUrl == env[OllamaBaseUrlVar]
  {
    var baseUrl := if OllamaBaseUrlVar in env then env[OllamaBaseUrlVar] else OllamaBaseUrlFallback;
    Defaults(baseUrl, temperature, timeout)
  }

  /** `"price": [prompt, completion]`. */
  datatype Price = Price(prompt: real, completion: real)

  /** One entry of `config_list`. */
  datatype Endpoint = Endpoint(model: string, apiKey: string, baseUrl: string, price: Price)

  /** The dict handed to every agent as `llm_config`. */
  datatype LlmConfig = LlmConfig(temperature: real, timeout: int, configList: seq<Endpoint>)

  function GroqEndpoint(key: string): Endpoint {
    Endpoint("llama3-70b-8192", key, "https://api.groq.com/openai/v1", Price(0.0, 0.0))
  }

  function OpenAIEndpoint(key: string): Endpoint {
    Endpoint("gpt-4", key, "https://api.openai.com/v1", Price(0.03, 0.06))
  }

  function AnthropicEndpoint(key: string): Endpoint {
    Endpoint("claude-3-opus-20240229", key, "https://api.anthropic.com/v1", Price(0.015, 0.015))
  }

  function OllamaEndpoint(d: Defaults): Endpoint {
    Endpoint("llama2", "ollama", d.baseUrl, Price(0.0, 0.0))
  }

  /** A config with the module defaults and a single endpoint. */
  function Single(d: Defaults, e: Endpoint): LlmConfig {
    LlmConfig(d.temperature, d.timeout, [e])
  }

  /** The shape every config of this module has: one endpoint, the default
      temperature and timeout. */
  predicate WellFormed(c: LlmConfig, d: Defaults) {
    |c.configList| == 1 && c.temperature == d.temperature && c.timeout == d.timeout
  }

  /** `get_llm_config()`. The chosen endpoint never carries an empty key. */
  function GetLlmConfig(env: Env, d: Defaults): (c: LlmConfig)
    ensures WellFormed(c, d)
    ensures c.configList[0].apiKey != ""
  {
    if IsSet(env, GroqKey) then Single(d, GroqEndpoint(env[GroqKey]))
    else if IsSet(env, OpenAIKey) then Single(d, OpenAIEndpoint(env[OpenAIKey]))
    else if IsSet(env, AnthropicKey) then Single(d, AnthropicEndpoint(env[AnthropicKey]))
    else Single(d, OllamaEndpoint(d))
  }

  /** `update_config_for_model(selected)`. The chosen endpoint never carries
      an empty key. */
  function UpdateConfigForModel(selected: string, env: Env, d: Defaults): (c: LlmConfig)
    ensures WellFormed(c, d)
    ensures c.configList[0].apiKey != ""
  {
    if StartsWith(selected, "GPT-4") && IsSet(env, OpenAIKey) then
      Single(d, OpenAIEndpoint(env[OpenAIKey]))
    else if StartsWith(selected, "Claude") && IsSet(env, AnthropicKey) then
      Single(d, AnthropicEndpoint(env[AnthropicKey]))
    else if selected == "Other Ollama Model" then
      Single(d, OllamaEndpoint(d))
    else
      GetLlmConfig(env, d)
  }

  /** `SUPPORTED_MODELS`, the choices the sidebar offers. */
  const SupportedModels: seq<string> := [
    "Mixtral (Groq/Ollama - Default)",
    "GPT-4 (OpenAI)",
    "Claude (Anthropic)",
    "Other Ollama Model"
  ]

  // ---------------------------------------------------------------------
  // An independent statement of the decision table

  datatype Provider = Groq | OpenAI | Anthropic | Ollama

  /** The variable holding a hosted provider's key. */
  function KeyVariable(p: Provider): string
    requires p != Ollama
  {
    match p
    case Groq => GroqKey
    case OpenAI => OpenAIKey
    case Anthropic => AnthropicKey
  }

  /** The endpoint for provider `p`, its key read from the environment. */
  function EndpointFor(p: Provider, env: Env, d: Defaults): Endpoint
    requires p != Ollama ==> KeyVariable(p) in env
  {
    match p
    case Groq => GroqEndpoint(env[GroqKey])
    case OpenAI => OpenAIEndpoint(env[OpenAIKey])
    case Anthropic => AnthropicEndpoint(env[AnthropicKey])
    case Ollama => OllamaEndpoint(d)
  }

  /** Hosted providers in the order `get_llm_config` tries them. */
  const Priority: seq<Provider> := [Groq, OpenAI, Anthropic]

  /** The first provider of `ps` whose key is set; local Ollama if none. */
  function FirstKeyed(env: Env, ps: seq<Provider>): (p: Provider)
    requires forall i :: 0 <= i < |ps| ==> ps[i] != Ollama
    ensures p == Ollama || (p in ps && IsSet(env, KeyVariable(p)))
  {
    if ps == [] then Ollama
    else if IsSet(env, KeyVariable(ps[0])) then ps[0]
    else FirstKeyed(env, ps[1..])
  }

  /** Which provider a config of this module talks to, read off its model. */
  function ProviderOf(c: LlmConfig): Provider
    requires |c.configList| == 1
  {
    var model := c.configList[0].model;
    if model == "llama3-70b-8192" then Groq
    else if model == "gpt-4" then OpenAI
    else if model == "claude-3-opus-20240229" then Anthropic
    else Ollama
  }

  /** `get_llm_config` is "the first hosted provider in priority order whose
      key is set, else local Ollama". */
  lemma GetLlmConfigFollowsPriority(env: Env, d: Defaults)
    ensures GetLlmConfig(env, d) == Single(d, EndpointFor(FirstKeyed(env, Priority), env, d))
  {
    var rest1, rest2, rest3 := Priority[1..], Priority[2..], Priority[3..];
    assert rest1 == [OpenAI, Anthropic] && rest1[1..] == rest2;
    assert rest2 == [Anthropic] && rest2[1..] == rest3 == [];
    assert FirstKeyed(env, rest2) == if IsSet(env, AnthropicKey) then Anthropic else Ollama;
    assert FirstKeyed(env, rest1) == if IsSet(env, OpenAIKey) then OpenAI else FirstKeyed(env, rest2);
  }

  /** The decision table of `get_llm_config`, row by row: each provider is
      chosen exactly when its key is set and every key before it is not. */
  lemma GetLlmConfigDecisionTable(env: Env, d: Defaults)
    ensures var p := ProviderOf(GetLlmConfig(env, d));
            && (p == Groq <==> IsSet(env, GroqKey))
            && (p == OpenAI <==> !IsSet(env, GroqKey) && IsSet(env, OpenAIKey))
            && (p == Anthropic <==>
                  !IsSet(env, GroqKey) && !IsSet(env, OpenAIKey) && IsSet(env, AnthropicKey))
            && (p == Ollama <==>
                  !IsSet(env, GroqKey) && !IsSet(env, OpenAIKey) && !IsSet(env, AnthropicKey))
            && (p != Ollama ==> GetLlmConfig(env, d).configList[0].apiKey == env[KeyVariable(p)])
  {
  }

  /** A Groq key wins whatever else is set. */
  lemma GroqKeyWins(env: Env, d: Defaults)
    requires IsSet(env, GroqKey)
    ensures GetLlmConfig(env, d) == Single(d, GroqEndpoint(env[GroqKey]))
  {
  }

  /** With no hosted key set, the local `llama2` model is used through the
      default base URL with the placeholder key `ollama`. */
  lemma NoKeyMeansLocalOllama(env: Env, d: Defaults)
    requires !IsSet(env, GroqKey) && !IsSet(env, OpenAIKey) && !IsSet(env, AnthropicKey)
    ensures GetLlmConfig(env, d).configList == [Endpoint("llama2", "ollama", d.baseUrl, Price(0.0, 0.0))]
  {
  }

  /** Unlike the key variables, a set but empty `OLLAMA_BASE_URL` is not
      treated as unset: the local endpoint then gets the empty base URL,
      not the fallback. */
  lemma EmptyBaseUrlIsKept(env: Env, temperature: real, timeout: int)
    requires OllamaBaseUrlVar in env && env[OllamaBaseUrlVar] == ""
    requires !IsSet(env, GroqKey) && !IsSet(env, OpenAIKey) && !IsSet(env, AnthropicKey)
    ensures GetLlmConfig(env, LoadDefaults(env, temperature, timeout)).configList[0].baseUrl == ""
    ensures !IsSet(env, OllamaBaseUrlVar)
  {
    NoKeyMeansLocalOllama(env, LoadDefaults(env, temperature, timeout));
  }

  /** A "GPT-4" selection with an OpenAI key gets `gpt-4`, even when a Groq
      key is also set. */
  lemma SelectGpt4(selected: string, env: Env, d: Defaults)
    requires StartsWith(selected, "GPT-4") && IsSet(env, OpenAIKey)
    ensures UpdateConfigForModel(selected, env, d) == Single(d, OpenAIEndpoint(env[OpenAIKey]))
    ensures IsSet(env, GroqKey) ==> ProviderOf(UpdateConfigForModel(selected, env, d)) != ProviderOf(GetLlmConfig(env, d))
  {
  }

  /** A "Claude" selection with an Anthropic key gets Claude. */
  lemma SelectClaude(selected: string, env: Env, d: Defaults)
    requires StartsWith(selected, "Claude") && IsSet(env, AnthropicKey)
    ensures UpdateConfigForModel(selected, env, d) == Single(d, AnthropicEndpoint(env[AnthropicKey]))
  {
    assert selected[0] == 'C';
    DiffersAtStart(selected, "GPT-4");
  }

  lemma DiffersAtStart(s: string, p: string)
    requires s != [] && p != [] && s[0] != p[0]
    ensures !StartsWith(s, p)
  {
    assert |p| <= |s| ==> s[..|p|][0] == s[0];
  }

  /** "Other Ollama Model" always gets local `llama2`, whatever keys are set. */
  lemma SelectOtherOllama(env: Env, d: Defaults)
    ensures UpdateConfigForModel("Other Ollama Model", env, d) == Single(d, OllamaEndpoint(d))
  {
    DiffersAtStart("Other Ollama Model", "GPT-4");
    DiffersAtStart("Other Ollama Model", "Claude");
  }

  /** Any other selection, and a provider prefix whose key is unset, falls
      back to `get_llm_config`. */
  lemma SelectFallsBack(selected: string, env: Env, d: Defaults)
    requires !StartsWith(selected, "GPT-4") || !IsSet(env, OpenAIKey)
    requires !StartsWith(selected, "Claude") || !IsSet(env, AnthropicKey)
    requires selected != "Other Ollama Model"
    ensures UpdateConfigForModel(selected, env, d) == GetLlmConfig(env, d)
  {
  }

  /** What each entry of `SUPPORTED_MODELS` selects. */
  lemma SupportedModelsTable(env: Env, d: Defaults)
    ensures UpdateConfigForModel(SupportedModels[0], env, d) == GetLlmConfig(env, d)
    ensures UpdateConfigForModel(SupportedModels[1], env, d) ==
            if IsSet(env, OpenAIKey) then Single(d, OpenAIEndpoint(env[OpenAIKey])) else GetLlmConfig(env, d)
    ensures UpdateConfigForModel(SupportedModels[2], env, d) ==
            if IsSet(env, AnthropicKey) then Single(d, AnthropicEndpoint(env[AnthropicKey])) else GetLlmConfig(env, d)
    ensures UpdateConfigForModel(SupportedModels[3], env, d) == Single(d, OllamaEndpoint(d))
  {
    var mixtral, gpt, claude := SupportedModels[0], SupportedModels[1], SupportedModels[2];
    DiffersAtStart(mixtral, "GPT-4");
    DiffersAtStart(mixtral, "Claude");
    assert gpt[..5] == "GPT-4" && !StartsWith(gpt, "Claude");
    assert claude[..6] == "Claude" && !StartsWith(claude, "GPT-4");
    SelectOtherOllama(env, d);
  }

  /** A switch never picks a hosted provider whose key is unset, and hands it
      that key. */
  lemma SelectionUsesSetKey(selected: string, env: Env, d: Defaults)
    ensures var c := UpdateConfigForModel(selected, env, d);
            var p := ProviderOf(c);
            p != Ollama ==> IsSet(env, KeyVariable(p)) && c.configList[0].apiKey == env[KeyVariable(p)]
  {
    GetLlmConfigDecisionTable(env, d);
  }
}
