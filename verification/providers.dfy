/**
 * The LLM providers (pipeline/providers/): the fields every provider keeps
 * (`BaseProvider`), the registry that maps a provider name to its class
 * (`PROVIDER_REGISTRY`, `get_provider`, `register_provider`) and the
 * assembly of a provider's parameters from the configuration
 * (`get_provider_from_config`).
 *
 * A provider class is named by its class name. The `_setup_provider` of
 * the two built-in classes fills in a default model and base URL; the
 * network calls they make (`get_completion`, `get_chat_completion`) are not
 * modelled.
 */
module Providers {
  import opened Wrappers
  import opened Text
  import opened Dicts
  import opened Configuration
  import opened ConfigManagement

  const DefaultMaxTokens := JInt(4096)

  /** `d.get(k, default)` */
  function GetOr(d: Dict<Json>, k: string, default: Json): (r: Json)
    ensures k in Keys(d) ==> Get(d, k) == Some(r)
    ensures k !in Keys(d) ==> r == default
  {
    match Get(d, k)
    case Some(v) => v
    case None => default
  }

  /** The base URL `_setup_provider` of a built-in class falls back to; `None` for any other class. */
  function DefaultBaseUrl(className: string): (r: Option<string>)
    ensures r.Some? <==> className == "OpenAIProvider" || className == "DeepSeekProvider"
  {
    if className == "OpenAIProvider" then Some("https://api.openai.com/v1")
    else if className == "DeepSeekProvider" then Some("https://api.deepseek.com")
    else None
  }

  /** The model `_setup_provider` of a built-in class falls back to; `None` for any other class. */
  function DefaultModel(className: string): (r: Option<string>)
    ensures r.Some? <==> className == "OpenAIProvider" || className == "DeepSeekProvider"
  {
    if className == "OpenAIProvider" then Some("gpt-4")
    else if className == "DeepSeekProvider" then Some("deepseek-reasoner")
    else None
  }

  /** `if not self.x: self.x = default`: a falsy value gives way to the class default, when the class has one. */
  function SetupValue(v: Json, default: Option<string>): (r: Json)
    ensures Truthy(v) || default.None? ==> r == v
    ensures !Truthy(v) && default.Some? ==> r == JStr(default.value)
    ensures default.Some? && default.value != "" ==> Truthy(r)
  {
    if !Truthy(v) && default.Some? then JStr(default.value) else v
  }

  /** An instance of a provider class: what `BaseProvider.__init__` and then the class's `_setup_provider` store. */
  class BaseProvider {
    var className: string
    var apiKey: Json
    var isConfigured: bool
    var baseUrl: Json
    var model: Json
    var maxTokens: Json
    var temperature: Json
    var additionalParams: Dict<Json>

    /**
     * `provider_class(api_key, **kwargs)`: absent `base_url` and `model` are
     * `None`, `max_tokens` is 4096, `temperature` 0.7; then `_setup_provider`
     * replaces a falsy `base_url` or `model` by the class default.
     */
    constructor (className: string, apiKey: Json, kwargs: Dict<Json>)
      ensures this.className == className && this.apiKey == apiKey
      ensures isConfigured <==> Truthy(apiKey)
      ensures baseUrl == SetupValue(GetOr(kwargs, "base_url", JNull), DefaultBaseUrl(className))
      ensures model == SetupValue(GetOr(kwargs, "model", JNull), DefaultModel(className))
      ensures maxTokens == GetOr(kwargs, "max_tokens", DefaultMaxTokens) && temperature == GetOr(kwargs, "temperature", DefaultTemperature)
      ensures additionalParams == kwargs
    {
      this.className := className;
      this.apiKey := apiKey;
      isConfigured := Truthy(apiKey);
      baseUrl := GetOr(kwargs, "base_url", JNull);
      model := GetOr(kwargs, "model", JNull);
      maxTokens := GetOr(kwargs, "max_tokens", DefaultMaxTokens);
      temperature := GetOr(kwargs, "temperature", DefaultTemperature);
      additionalParams := kwargs;
      new;
      SetupProvider();
    }

    /** `_setup_provider`: the default base URL and model of the class fill in falsy settings. */
    method SetupProvider()
      modifies this
      ensures baseUrl == SetupValue(old(baseUrl), DefaultBaseUrl(className))
      ensures model == SetupValue(old(model), DefaultModel(className))
      ensures className == old(className) && apiKey == old(apiKey) && isConfigured == old(isConfigured)
      ensures maxTokens == old(maxTokens) && temperature == old(temperature) && additionalParams == old(additionalParams)
    {
      var defaultUrl := DefaultBaseUrl(className);
      if !Truthy(baseUrl) && defaultUrl.Some? {
        baseUrl := JStr(defaultUrl.value);
      }
      var defaultModel := DefaultModel(className);
      if !Truthy(model) && defaultModel.Some? {
        model := JStr(defaultModel.value);
      }
    }

    /** `validate_configuration`: a provider needs an API key and a model. */
    function ValidateConfiguration(): (ok: bool)
      reads this
      ensures !isConfigured ==> !ok
      ensures isConfigured && !Truthy(model) ==> !ok
      ensures ok <==> isConfigured && Truthy(model)
    {
      if !isConfigured then false
      else if !Truthy(model) then false
      else true
    }

    /** `get_model_name`: `self.model or "unknown"`. */
    function ModelName(): (r: Json)
      reads this
      ensures Truthy(r)
      ensures Truthy(model) ==> r == model
      ensures !Truthy(model) ==> r == JStr("unknown")
    {
      if Truthy(model) then model else JStr("unknown")
    }

    /** `get_provider_info`: the class name and the current configuration fields, in this order. */
    function ProviderInfo(): (r: Dict<Json>)
      reads this
      ensures Keys(r) == ["name", "is_configured", "model", "max_tokens", "temperature"]
      ensures Get(r, "name") == Some(JStr(className)) && Get(r, "is_configured") == Some(JBool(isConfigured))
      ensures Get(r, "model") == Some(model) && Get(r, "max_tokens") == Some(maxTokens) && Get(r, "temperature") == Some(temperature)
    {
      InfoEntries(JStr(className), JBool(isConfigured), model, maxTokens, temperature);
      [("name", JStr(className)), ("is_configured", JBool(isConfigured)), ("model", model),
       ("max_tokens", maxTokens), ("temperature", temperature)]
    }
  }

  /** The five entries of the provider information, each found under its key. */
  lemma InfoEntries(name: Json, configured: Json, model: Json, maxTokens: Json, temperature: Json)
    ensures var r := [("name", name), ("is_configured", configured), ("model", model), ("max_tokens", maxTokens), ("temperature", temperature)];
      Keys(r) == ["name", "is_configured", "model", "max_tokens", "temperature"] &&
      Get(r, "name") == Some(name) && Get(r, "is_configured") == Some(configured) && Get(r, "model") == Some(model) &&
      Get(r, "max_tokens") == Some(maxTokens) && Get(r, "temperature") == Some(temperature)
  {
    var r := [("name", name), ("is_configured", configured), ("model", model), ("max_tokens", maxTokens), ("temperature", temperature)];
    var ks := ["name", "is_configured", "model", "max_tokens", "temperature"];
    assert Keys(r) == ks by {
      assert |Keys(r)| == |ks|;
      forall i | 0 <= i < |ks| ensures Keys(r)[i] == ks[i] {
      }
    }
    assert Distinct(ks) by {
      forall i, j | 0 <= i < j < |ks| ensures ks[i] != ks[j] {
        assert |ks[i]| != |ks[j]|;
      }
    }
    GetAt(r, 0);
    GetAt(r, 1);
    GetAt(r, 2);
    GetAt(r, 3);
    GetAt(r, 4);
  }

  /**
   * A built-in provider always has a model after setup, so it validates
   * exactly when its API key is truthy, and reports that model.
   */
  lemma BuiltInValidation(p: BaseProvider, configured: Json)
    requires p.className == "OpenAIProvider" || p.className == "DeepSeekProvider"
    requires p.model == SetupValue(configured, DefaultModel(p.className))
    ensures Truthy(p.model)
    ensures p.ValidateConfiguration() <==> p.isConfigured
    ensures !Truthy(configured) ==> p.ModelName() == JStr(DefaultModel(p.className).value)
  {
  }

  /** The built-in defaults: "gpt-4" at api.openai.com/v1, and "deepseek-reasoner" at api.deepseek.com. */
  lemma BuiltInDefaults()
    ensures DefaultModel("OpenAIProvider") == Some("gpt-4") && DefaultBaseUrl("OpenAIProvider") == Some("https://api.openai.com/v1")
    ensures DefaultModel("DeepSeekProvider") == Some("deepseek-reasoner") && DefaultBaseUrl("DeepSeekProvider") == Some("https://api.deepseek.com")
  {
  }

  /** A configured provider (API key and model) reports a model name of its own. */
  lemma ValidProviderNamesModel(p: BaseProvider)
    requires p.ValidateConfiguration()
    ensures p.ModelName() == p.model
    ensures Get(p.ProviderInfo(), "is_configured") == Some(JBool(true))
  {
  }

  /** Provider names are compared after `lower().strip()`. */
  function Normalize(name: string): (r: string)
    ensures |r| <= |name|
    ensures r == [] || (!IsSpace(r[0]) && !IsSpace(r[|r| - 1]))
    ensures r == [] <==> AllSpace(name)
  {
    LowerKeepsSpaces(name);
    Strip(Lower(name))
  }

  /** Lower-casing changes no whitespace. */
  lemma LowerKeepsSpaces(s: string)
    ensures AllSpace(Lower(s)) <==> AllSpace(s)
  {
    assert forall i :: 0 <= i < |s| ==> (IsSpace(Lower(s)[i]) <==> IsSpace(s[i]));
  }

  /** The registry as the module defines it. */
  const InitialRegistry: Dict<string> := [("openai", "OpenAIProvider"), ("deepseek", "DeepSeekProvider")]

  function UnsupportedMessage(name: string, registry: Dict<string>): string {
    "Unsupported provider: " + name + ". Supported providers: " + Join(Keys(registry), ", ")
  }

  /** The class `get_provider(name, …)` instantiates, or the ValueError it raises for an unknown name. */
  function Lookup(registry: Dict<string>, name: string): (r: Result<string>)
    ensures r.Ok? <==> Normalize(name) in Keys(registry)
    ensures r.Ok? ==> (Normalize(name), r.value) in registry
    ensures r.Err? ==> r.error == ValueError(UnsupportedMessage(Normalize(name), registry))
  {
    var n := Normalize(name);
    match Get(registry, n)
    case Some(cls) => Ok(cls)
    case None => Err(ValueError(UnsupportedMessage(n, registry)))
  }

  /** Out of the box exactly "openai" and "deepseek" are known, whatever their case and surrounding whitespace. */
  lemma InitialProviders(name: string)
    ensures Lookup(InitialRegistry, name).Ok? <==> Normalize(name) == "openai" || Normalize(name) == "deepseek"
    ensures Normalize(name) == "openai" ==> Lookup(InitialRegistry, name) == Ok("OpenAIProvider")
    ensures Normalize(name) == "deepseek" ==> Lookup(InitialRegistry, name) == Ok("DeepSeekProvider")
  {
    var ks := ["openai", "deepseek"];
    assert Keys(InitialRegistry) == ks by {
      assert |Keys(InitialRegistry)| == |ks|;
      forall i | 0 <= i < |ks| ensures Keys(InitialRegistry)[i] == ks[i] {
      }
    }
    assert Distinct(ks) by {
      assert |ks[0]| != |ks[1]|;
    }
    GetAt(InitialRegistry, 0);
    GetAt(InitialRegistry, 1);
  }

  /** The error for an unknown name lists "openai, deepseek" while nothing else is registered. */
  lemma InitialSupportedList()
    ensures Join(Keys(InitialRegistry), ", ") == "openai, deepseek"
  {
    var ks := ["openai", "deepseek"];
    assert Keys(InitialRegistry) == ks by {
      assert |Keys(InitialRegistry)| == |ks|;
      forall i | 0 <= i < |ks| ensures Keys(InitialRegistry)[i] == ks[i] {
      }
    }
    assert ks[1..] == ["deepseek"];
    assert Join(ks, ", ") == "openai" + ", " + "deepseek";
  }

  /** What `register_provider(name, cls)` does to a registry: a new name is appended, a known one is refused. */
  function Registered(registry: Dict<string>, name: string, cls: string): (r: Result<Dict<string>>)
    ensures Normalize(name) in Keys(registry) ==> r == Err(ValueError("Provider already registered: " + Normalize(name)))
    ensures Normalize(name) !in Keys(registry) ==> r == Ok(registry + [(Normalize(name), cls)])
  {
    var n := Normalize(name);
    if n in Keys(registry) then Err(ValueError("Provider already registered: " + n)) else Ok(registry + [(n, cls)])
  }

  /**
   * After a successful registration every spelling of the name finds the
   * new class, and every other name is found or refused as before.
   */
  lemma RegisterThenLookup(registry: Dict<string>, name: string, cls: string, other: string)
    requires Registered(registry, name, cls).Ok?
    ensures Normalize(other) == Normalize(name) ==> Lookup(Registered(registry, name, cls).value, other) == Ok(cls)
    ensures Normalize(other) != Normalize(name) ==>
      Lookup(Registered(registry, name, cls).value, other).Ok? == Lookup(registry, other).Ok? &&
      (Lookup(registry, other).Ok? ==> Lookup(Registered(registry, name, cls).value, other) == Lookup(registry, other))
  {
    var n := Normalize(name);
    var after := registry + [(n, cls)];
    PutNew(registry, n, cls);
    GetPut(registry, n, cls, Normalize(other));
  }

  /** `PROVIDER_REGISTRY`: module state that `register_provider` updates. */
  class ProviderRegistry {
    var entries: Dict<string>

    /** No name is registered twice. */
    predicate Valid()
      reads this
    {
      Distinct(Keys(entries))
    }

    constructor ()
      ensures entries == InitialRegistry && Valid()
    {
      entries := InitialRegistry;
    }

    /** `get_provider(name, api_key, **kwargs)`: a new instance of the registered class, built from the key and the parameters. */
    method GetProvider(name: string, apiKey: Json, kwargs: Dict<Json>) returns (r: Result<BaseProvider>)
      ensures Lookup(entries, name).Err? ==> r == Err(Lookup(entries, name).error)
      ensures Lookup(entries, name).Ok? ==>
        r.Ok? && fresh(r.value) && r.value.className == Lookup(entries, name).value &&
        r.value.apiKey == apiKey && r.value.additionalParams == kwargs &&
        r.value.temperature == GetOr(kwargs, "temperature", DefaultTemperature) &&
        r.value.maxTokens == GetOr(kwargs, "max_tokens", DefaultMaxTokens) &&
        r.value.model == SetupValue(GetOr(kwargs, "model", JNull), DefaultModel(r.value.className)) &&
        r.value.baseUrl == SetupValue(GetOr(kwargs, "base_url", JNull), DefaultBaseUrl(r.value.className)) &&
        (r.value.isConfigured <==> Truthy(apiKey))
    {
      var cls := Lookup(entries, name);
      if cls.Err? {
        return Err(cls.error);
      }
      var p := new BaseProvider(cls.value, apiKey, kwargs);
      r := Ok(p);
    }

    /** `register_provider(name, cls)`: refused, with the registry unchanged, when the name is known. */
    method Register(name: string, cls: string) returns (err: Option<Error>)
      requires Valid()
      modifies this
      ensures Valid()
      ensures Registered(old(entries), name, cls).Err? ==>
        err == Some(Registered(old(entries), name, cls).error) && entries == old(entries)
      ensures Registered(old(entries), name, cls).Ok? ==>
        err == None && entries == Registered(old(entries), name, cls).value
    {
      var n := Normalize(name);
      if n in Keys(entries) {
        return Some(ValueError("Provider already registered: " + n));
      }
      PutNew(entries, n, cls);
      PutDistinct(entries, n, cls);
      entries := entries + [(n, cls)];
      err := None;
    }
  }

  /** The provider settings `get_provider_from_config` does not forward as extras. */
  predicate Reserved(k: string) {
    k == "api_key" || k == "base_url" || k == "model" || k == "max_tokens"
  }

  /** The four parameters set before the extras: `base_url`, `model`, `temperature`, `max_tokens`. */
  function BaseParams(providerConfig: Dict<Json>, temperature: Json): (r: Dict<Json>)
  {
    [("base_url", GetOr(providerConfig, "base_url", JNull)), ("model", GetOr(providerConfig, "model", JNull)),
     ("temperature", temperature), ("max_tokens", GetOr(providerConfig, "max_tokens", DefaultMaxTokens))]
  }

  /** The four base parameters, each found under its key. */
  lemma ParamEntries(baseUrl: Json, model: Json, temperature: Json, maxTokens: Json)
    ensures var r := [("base_url", baseUrl), ("model", model), ("temperature", temperature), ("max_tokens", maxTokens)];
      Keys(r) == ["base_url", "model", "temperature", "max_tokens"] &&
      Get(r, "base_url") == Some(baseUrl) && Get(r, "model") == Some(model) &&
      Get(r, "temperature") == Some(temperature) && Get(r, "max_tokens") == Some(maxTokens) &&
      "api_key" !in Keys(r)
  {
    var r := [("base_url", baseUrl), ("model", model), ("temperature", temperature), ("max_tokens", maxTokens)];
    var ks := ["base_url", "model", "temperature", "max_tokens"];
    assert Keys(r) == ks by {
      assert |Keys(r)| == |ks|;
      forall i | 0 <= i < |ks| ensures Keys(r)[i] == ks[i] {
      }
    }
    assert Distinct(ks) by {
      forall i, j | 0 <= i < j < |ks| ensures ks[i] != ks[j] {
        assert |ks[i]| != |ks[j]|;
      }
    }
    assert "api_key" !in ks by {
      forall i | 0 <= i < |ks| ensures ks[i] != "api_key" {
        assert |ks[i]| != |"api_key"|;
      }
    }
    GetAt(r, 0);
    GetAt(r, 1);
    GetAt(r, 2);
    GetAt(r, 3);
  }

  /** Every setting of `entries` whose key is not reserved, assigned into `params` in order. */
  function WithExtras(entries: Dict<Json>, params: Dict<Json>): (r: Dict<Json>)
    ensures Keys(params) <= Keys(r)
    decreases |entries|
  {
    if entries == [] then params
    else
      var next := if Reserved(entries[0].0) then params else Put(params, entries[0].0, entries[0].1);
      var r := WithExtras(entries[1..], next);
      assert Keys(params) <= Keys(next);
      r
  }

  /** The keyword arguments `get_provider_from_config` passes on. */
  function Params(providerConfig: Dict<Json>, temperature: Json): Dict<Json> {
    WithExtras(providerConfig, BaseParams(providerConfig, temperature))
  }

  /** A reserved key is never assigned by the extras. */
  lemma {:induction false} WithExtrasKeepsReserved(entries: Dict<Json>, params: Dict<Json>, k: string)
    requires Reserved(k)
    ensures Get(WithExtras(entries, params), k) == Get(params, k)
    decreases |entries|
  {
    if entries != [] {
      var next := if Reserved(entries[0].0) then params else Put(params, entries[0].0, entries[0].1);
      WithExtrasKeepsReserved(entries[1..], next, k);
      if !Reserved(entries[0].0) {
        GetPut(params, entries[0].0, entries[0].1, k);
      }
    }
  }

  /** With distinct setting names, a parameter is the setting of that name when it is forwarded, and what it was otherwise. */
  lemma {:induction false} WithExtrasGet(entries: Dict<Json>, params: Dict<Json>, k: string)
    requires Distinct(Keys(entries))
    ensures Get(WithExtras(entries, params), k) ==
      if Reserved(k) || k !in Keys(entries) then Get(params, k) else Get(entries, k)
    decreases |entries|
  {
    if entries != [] {
      var rest := entries[1..];
      assert Keys(entries) == [entries[0].0] + Keys(rest);
      assert Distinct(Keys(rest)) by {
        forall a, b | 0 <= a < b < |rest| ensures Keys(rest)[a] != Keys(rest)[b] {
          assert Keys(entries)[a + 1] != Keys(entries)[b + 1];
        }
      }
      var next := if Reserved(entries[0].0) then params else Put(params, entries[0].0, entries[0].1);
      WithExtrasGet(rest, next, k);
      if !Reserved(entries[0].0) {
        GetPut(params, entries[0].0, entries[0].1, k);
      }
      if k == entries[0].0 {
        assert k !in Keys(rest) by {
          forall b | 0 <= b < |rest| ensures Keys(rest)[b] != k {
            assert Keys(entries)[0] != Keys(entries)[b + 1];
          }
        }
      }
    }
  }

  /** The parameters start with `base_url`, `model`, `temperature` and `max_tokens`, in this order. */
  lemma ParamsOrder(providerConfig: Dict<Json>, temperature: Json)
    ensures ["base_url", "model", "temperature", "max_tokens"] <= Keys(Params(providerConfig, temperature))
  {
    ParamEntries(GetOr(providerConfig, "base_url", JNull), GetOr(providerConfig, "model", JNull), temperature,
      GetOr(providerConfig, "max_tokens", DefaultMaxTokens));
  }

  /** `base_url`, `model` and `max_tokens` are the provider's settings, None, None and 4096 by default; the extras never override them. */
  lemma ParamsFromSettings(providerConfig: Dict<Json>, temperature: Json)
    ensures var p := Params(providerConfig, temperature);
      Get(p, "base_url") == Some(GetOr(providerConfig, "base_url", JNull)) &&
      Get(p, "model") == Some(GetOr(providerConfig, "model", JNull)) &&
      Get(p, "max_tokens") == Some(GetOr(providerConfig, "max_tokens", DefaultMaxTokens))
  {
    var base := BaseParams(providerConfig, temperature);
    var p := Params(providerConfig, temperature);
    ParamEntries(GetOr(providerConfig, "base_url", JNull), GetOr(providerConfig, "model", JNull), temperature,
      GetOr(providerConfig, "max_tokens", DefaultMaxTokens));
    assert Get(p, "base_url") == Get(base, "base_url") by {
      WithExtrasKeepsReserved(providerConfig, base, "base_url");
    }
    assert Get(p, "model") == Get(base, "model") by {
      WithExtrasKeepsReserved(providerConfig, base, "model");
    }
    assert Get(p, "max_tokens") == Get(base, "max_tokens") by {
      WithExtrasKeepsReserved(providerConfig, base, "max_tokens");
    }
  }

  /** The API key is never among the parameters: it is passed on its own. */
  lemma ParamsWithoutApiKey(providerConfig: Dict<Json>, temperature: Json)
    ensures "api_key" !in Keys(Params(providerConfig, temperature))
  {
    var base := BaseParams(providerConfig, temperature);
    ParamEntries(GetOr(providerConfig, "base_url", JNull), GetOr(providerConfig, "model", JNull), temperature,
      GetOr(providerConfig, "max_tokens", DefaultMaxTokens));
    WithExtrasKeepsReserved(providerConfig, base, "api_key");
  }

  /** The temperature is the provider's own setting when it has one, and the `llm` section's otherwise. */
  lemma ParamsTemperature(providerConfig: Dict<Json>, temperature: Json)
    requires Distinct(Keys(providerConfig))
    ensures Get(Params(providerConfig, temperature), "temperature") == Some(GetOr(providerConfig, "temperature", temperature))
  {
    var base := BaseParams(providerConfig, temperature);
    var p := Params(providerConfig, temperature);
    ParamEntries(GetOr(providerConfig, "base_url", JNull), GetOr(providerConfig, "model", JNull), temperature,
      GetOr(providerConfig, "max_tokens", DefaultMaxTokens));
    assert !Reserved("temperature");
    if "temperature" in Keys(providerConfig) {
      assert Get(p, "temperature") == Get(providerConfig, "temperature") by {
        WithExtrasGet(providerConfig, base, "temperature");
      }
    } else {
      assert Get(p, "temperature") == Get(base, "temperature") by {
        WithExtrasGet(providerConfig, base, "temperature");
      }
    }
  }

  /** Every other setting of the provider, `temperature` included, is forwarded as it is. */
  lemma ParamsForwarded(providerConfig: Dict<Json>, temperature: Json)
    requires Distinct(Keys(providerConfig))
    ensures forall k :: !Reserved(k) && k in Keys(providerConfig) ==>
      Get(Params(providerConfig, temperature), k) == Get(providerConfig, k)
  {
    forall k | !Reserved(k) && k in Keys(providerConfig)
      ensures Get(Params(providerConfig, temperature), k) == Get(providerConfig, k)
    {
      WithExtrasGet(providerConfig, BaseParams(providerConfig, temperature), k);
    }
  }

  /** One step of the extras: the first setting is applied, then the rest. */
  lemma WithExtrasStep(entries: Dict<Json>, params: Dict<Json>)
    requires entries != []
    ensures WithExtras(entries, params) ==
      WithExtras(entries[1..], if Reserved(entries[0].0) then params else Put(params, entries[0].0, entries[0].1))
  {
  }

  /** The parameter loop of `get_provider_from_config`: the base parameters, then each forwarded setting in order. */
  method BuildParams(providerConfig: Dict<Json>, temperature: Json) returns (params: Dict<Json>)
    ensures params == Params(providerConfig, temperature)
  {
    params := BaseParams(providerConfig, temperature);
    for i := 0 to |providerConfig|
      invariant WithExtras(providerConfig[i..], params) == Params(providerConfig, temperature)
    {
      WithExtrasStep(providerConfig[i..], params);
      assert providerConfig[i..][0] == providerConfig[i] && providerConfig[i..][1..] == providerConfig[i + 1..];
      var (key, value) := providerConfig[i];
      if !Reserved(key) {
        params := Put(params, key, value);
      }
    }
    assert providerConfig[|providerConfig|..] == [];
  }

  /** The provider a configuration names: its `llm.provider`, "openai" by default. */
  function ConfiguredProvider(llm: LlmSection): (r: string)
    ensures llm.provider.Some? ==> r == llm.provider.value
    ensures llm.provider.None? ==> r == DefaultProvider
  {
    if llm.provider.Some? then llm.provider.value else DefaultProvider
  }

  /** `llm_config.get("providers", {}).get(provider_name, {})` */
  function ProviderSettings(llm: LlmSection, name: string): (r: Dict<Json>)
    ensures llm.providers.Some? && name in Keys(llm.providers.value) ==> Get(llm.providers.value, name) == Some(r)
    ensures llm.providers.None? || name !in Keys(llm.providers.value) ==> r == []
  {
    if llm.providers.None? then []
    else match Get(llm.providers.value, name)
      case Some(s) => s
      case None => []
  }

  /** The key `get_provider_from_config` passes: the configured `api_key` when truthy, else the environment's (possibly empty) value. */
  function FactoryApiKey(providerConfig: Dict<Json>, name: string, env: map<string, string>): (r: Json)
    ensures Truthy(GetOr(providerConfig, "api_key", JStr(""))) ==> r == GetOr(providerConfig, "api_key", JStr(""))
    ensures !Truthy(GetOr(providerConfig, "api_key", JStr(""))) ==>
      r == JStr(if ApiKeyVariable(name) in env then env[ApiKeyVariable(name)] else "")
  {
    var configured := GetOr(providerConfig, "api_key", JStr(""));
    if Truthy(configured) then configured
    else
      var variable := ApiKeyVariable(name);
      JStr(if variable in env then env[variable] else "")
  }

  /** The provider ends up configured exactly when the settings or the environment hold a non-empty key. */
  lemma FactoryKeyConfigured(providerConfig: Dict<Json>, name: string, env: map<string, string>)
    ensures Truthy(FactoryApiKey(providerConfig, name, env)) <==>
      Truthy(GetOr(providerConfig, "api_key", JStr(""))) || EnvSet(env, ApiKeyVariable(name))
  {
  }

  /**
   * `get_provider_from_config` and `ConfigManager.get_provider_api_key`
   * read the key with opposite precedence: when both the settings and the
   * environment hold a different non-empty key, the factory uses the
   * settings' and the manager the environment's.
   */
  lemma KeyPrecedenceDiffers(m: ConfigManager, name: string, env: map<string, string>, key: string)
    requires m.llm.Some? && m.llm.value.providers.Some?
    requires var settings := m.ProviderConfig(Some(name));
      "api_key" in Keys(settings) && Get(settings, "api_key") == Some(JStr(key)) && key != ""
    requires EnvSet(env, ApiKeyVariable(name)) && env[ApiKeyVariable(name)] != key
    ensures m.ProviderApiKey(Some(name), env) == JStr(env[ApiKeyVariable(name)])
    ensures FactoryApiKey(m.ProviderConfig(Some(name)), name, env) == JStr(key)
    ensures m.ProviderApiKey(Some(name), env) != FactoryApiKey(m.ProviderConfig(Some(name)), name, env)
  {
    var settings := m.ProviderConfig(Some(name));
    assert GetOr(settings, "api_key", JStr("")) == JStr(key) && Truthy(JStr(key));
  }

  /**
   * `get_provider_from_config(config)`: RuntimeError without a configuration
   * or an `llm` section; otherwise the configured provider is looked up and
   * built with the assembled key and parameters.
   */
  method GetProviderFromConfig(registry: ProviderRegistry, config: Config, env: map<string, string>)
    returns (r: Result<BaseProvider>)
    ensures !ConfigTruthy(config) || config.llm.None? ==> r == Err(RuntimeError("LLM configuration not found"))
    ensures ConfigTruthy(config) && config.llm.Some? ==>
      var llm := config.llm.value;
      var name := ConfiguredProvider(llm);
      var settings := ProviderSettings(llm, name);
      var params := Params(settings, if llm.temperature.Some? then llm.temperature.value else DefaultTemperature);
      (Lookup(registry.entries, name).Err? ==> r == Err(Lookup(registry.entries, name).error)) &&
      (Lookup(registry.entries, name).Ok? ==>
        r.Ok? && fresh(r.value) && r.value.className == Lookup(registry.entries, name).value &&
        r.value.apiKey == FactoryApiKey(settings, name, env) && r.value.additionalParams == params &&
        r.value.temperature == GetOr(params, "temperature", DefaultTemperature) &&
        r.value.maxTokens == GetOr(params, "max_tokens", DefaultMaxTokens) &&
        r.value.model == SetupValue(GetOr(params, "model", JNull), DefaultModel(r.value.className)) &&
        r.value.baseUrl == SetupValue(GetOr(params, "base_url", JNull), DefaultBaseUrl(r.value.className)) &&
        (Normalize(name) in ["openai", "deepseek"] && registry.entries == InitialRegistry ==>
          (r.value.ValidateConfiguration() <==> Truthy(r.value.apiKey))))
  {
    if !ConfigTruthy(config) || config.llm.None? {
      return Err(RuntimeError("LLM configuration not found"));
    }
    var llm := config.llm.value;
    var name := ConfiguredProvider(llm);
    var settings := ProviderSettings(llm, name);
    var apiKey := FactoryApiKey(settings, name, env);
    var temperature := if llm.temperature.Some? then llm.temperature.value else DefaultTemperature;
    var params := BuildParams(settings, temperature);
    r := registry.GetProvider(name, apiKey, params);
    if r.Ok? && Normalize(name) in ["openai", "deepseek"] && registry.entries == InitialRegistry {
      InitialProviders(name);
      BuiltInValidation(r.value, GetOr(params, "model", JNull));
    }
  }
}
