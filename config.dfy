/**
 * `lib/ai/config.ts`: per-provider model settings read from the environment,
 * with hard-coded defaults. Number coercion (`Number(v)`) is a parameter:
 * it yields `None` where JavaScript yields `NaN` or an infinity.
 */
module Config {
  import opened Wrappers
  import opened Strings
  import opened Providers

  /** `Number(v)` followed by `Number.isFinite`: the finite value, or `None`. */
  type NumberCoercion = string -> Option<real>

  datatype ProviderConfig = ProviderConfig(
    model: string,
    temperature: real,
    maxTokens: real,
    visionBeats: bool,
    visionPanels: bool)

  const OpenAIDefaults := ProviderConfig("gpt-4o-mini", 0.8, 1200.0, true, false)
  const AnthropicDefaults := ProviderConfig("claude-3-5-sonnet-latest", 0.8, 1200.0, true, false)
  const MockConfig := ProviderConfig("mock:v0", 0.0, 1000.0, false, false)

  predicate IsTruthyWord(s: string) {
    s == "1" || s == "true" || s == "yes" || s == "on"
  }

  predicate IsFalsyWord(s: string) {
    s == "0" || s == "false" || s == "no" || s == "off"
  }

  /** No word is both truthy and falsy. */
  lemma TruthyNotFalsy(s: string)
    ensures !(IsTruthyWord(s) && IsFalsyWord(s))
  {
  }

  /** `bool(v, def)`: an unset variable or an unrecognised word gives the default. */
  function Bool(v: Option<string>, def: bool): (r: bool)
    ensures v.None? ==> r == def
    ensures v.Some? && IsTruthyWord(ToLower(Trim(v.value))) ==> r
    ensures v.Some? && IsFalsyWord(ToLower(Trim(v.value))) ==> !r
    ensures r != def ==> v.Some? && (if def then IsFalsyWord(ToLower(Trim(v.value))) else IsTruthyWord(ToLower(Trim(v.value))))
  {
    if v.None? then def
    else
      var s := ToLower(Trim(v.value));
      TruthyNotFalsy(s);
      if IsTruthyWord(s) then true
      else if IsFalsyWord(s) then false
      else def
  }

  /** `num(v, def)`: the default unless the variable coerces to a finite number. */
  function Num(v: Option<string>, def: real, toNumber: NumberCoercion): (r: real)
    ensures v.None? ==> r == def
    ensures v.Some? && toNumber(v.value).Some? ==> r == toNumber(v.value).value
    ensures v.Some? && toNumber(v.value).None? ==> r == def
  {
    match v
    case None => def
    case Some(s) =>
      match toNumber(s)
      case Some(n) => n
      case None => def
  }

  /** `process.env.X || def` */
  function OrDefault(v: Option<string>, def: string): (r: string)
    ensures v.Some? && v.value != "" ==> r == v.value
    ensures v.None? || v.value == "" ==> r == def
  {
    if v.Some? && v.value != "" then v.value else def
  }

  /** The environment variables one provider's settings are read from. */
  datatype EnvNames = EnvNames(model: string, temperature: string, maxTokens: string, visionBeats: string, visionPanels: string)

  const OpenAINames := EnvNames("OPENAI_MODEL", "OPENAI_TEMPERATURE", "OPENAI_MAX_TOKENS",
                                "OPENAI_VISION_BEATS", "OPENAI_VISION_PANELS")
  const AnthropicNames := EnvNames("ANTHROPIC_MODEL", "ANTHROPIC_TEMPERATURE", "ANTHROPIC_MAX_TOKENS",
                                   "ANTHROPIC_VISION_BEATS", "ANTHROPIC_VISION_PANELS")

  /** The settings for one provider: each variable when set and usable, its default otherwise. */
  function Scoped(env: Env, names: EnvNames, defaults: ProviderConfig, toNumber: NumberCoercion): ProviderConfig {
    ProviderConfig(
      OrDefault(Lookup(env, names.model), defaults.model),
      Num(Lookup(env, names.temperature), defaults.temperature, toNumber),
      Num(Lookup(env, names.maxTokens), defaults.maxTokens, toNumber),
      Bool(Lookup(env, names.visionBeats), defaults.visionBeats),
      Bool(Lookup(env, names.visionPanels), defaults.visionPanels))
  }

  /** `getCfg(kind)` */
  function GetCfg(kind: ProviderKind, env: Env, toNumber: NumberCoercion): (r: ProviderConfig)
    ensures kind == Mock ==> r == MockConfig
    ensures kind == OpenAI ==> r.model == OrDefault(Lookup(env, "OPENAI_MODEL"), "gpt-4o-mini")
    ensures kind == OpenAI ==> r.temperature == Num(Lookup(env, "OPENAI_TEMPERATURE"), 0.8, toNumber)
    ensures kind == OpenAI ==> r.maxTokens == Num(Lookup(env, "OPENAI_MAX_TOKENS"), 1200.0, toNumber)
    ensures kind == OpenAI ==> r.visionBeats == Bool(Lookup(env, "OPENAI_VISION_BEATS"), true)
    ensures kind == OpenAI ==> r.visionPanels == Bool(Lookup(env, "OPENAI_VISION_PANELS"), false)
    ensures kind == Anthropic ==> r.model == OrDefault(Lookup(env, "ANTHROPIC_MODEL"), "claude-3-5-sonnet-latest")
    ensures kind == Anthropic ==> r.temperature == Num(Lookup(env, "ANTHROPIC_TEMPERATURE"), 0.8, toNumber)
    ensures kind == Anthropic ==> r.maxTokens == Num(Lookup(env, "ANTHROPIC_MAX_TOKENS"), 1200.0, toNumber)
    ensures kind == Anthropic ==> r.visionBeats == Bool(Lookup(env, "ANTHROPIC_VISION_BEATS"), true)
    ensures kind == Anthropic ==> r.visionPanels == Bool(Lookup(env, "ANTHROPIC_VISION_PANELS"), false)
  {
    match kind
    case OpenAI => Scoped(env, OpenAINames, OpenAIDefaults, toNumber)
    case Anthropic => Scoped(env, AnthropicNames, AnthropicDefaults, toNumber)
    case Mock => MockConfig
  }

  /* -------------------------------- lemmas -------------------------------- */

  /** Once the word is recognised, the default no longer matters. */
  lemma BoolRecognisedIgnoresDefault(s: string)
    requires IsTruthyWord(ToLower(Trim(s))) || IsFalsyWord(ToLower(Trim(s)))
    ensures Bool(Some(s), true) == Bool(Some(s), false)
  {
  }

  /** Writing a flag as "true" or "false" reads it back, whatever the default. */
  lemma BoolRoundTrip(b: bool, def: bool)
    ensures Bool(Some(if b then "true" else "false"), def) == b
  {
    var w := if b then "true" else "false";
    assert w[0] == 't' || w[0] == 'f';
    assert w[|w| - 1] == 'e';
    assert IsTrimmed(w);
    TrimTrimmed(w);
    assert ToLower(w) == w;
  }

  function ScopedKeys(names: EnvNames): set<string> {
    {names.model, names.temperature, names.maxTokens, names.visionBeats, names.visionPanels}
  }

  /** With none of its variables set, a live provider gets exactly its default table. */
  lemma GetCfgDefaults(kind: ProviderKind, env: Env, toNumber: NumberCoercion)
    requires kind == OpenAI ==> forall k :: k in ScopedKeys(OpenAINames) ==> k !in env
    requires kind == Anthropic ==> forall k :: k in ScopedKeys(AnthropicNames) ==> k !in env
    ensures GetCfg(kind, env, toNumber) ==
              match kind
              case OpenAI => OpenAIDefaults
              case Anthropic => AnthropicDefaults
              case Mock => MockConfig
  {
  }

  /** "0" and "1" are read as false and true, whatever the default. */
  lemma BoolDigits(def: bool)
    ensures Bool(Some("0"), def) == false && Bool(Some("1"), def) == true
  {
    BoolDigit("0", def);
    BoolDigit("1", def);
  }

  lemma BoolDigit(d: string, def: bool)
    requires d == "0" || d == "1"
    ensures Bool(Some(d), def) == (d == "1")
  {
    assert IsTrimmed(d);
    TrimTrimmed(d);
    assert ToLower(d) == d;
  }

  /**
   * The "should read OpenAI env vars" case of the config tests, as a lemma: an instance of
   * `GetCfg`'s per-field contract, kept as a mirror of that test.
   */
  lemma GetCfgReadsOpenAIEnv(env: Env, toNumber: NumberCoercion)
    requires Lookup(env, "OPENAI_MODEL") == Some("gpt-4")
    requires Lookup(env, "OPENAI_TEMPERATURE") == Some("0.5") && toNumber("0.5") == Some(0.5)
    requires Lookup(env, "OPENAI_MAX_TOKENS") == Some("2000") && toNumber("2000") == Some(2000.0)
    requires Lookup(env, "OPENAI_VISION_BEATS") == Some("false")
    requires Lookup(env, "OPENAI_VISION_PANELS") == Some("true")
    ensures GetCfg(OpenAI, env, toNumber) == ProviderConfig("gpt-4", 0.5, 2000.0, false, true)
  {
    BoolRoundTrip(false, true);
    BoolRoundTrip(true, false);
  }

  /** The "should read Anthropic env vars" case of the config tests, flags written as digits: likewise a mirror of that test. */
  lemma GetCfgReadsAnthropicEnv(env: Env, toNumber: NumberCoercion)
    requires Lookup(env, "ANTHROPIC_MODEL") == Some("claude-3-opus")
    requires Lookup(env, "ANTHROPIC_TEMPERATURE") == Some("0.7") && toNumber("0.7") == Some(0.7)
    requires Lookup(env, "ANTHROPIC_MAX_TOKENS") == Some("3000") && toNumber("3000") == Some(3000.0)
    requires Lookup(env, "ANTHROPIC_VISION_BEATS") == Some("0")
    requires Lookup(env, "ANTHROPIC_VISION_PANELS") == Some("1")
    ensures GetCfg(Anthropic, env, toNumber) == ProviderConfig("claude-3-opus", 0.7, 3000.0, false, true)
  {
    BoolDigits(true);
    BoolDigits(false);
  }

  /** The mock settings do not read the environment. */
  lemma GetCfgMockIgnoresEnv(env1: Env, env2: Env, n1: NumberCoercion, n2: NumberCoercion)
    ensures GetCfg(Mock, env1, n1) == GetCfg(Mock, env2, n2)
  {
  }

  /** A provider's settings depend only on its own variables. */
  lemma GetCfgScoped(kind: ProviderKind, env1: Env, env2: Env, toNumber: NumberCoercion)
    requires kind == OpenAI ==> forall k :: k in ScopedKeys(OpenAINames) ==> Lookup(env1, k) == Lookup(env2, k)
    requires kind == Anthropic ==> forall k :: k in ScopedKeys(AnthropicNames) ==> Lookup(env1, k) == Lookup(env2, k)
    ensures GetCfg(kind, env1, toNumber) == GetCfg(kind, env2, toNumber)
  {
  }
}
