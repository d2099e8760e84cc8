/**
 * The provider vocabulary of `lib/ai/providers.ts`: the `Photo` and
 * `TitleNarrative` records every provider exchanges, the three provider
 * kinds, the explicit factory `getProvider` and the environment-driven
 * `getStoryProvider`.
 */
module Providers {
  import opened Wrappers
  import opened Strings

  datatype Photo = Photo(id: string, url: string, caption: Option<string>)

  datatype TitleNarrative = TitleNarrative(title: string, narrative: string)

  /** The process environment: variable name to value. */
  type Env = map<string, string>

  /** `process.env[name]`, `None` when unset. */
  function Lookup(env: Env, name: string): (r: Option<string>)
    ensures r.Some? <==> name in env
    ensures r.Some? ==> r.value == env[name]
  {
    if name in env then Some(env[name]) else None
  }

  datatype ProviderKind = OpenAI | Anthropic | Mock

  function KindName(k: ProviderKind): string {
    match k
    case OpenAI => "openai"
    case Anthropic => "anthropic"
    case Mock => "mock"
  }

  /** The provider class a factory instantiates. */
  datatype ProviderImpl = OpenAIProvider | AnthropicProvider | MockProvider

  /** `getProvider(kind)`: openai and anthropic get their own class, everything else the mock. */
  function GetProvider(kind: ProviderKind): (r: ProviderImpl)
    ensures kind == OpenAI <==> r == OpenAIProvider
    ensures kind == Anthropic <==> r == AnthropicProvider
    ensures kind == Mock <==> r == MockProvider
  {
    match kind
    case OpenAI => OpenAIProvider
    case Anthropic => AnthropicProvider
    case Mock => MockProvider
  }

  /** The kind `getStoryProvider` picks for the raw `AI_PROVIDER` value `v`. */
  function StoryProviderKind(v: Option<string>): (k: ProviderKind)
    ensures v.None? || v == Some("") ==> k == Mock
    ensures v.Some? && ToLower(v.value) == "openai" ==> k == OpenAI
    ensures v.Some? && ToLower(v.value) == "anthropic" ==> k == Anthropic
    ensures k != Mock ==> v.Some? && ToLower(v.value) == KindName(k)
  {
    var p := ToLower(if v.None? || v.value == "" then "mock" else v.value);
    if p == "openai" then OpenAI
    else if p == "anthropic" then Anthropic
    else Mock
  }

  /** `getStoryProvider()`: the provider selected by `AI_PROVIDER`. */
  function GetStoryProvider(env: Env): ProviderImpl {
    GetProvider(StoryProviderKind(Lookup(env, "AI_PROVIDER")))
  }

  lemma LowerUpperChar(c: char)
    ensures LowerChar(UpperChar(c)) == LowerChar(c)
  {
  }

  /** The choice ignores ASCII case: "OPENAI", "OpenAI" and "openai" select the same provider. */
  lemma StoryProviderKindIgnoresCase(s: string)
    ensures StoryProviderKind(Some(ToUpper(s))) == StoryProviderKind(Some(s))
  {
    assert ToLower(ToUpper(s)) == ToLower(s) by {
      forall k | 0 <= k < |s|
        ensures ToLower(ToUpper(s))[k] == ToLower(s)[k]
      {
        LowerUpperChar(s[k]);
      }
    }
  }

  /** Setting `AI_PROVIDER` to a kind's own name selects that kind. */
  lemma StoryProviderKindOfName(k: ProviderKind)
    ensures StoryProviderKind(Some(KindName(k))) == k
  {
    var n := KindName(k);
    assert ToLower(n) == n;
  }
}
