/**
 * `GET /api/ai/providers` of `app/api/ai/providers/route.ts`: which story
 * backends have credentials, and which one the UI should preselect.
 */
module ProvidersRoute {
  import opened Wrappers
  import opened Providers

  /** `!!process.env[name]`: the variable is set to a non-empty string. */
  predicate HasKey(env: Env, name: string) {
    Lookup(env, name).Some? && Lookup(env, name).value != ""
  }

  /** The JSON body the route answers with. */
  datatype Availability = Availability(openai: bool, anthropic: bool, mock: bool, default: ProviderKind)

  /** Whether the provider of kind `k` can be used under `a`. */
  predicate Available(a: Availability, k: ProviderKind) {
    match k
    case OpenAI => a.openai
    case Anthropic => a.anthropic
    case Mock => a.mock
  }

  /** `GET()` */
  function Get(env: Env): (r: Availability)
    ensures r.openai <==> "OPENAI_API_KEY" in env && env["OPENAI_API_KEY"] != ""
    ensures r.anthropic <==> "ANTHROPIC_API_KEY" in env && env["ANTHROPIC_API_KEY"] != ""
    ensures r.mock
    // the default has credentials, and it is the first available one in the
    // order openai, anthropic, mock
    ensures Available(r, r.default)
    ensures r.default == OpenAI <==> r.openai
    ensures r.default == Anthropic <==> !r.openai && r.anthropic
    ensures r.default == Mock <==> !r.openai && !r.anthropic
  {
    var openai := HasKey(env, "OPENAI_API_KEY");
    var anthropic := HasKey(env, "ANTHROPIC_API_KEY");
    Availability(openai, anthropic, true, if openai then OpenAI else if anthropic then Anthropic else Mock)
  }
}
