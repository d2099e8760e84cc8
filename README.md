# Comic generation output contract, in Dafny

This project models the part of the photo-to-comic web application that
turns free-form text from a language-model backend into a typed,
size-bounded comic, together with the small routes and helpers around it:

- **Strict-JSON extraction** (`safeJson`): code fences are stripped, the
  text between the first `{`/`[` and the last `}`/`]` is cut out, and the
  result goes to a JSON parser. The parser itself is a function parameter.
- **Schema validation** (`validateBeats`, `validatePanels`, the caption
  schema, the story request body). Each is a decoder from parsed JSON that
  keeps the fields the schema names. Each comes with a round-trip lemma:
  encoding a value and decoding it again gives the value back exactly when
  it satisfies the schema.
- **Photo-coverage repair** (`enforcePhotoCoverage`). This is an in-place
  algorithm over an `array` of panels. It uses a count map and a
  donor-candidate walk, and is proved against invariants on the counts.
- **Comic caps** (`clampWords`, `enforceComicCaps`, and the local copies in
  the two live providers). Words are clamped to a budget with an
  ellipsis, and panel bubbles are limited to a count.
- **Title and narrative parsing** (`parseTitleNarrative`), with a
  render-then-parse round trip.
- **Providers**: the environment-driven configuration table (`getCfg`),
  provider dispatch (`getProvider`, `getStoryProvider`), the deterministic
  mock provider, and the post-processing pipeline of the OpenAI and
  Anthropic providers after the SDK call.
- **Routes**:
  - `POST /api/story`: body defaults, knob defaults, title and narrative
    fallbacks, and the READY/ERROR outcome.
  - `GET /api/ai/providers`.
  - `POST /api/unlock` and the site `middleware` password gate.
  - `POST /api/rooms`, with random room codes.
  - `POST /api/photos`: metadata validation and clamping.
- **Component helpers**: `fallbackWH` and `thumb` of the gallery, and
  `normalizedCode` and `openRoom` of the room switcher.

Every backend reply, database lookup and random source is a parameter:
- the reply content is an `Option<string>`, or a list of content blocks for
  Anthropic;
- the text parser is `Parser = string -> Option<Json>`;
- `Number()` coercion is `NumberCoercion`;
- `new URL` is `UrlParser`;
- the story generation step is `generate: GenRequest -> Generated`;
- `crypto.randomBytes` is a byte sequence.

JSON numbers are exact reals (`JNum(real)`), so zod's `.int()` is
`Json.IsInt`. `provider-openai.ts:10-12` imports `COMIC_LIMITS` from
`structured.ts` and `AI_CFG` from `config.ts`, but neither file defines
them. Their values are therefore parameters (`LiveProviders.ComicLimits`,
and the configured model of `LiveProviders.OpenAIModel`).

One module per source file:

| Dafny file | models |
|---|---|
| `wrappers.dfy`, `strings.dfy`, `json.dfy` | `Option`/`Result`; JavaScript `trim`, `split`, `join`, `slice`, `toUpperCase`/`toLowerCase`, `String(n)`; parsed JSON values |
| `structured.dfy` | `src/lib/ai/structured.ts` |
| `comic.dfy` | `src/lib/ai/comic.ts` |
| `panels.dfy` | `src/lib/ai/panels.ts` |
| `text.dfy` | `src/lib/ai/text.ts` |
| `config.dfy` | `src/lib/ai/config.ts` |
| `providers.dfy` | `src/lib/ai/providers.ts` |
| `provider_mock.dfy` | `src/lib/ai/provider-mock.ts` |
| `live_providers.dfy` | `src/lib/ai/provider-openai.ts`, `src/lib/ai/provider-anthropic.ts` |
| `captions.dfy` | `src/lib/ai/captions-openai.ts` |
| `story_route.dfy` | `src/app/api/story/route.ts` |
| `providers_route.dfy` | `src/app/api/ai/providers/route.ts` |
| `story_llm.dfy` | `src/lib/story-llm.ts` |
| `middleware.dfy` | `src/middleware.ts` |
| `unlock_route.dfy` | `src/app/api/unlock/route.ts` |
| `rooms_route.dfy` | `src/app/api/rooms/route.ts` |
| `photos_route.dfy` | `src/app/api/photos/route.ts` |
| `gallery.dfy` | `src/components/GalleryLive.tsx` |
| `room_switcher.dfy` | `src/components/RoomSwitcher.tsx` |

### Where the tests and the code differ

The model follows the code where the repository's tests expect something
else:
- `structured.test.ts:100-110` expects bubbles given as bare strings to
  become `{text}` objects. The bubble schema (`structured.ts:26-30`)
  rejects them, and `validatePanels` does not normalise them.
- A comment in `structured.test.ts:129` says the schema allows at most 2
  bubbles. The panel schema allows 3 (`structured.ts:36`), narration up to
  280 characters and bubble text up to 100.
- `validatePanels` returns the parsed list as is
  (`structured.ts:26-40`). It does not re-slice bubbles or panels after
  validation.

Other tests describe behaviour the code does not have:
- The story route test expects a plain-string narrative to be stored as
  "". The route stores the string itself (`StoryRoute.NarrativeOf`).
- The story route test mocks `getStoryProvider`, but the route calls
  `getProvider`.
- The mock provider test expects a title object from `genNarrative`. The
  mock returns a string.
- Config and provider tests import `getModelForQuality` and
  `resolveDefaultProvider`, which the code does not define.
- The photos route test expects upper-casing and `takenAt` validation,
  which the route does not perform.

## Model

| member | source | states |
|---|---|---|
| Structured.ParseBeatType | src/lib/ai/structured.ts:7-15 | a beat type is accepted only if it is one of the seven enum names, and parses back to the name it was read from |
| Structured.BeatTypeRoundTrip | src/lib/ai/structured.ts:7-15 | every beat type's name parses back to that type |
| Structured.DecodeBeat | src/lib/ai/structured.ts:17-23 | a decoded beat has an integer index ≥ 0, a summary of 1..300 characters, non-empty callouts and non-negative image refs |
| Structured.DecodePanel | src/lib/ai/structured.ts:32-39 | a decoded panel satisfies every field constraint of the panel schema: non-empty photoId, narration 1..280, ≤ 3 valid bubbles, non-empty sfx, alt 1..160 |
| Structured.DecodeBubble | src/lib/ai/structured.ts:26-30 | a decoded bubble has a non-empty speaker when present and text of 1..100 characters |
| Structured.ValidateBeats | src/lib/ai/structured.ts:17-24 | success implies 3..12 valid beats; any rejection is a schema failure |
| Structured.ValidatePanels | src/lib/ai/structured.ts:26-40 | success implies 1..24 valid panels; any rejection is a schema failure |
| Structured.BeatRoundTrip | src/lib/ai/structured.ts:17-23 | decoding an encoded beat returns it exactly when it is valid, and fails otherwise |
| Structured.BeatsRoundTrip | src/lib/ai/structured.ts:17-24 | `validateBeats` of an encoded beat list returns the list unchanged exactly when it is valid |
| Structured.BubbleRoundTrip | src/lib/ai/structured.ts:26-30 | decoding an encoded bubble returns it exactly when it is valid |
| Structured.BubblesRoundTrip | src/lib/ai/structured.ts:38 | an encoded bubble list decodes to itself exactly when it has ≤ 3 valid bubbles |
| Structured.PanelRoundTrip | src/lib/ai/structured.ts:32-39 | decoding an encoded panel returns it exactly when it is valid |
| Structured.PanelsRoundTrip | src/lib/ai/structured.ts:26-40 | `validatePanels` of an encoded panel list returns the list unchanged exactly when it is valid |
| Structured.StringsRoundTrip | src/lib/ai/structured.ts:21 | a string array decodes to itself exactly when no element is empty |
| Structured.IndexesRoundTrip | src/lib/ai/structured.ts:22 | an integer array decodes to itself exactly when no element is negative |
| Structured.FirstOpener | src/lib/ai/structured.ts:52-57 | the result is the earliest `{` or `[` at or after the start position, and None when there is none |
| Structured.LastCloser | src/lib/ai/structured.ts:58 | the result is the latest `}` or `]` before the bound, and None when there is none |
| Structured.EmbeddedRoundTrip | src/lib/ai/structured.ts:51-59 | bracketed JSON text surrounded by bracket-free prose is cut out exactly |
| Structured.SliceAround | src/lib/ai/structured.ts:52-59 | the slice runs from the earliest opener to the latest closer, inclusive |
| Structured.FencedRoundTrip | src/lib/ai/structured.ts:51 | a body wrapped in a ```` ``` ```` or ```` ```json ```` fence comes out of fence stripping unchanged |
| Structured.FencedSlice | src/lib/ai/structured.ts:51-59 | a fenced reply yields the same parsed text as the bare body |
| Structured.UnfenceOfTrimmed | src/lib/ai/structured.ts:51 | surrounding whitespace never changes the de-fenced text |
| Structured.SafeJsonBlank | src/lib/ai/structured.ts:51-60 | empty or whitespace-only input makes `safeJson` fail with a syntax error |
| Structured.EmptyObjectSlice | src/lib/ai/structured.ts:51-59 | the fallback text "{}" reaches the parser unchanged |
| Comic.PresetFor | src/lib/ai/comic.ts:6-14 | the kids preset is 10 narration words, 8 bubble words and 2 bubbles; the adults preset is 12, 10 and 2; both have 6 panels |
| Comic.StripTrailingPunct | src/lib/ai/comic.ts:19 | only a trailing run of `.,;:!?-` is removed, all of it, and the result is a prefix of the input |
| Comic.ClampKeepsFitting | src/lib/ai/comic.ts:17-18 | for max ≥ 1, the result is the trimmed input exactly when the input has at most max words |
| Comic.ClampOverBudget | src/lib/ai/comic.ts:19 | over budget, the result's words are the first max words with trailing punctuation replaced by "…"; the result is trimmed and ends with "…" |
| Comic.ClampIsJoin | src/lib/ai/comic.ts:19 | over budget, the result is the clamped word list joined by single spaces |
| Comic.ClampBlank | src/lib/ai/comic.ts:17-18 | empty or whitespace-only input clamps to "" |
| Comic.ClampZero | src/lib/ai/comic.ts:16-19 | a zero budget yields "…" alone |
| Comic.ClampBound | src/lib/ai/comic.ts:16-20 | for max ≥ 1, the result has at most max words |
| Comic.ClampIdempotent | src/lib/ai/comic.ts:16-20 | clamping twice with the same budget equals clamping once |
| Comic.CapNarration | src/lib/ai/comic.ts:24 | absent narration stays absent, empty narration is kept, and any other narration is clamped |
| Comic.CapBubbles | src/lib/ai/comic.ts:25-27 | the first `min(n, count)` bubbles are kept in order, each clamped, with speaker and aside unchanged |
| Comic.CapPanel | src/lib/ai/comic.ts:23-28 | index, photoId, sfx and alt are unchanged; narration is capped; absent bubbles become [] |
| Comic.EnforceComicCaps | src/lib/ai/comic.ts:22-29 | the panel count is kept and each panel is capped in place; the default preset is kids |
| Comic.CapsBound | src/lib/ai/comic.ts:22-29 | every capped panel has at most `bubblesPerPanel` bubbles, and narration and bubbles within their word budgets |
| Comic.CapsIdempotent | src/lib/ai/comic.ts:22-29 | applying the caps twice equals applying them once |
| Panels.Refs | src/lib/ai/panels.ts:17-20 | the number of panels pointing at a photo never exceeds the panel count |
| Panels.RefCounts | src/lib/ai/panels.ts:12-20 | the count map has exactly the photo ids as keys, each mapped to its reference count |
| Panels.Missing | src/lib/ai/panels.ts:23 | the missing list holds exactly the ids with count 0, without duplicates when the ids are distinct (its photo order is stated by MissingConcat and MissingSingle) |
| Panels.MissingConcat | src/lib/ai/panels.ts:23 | the unused ids of a concatenated photo list are those of the first part followed by those of the second: the filter keeps photo order |
| Panels.MissingSingle | src/lib/ai/panels.ts:23 | a single photo id is kept exactly when its count is 0 |
| Panels.Candidates | src/lib/ai/panels.ts:27-29 | the candidates are, in panel order, the panels whose photo is used more than once |
| Panels.CountUsage | src/lib/ai/panels.ts:12-20 | the loop builds exactly the reference-count map of the panels |
| Panels.Swap | src/lib/ai/panels.ts:39-45 | one reassignment moves the candidate panel to the next missing id and updates both counts |
| Panels.Reassign | src/lib/ai/panels.ts:32-46 | starting from the counted panels, the donor walk keeps the repair invariant and stops when the missing ids or the candidates run out |
| Panels.Cover | src/lib/ai/panels.ts:22-46 | given the reference counts: with no unused photo the panels are unchanged; otherwise a changed panel moved only its photoId from an over-used photo to an unused one, a used photo stays used, and with distinct ids each unused photo gets at most one panel, in photo order, until every photo is used or none is used twice |
| Panels.EnforcePhotoCoverage | src/lib/ai/panels.ts:9-49 | the same array is returned and is repaired in place. With nothing missing, or with no panels or no photos, it is unchanged. A changed panel moved only its photoId, from an over-used photo to an unused one. A used photo stays used. With distinct ids, each missing photo gets at most one panel, and missing photos are covered in photo order. The repair stops only when every photo is used or no photo is used twice |
| Text.ParseTitleNarrative | src/lib/ai/text.ts:2-22 | the title is never empty and the narrative is trimmed; blank input gives {"Untitled Story", ""} |
| Text.TitleIsOneLine | src/lib/ai/text.ts:12-13 | the title is a single trimmed line |
| Text.SingleLine | src/lib/ai/text.ts:7-19 | single-line input yields an empty narrative, and its title is that line without a "Title:" label |
| Text.TitleOfLine | src/lib/ai/text.ts:12-13 | a first line made of "Title:" in any letter case, any whitespace and the title, or of the title alone, gives back the title |
| Text.ShoutedLabel | src/lib/ai/text.ts:13 | "TITLE: My Story" gives the title "My Story" |
| Text.ParseRender | src/lib/ai/text.ts:2-22 | rendering a title and paragraphs, unlabelled or after a "Title:" label in any letter case, and parsing the result gives back the title and the paragraphs joined by blank lines |
| Text.SplitJoinBlocks | src/lib/ai/text.ts:7 | splitting on blank lines undoes joining paragraphs with "\n\n" |
| Text.SameBlockRemainder | src/lib/ai/text.ts:15-19 | a title line followed, with no blank line, by further lines of its block gives that title and the rest of the block, trimmed, as the narrative |
| Config.Bool | src/lib/ai/config.ts:4-10 | absent gives the default; after trim and lower-casing, 1/true/yes/on give true and 0/false/no/off give false; any other value gives the default |
| Config.BoolRecognisedIgnoresDefault | src/lib/ai/config.ts:6-8 | a recognised word decides the value regardless of the default |
| Config.BoolRoundTrip | src/lib/ai/config.ts:6-8 | "true" and "false" read back as the booleans they name |
| Config.Num | src/lib/ai/config.ts:11-14 | the coerced number when it is finite, otherwise the default |
| Config.OrDefault | src/lib/ai/config.ts:64 | a set, non-empty variable wins; otherwise the default |
| Config.GetCfg | src/lib/ai/config.ts:61-88 | mock ignores the environment; for OpenAI and Anthropic each of the five settings is read from its own scoped variable: the model by `||` with its default, temperature and max tokens by `num`, the two vision flags by `bool`, each with the provider's default |
| Config.BoolDigits | src/lib/ai/config.ts:6-8 | "0" reads as false and "1" as true, whatever the default |
| Config.GetCfgReadsOpenAIEnv | src/lib/ai/config.test.ts:55-68 | with all five OpenAI variables set, the settings are exactly the values written (gpt-4, 0.5, 2000, false, true) |
| Config.GetCfgReadsAnthropicEnv | src/lib/ai/config.test.ts:70-83 | with all five Anthropic variables set, flags as "0"/"1", the settings are exactly the values written |
| Config.GetCfgDefaults | src/lib/ai/config.ts:45-88 | with no provider-scoped variables set, the result is exactly the OpenAI, Anthropic or mock default table |
| Config.GetCfgMockIgnoresEnv | src/lib/ai/config.ts:80-87 | the mock config is the same under any environment |
| Config.GetCfgScoped | src/lib/ai/config.ts:61-79 | only the provider's own scoped variables influence its config |
| Providers.GetProvider | src/lib/ai/providers.ts:44-55 | openai maps to the OpenAI provider, anthropic to the Anthropic provider, and mock to the mock provider, each if and only if |
| Providers.StoryProviderKind | src/lib/ai/providers.ts:61-66 | unset or empty gives mock; "openai" and "anthropic", in any case, select those providers; anything else gives mock |
| Providers.StoryProviderKindIgnoresCase | src/lib/ai/providers.ts:62 | upper-casing `AI_PROVIDER` never changes the selection |
| Providers.StoryProviderKindOfName | src/lib/ai/providers.ts:62-65 | each kind's own name selects that kind |
| ProviderMock.BeatCount | src/lib/ai/provider-mock.ts:10 | the beat count lies in 5..7 and equals the photo count when that is in range |
| ProviderMock.GenBeats | src/lib/ai/provider-mock.ts:9-23 | beat i has index i and is never a twist; its image ref is `i mod max(1, #photos)`, a valid photo index when there are photos |
| ProviderMock.GenBeatsValid | src/lib/ai/provider-mock.ts:9-23 | the mock's beats pass the beats schema |
| ProviderMock.GenBeatsArc | src/lib/ai/provider-mock.ts:11-14 | the first beat is setup; the last is resolution for five beats and button otherwise |
| ProviderMock.GenPanels | src/lib/ai/provider-mock.ts:25-43 | exactly panelCount panels with index i and photoId `photos[i mod n]`; even panels have 1 bubble, an sfx and the first narration, odd ones 2 bubbles, no sfx and the second; panel i's alt text is built from beat `i mod #beats`; with no photos or no beats it fails (the source throws) |
| ProviderMock.AltNamesBeat | src/lib/ai/provider-mock.ts:40 | the alt text is "Panel ", the 1-based panel number, then " reflecting beat " and the beat's type, which parses back to that type |
| ProviderMock.GenPanelsPhotos | src/lib/ai/provider-mock.ts:29-32 | every mock panel points at a supplied photo |
| ProviderMock.GenPanelsValid | src/lib/ai/provider-mock.ts:25-43 | for 1..24 panels, the mock's panels pass the panels schema |
| ProviderMock.GenNarrative | src/lib/ai/provider-mock.ts:45-53 | the style, defaulting to "quirky, kid-friendly", appears at position 5 |
| ProviderMock.GenNarrativeHasArc | src/lib/ai/provider-mock.ts:47-52 | the beat types joined by " → " appear inside the narrative's parentheses |
| ProviderMock.ModelNameMatchesConfig | src/lib/ai/provider-mock.ts:6-7 | the mock's model name equals the mock config's model, and its provider name is "mock" |
| LiveProviders.LivePreset | src/lib/ai/provider-openai.ts:43-56 | narration is clamped to min(12, narrationMax) words and bubbles to min(10, bubbleTextMax) words; bubblesPerPanel is taken as configured |
| LiveProviders.FirstText | src/lib/ai/provider-anthropic.ts:131-132 | the first content block's text is used exactly when that block exists and is a text block |
| LiveProviders.Prop | src/lib/ai/provider-openai.ts:154-155 | reading a property of a parsed `null` throws; otherwise it is the object's own property |
| LiveProviders.BeatsFrom | src/lib/ai/provider-openai.ts:153-155 | success implies 3..12 valid beats taken from a `beats` property; a parse failure or a `null` reply is an error |
| LiveProviders.ValidatedPanels | src/lib/ai/provider-openai.ts:233-237 | success implies 1..24 valid panels taken from a `panels` property; a parse failure or a `null` reply is an error |
| LiveProviders.AbsentReplyFailsSchema | src/lib/ai/provider-anthropic.ts:131-134 | absent OpenAI content, or a missing or non-text first Anthropic block, makes both beats and panels fail schema validation |
| LiveProviders.PhotoFallback | src/lib/ai/provider-openai.ts:246-253 | only photoId changes. A known, non-empty id is kept, and any other becomes `photos[i mod n].id`. With no photos and some panels it fails (the source throws) |
| LiveProviders.FallbackAllKnown | src/lib/ai/provider-anthropic.ts:217-224 | after the fallback, every panel points at a supplied photo |
| LiveProviders.FallbackIdentity | src/lib/ai/provider-openai.ts:246-253 | panels that already point at known photos are returned unchanged |
| LiveProviders.FallbackIdempotent | src/lib/ai/provider-openai.ts:246-253 | applying the fallback twice equals applying it once |
| LiveProviders.Repair | src/lib/ai/provider-openai.ts:240 | the panels carry every promise of the in-place coverage repair: only photoIds change, from over-used to unused photos; a used photo stays used; nothing changes when no photo is unused; with distinct ids, unused photos are covered at most once each, in photo order, until every photo is used or none is used twice |
| LiveProviders.GenPanels | src/lib/ai/provider-openai.ts:233-253 | validation errors propagate, and no photos is an error. Otherwise the result is the `photos[i mod n]` fallback applied to the capped panels of a coverage repair of the validated panels: 1..24 panels, each the capped validated panel with a supplied photo id, and every photo the reply used still used |
| LiveProviders.GenPanelsCapped | src/lib/ai/provider-anthropic.ts:208-224 | each output panel has at most bubblesPerPanel bubbles, narration within min(12, narrationMax) words and bubbles within min(10, bubbleTextMax) words |
| LiveProviders.OpenAINarrative | src/lib/ai/provider-openai.ts:296-297 | absent content gives {"Untitled Story", ""}; the title is never empty and the narrative is trimmed |
| LiveProviders.AnthropicNarrative | src/lib/ai/provider-anthropic.ts:262-266 | a non-text or missing first block gives {"Untitled Story", ""}; the title is never empty and the narrative is trimmed |
| LiveProviders.NarrativePretrimRedundant | src/lib/ai/provider-openai.ts:296-297 | trimming before `parseTitleNarrative` changes nothing |
| LiveProviders.NarrativesAgree | src/lib/ai/provider-anthropic.ts:262-266 | both providers derive the same title and narrative from the same reply text |
| LiveProviders.OpenAIModel | src/lib/ai/provider-openai.ts:58 | the model is the configured one when non-empty, else "gpt-4o-mini", and never empty |
| LiveProviders.AnthropicModelIsConfigured | src/lib/ai/provider-anthropic.ts:57-58 | the "claude-3-5-sonnet" fallback is never reached: the model is always `getCfg("anthropic").MODEL` |
| LiveProviders.ProviderNames | src/lib/ai/provider-openai.ts:65-67 | the provider `getProvider(k)` builds reports `k`'s own name, and that name, as `AI_PROVIDER`, selects the same provider again |
| Captions.MaxTokens | src/lib/ai/captions-openai.ts:49 | `max_tokens` is min(4000, max(500, 150·n)): 500 for ≤ 3 photos, 150·n for 4..26, 4000 beyond |
| Captions.DecodeItem | src/lib/ai/captions-openai.ts:11-15 | a decoded item has an integer index ≥ 0, a caption of 1..240 characters and 1..8 non-empty tags |
| Captions.DecodeReply | src/lib/ai/captions-openai.ts:9-17 | every decoded item is valid |
| Captions.ReplyRoundTrip | src/lib/ai/captions-openai.ts:9-17 | an encoded reply decodes to its items exactly when all of them are valid |
| Captions.Output | src/lib/ai/captions-openai.ts:65-69 | the output id is `photos[index].id`, the caption is trimmed, and the tags are the first six |
| Captions.Selected | src/lib/ai/captions-openai.ts:62-64 | only items whose index names a photo are kept, in reply order |
| Captions.MapBack | src/lib/ai/captions-openai.ts:61-72 | one output per in-range item, in order; each is that item's output |
| Captions.MapBackLoop | src/lib/ai/captions-openai.ts:61-72 | the push loop computes exactly the mapped-back list |
| Captions.MapBackAllInRange | src/lib/ai/captions-openai.ts:62-71 | when every index is in range, nothing is dropped |
| Captions.CaptionPhotos | src/lib/ai/captions-openai.ts:19-73 | the result is that of the caption pipeline on the trimmed reply, with "{}" for absent content |
| Captions.CaptionsSound | src/lib/ai/captions-openai.ts:52-72 | every returned caption points at a supplied photo, is trimmed, and has 1..6 non-empty tags |
| Captions.CaptionsRoundTrip | src/lib/ai/captions-openai.ts:52-72 | a well-formed reply whose indexes are in range yields one output per item, in order |
| Captions.CaptionsSyntaxError | src/lib/ai/captions-openai.ts:54 | unparsable reply text is a syntax error |
| Captions.CaptionsAbsentReply | src/lib/ai/captions-openai.ts:52-58 | absent content parses as "{}", fails the schema, and gives [] |
| Captions.CaptionModelMatchesConfig | src/lib/ai/captions-openai.ts:21 | the caption model is the OpenAI config's model, and is never empty |
| StoryRoute.KindOf | src/app/api/story/route.ts:25 | only "openai", "anthropic" and "mock" are accepted, each mapped to its own kind |
| StoryRoute.AudienceOf | src/app/api/story/route.ts:22 | only "kids" and "adults" are accepted |
| StoryRoute.DecodePanelCount | src/app/api/story/route.ts:28 | an explicit panelCount is an integer in 1..24 |
| StoryRoute.DecodeBody | src/app/api/story/route.ts:12-31 | every accepted body satisfies the schema: a non-empty roomCode and ownerHandle, and a panelCount in 1..24 |
| StoryRoute.BodyRoundTrip | src/app/api/story/route.ts:12-31 | an encoded body decodes to itself exactly when it is valid |
| StoryRoute.BodyDefaults | src/app/api/story/route.ts:12-27 | with only a roomCode: the owner is "devuser", the comic audience is kids, and the provider is `AI_PROVIDER`, else "openai"; an `AI_PROVIDER` outside the enum rejects the body |
| StoryRoute.DefaultPanelCount | src/app/api/story/route.ts:102 | an omitted panelCount is min(6, max(#photos, 4)), in 4..6 |
| StoryRoute.RequestFor | src/app/api/story/route.ts:101-104 | the provider comes from `getProvider(input.provider)`, and each photo is passed as `{id, storageUrl}` |
| StoryRoute.RequestBounds | src/app/api/story/route.ts:72-138 | 1..12 photos in stored order and 1..24 panels (4..6 when defaulted). Omitted knobs default: audience to "kids-10-12"/"adults", tone to "wholesome"/"witty", style to "funny" |
| StoryRoute.TitleOf | src/app/api/story/route.ts:146 | the title is `tn.title`, else "Untitled Comic" |
| StoryRoute.NarrativeOf | src/app/api/story/route.ts:147-148 | the narrative is `tn.narrative`, else the string itself, else "" |
| StoryRoute.ErrorText | src/app/api/story/route.ts:189 | the stored error is the message cut to 512 characters, and "unknown_error" when there is nothing to report |
| StoryRoute.Post | src/app/api/story/route.ts:43-198 | the status is 200, 400 or 500; 200 if and only if the story row ends READY; no row is left PROCESSING |
| StoryRoute.PostRejectsBody | src/app/api/story/route.ts:180-196 | an unreadable or invalid body gives 500 and creates no story |
| StoryRoute.PostNoPhotos | src/app/api/story/route.ts:78-80 | a room without photos gives 400 "no_photos_in_room" before any story is created |
| StoryRoute.PostReady | src/app/api/story/route.ts:110-179 | a successful generation stores the title, narrative, beats, panels and model with status READY, and answers 200 |
| StoryRoute.PostFailed | src/app/api/story/route.ts:180-196 | a failed generation marks the created story as ERROR with at most 512 characters of error, and answers 500 |
| StoryRoute.RecordStoredAsIs | src/app/api/story/route.ts:145-148 | a `{title, narrative}` result is stored unchanged |
| ProvidersRoute.Get | src/app/api/ai/providers/route.ts:5-14 | each flag is true exactly when its key is set and non-empty, and mock is always true. The default has credentials and is the first available of openai, anthropic, mock |
| StoryLlm.Narrative | src/lib/story-llm.ts:24-27 | the narrative is the fixed opening, the style verbatim, then the fixed ending |
| StoryLlm.StyleRoundTrip | src/lib/story-llm.ts:24-27 | the style can be read back out of the narrative |
| StoryLlm.GenerateFunnyStory | src/lib/story-llm.ts:5-37 | one beat and one panel per photo. Beat and panel i carry `photos[i].id`, panel i has index i, and it has 1 bubble when i is even and 2 when odd. The title, model and prompt are the constants |
| StoryLlm.StoryCoversPhotos | src/lib/story-llm.ts:12-22 | the panels' photo ids are the photo ids in order, and an omitted style reads back as "quirky, kid-friendly" |
| Middleware.GetParam | src/app/api/unlock/route.ts:5 | `searchParams.get` finds a value exactly when some entry has that name, and the value is that of the first such entry |
| Middleware.SetParamSets | src/middleware.ts:45 | after `searchParams.set`, exactly one entry has the name, `get` returns the new value, and all other entries are kept in order |
| Middleware.Gate | src/middleware.ts:18-47 | a request passes if and only if it is static, public or carries `site_access=granted`. Otherwise it is redirected to /unlock, with `next` set to pathname + search |
| Middleware.RedirectCarriesTarget | src/middleware.ts:43-46 | a redirect carries exactly one `next`, holding the requested path and query, and keeps every other parameter |
| Middleware.RedirectTargetPasses | src/middleware.ts:4-46 | the unlock page the gate redirects to is itself let through |
| UnlockRoute.NextTarget | src/app/api/unlock/route.ts:5 | the target is the `next` parameter when it is present and non-empty; a missing or empty `next` gives "/"; it is never empty |
| UnlockRoute.Post | src/app/api/unlock/route.ts:3-26 | a body that is not form data gives 500; otherwise an unset or empty ACCESS_PASSWORD gives 500, a mismatch 401, and a match redirects to `next` with the seven-day, HTTP-only, secure, Lax `site_access=granted` cookie on path "/"; each case if and only if |
| UnlockRoute.EmptyPasswordRejected | src/app/api/unlock/route.ts:7-15 | a missing or empty password field never unlocks |
| UnlockRoute.UnlockedPassesGate | src/app/api/unlock/route.ts:18-24 | with the cookie this route sets, the middleware lets every request through |
| UnlockRoute.UnlockReturnsToTarget | src/app/api/unlock/route.ts:5-17 | a request the gate turned away, unlocked with the right password, is sent back to the path and query it asked for |
| RoomsRoute.Hex | src/app/api/rooms/route.ts:9 | the hex encoding has two digits per byte |
| RoomsRoute.Base16 | src/app/api/rooms/route.ts:9 | the RFC 4648 Base16 encoding has two characters per byte, all from 0-9A-F |
| RoomsRoute.UpperHexIsBase16 | src/app/api/rooms/route.ts:9 | upper-cased hex is exactly the Base16 encoding of section 8 of RFC 4648 |
| RoomsRoute.RandomCodeShape | src/app/api/rooms/route.ts:7-10 | a random code is "R-" followed by the first len Base16 digits of the bytes, so it has length len + 2 |
| RoomsRoute.AllOnesCode | src/app/api/rooms/route.ts:7-10 | six 0xFF bytes give "R-FFFFFF" |
| RoomsRoute.RandomCodeIsUpper | src/app/api/rooms/route.ts:9-15 | a generated code is already upper case, so the route's upper-casing leaves it unchanged |
| RoomsRoute.Post | src/app/api/rooms/route.ts:12-40 | a `null` body, a non-string owner, or a code that is neither text nor null is an error (500), and nothing else is. The owner is the supplied handle, else "devuser". The code is the supplied one upper-cased, else a random code; every answered code is upper case |
| RoomsRoute.PostWithoutCode | src/app/api/rooms/route.ts:14-15 | without a code, or with an unreadable body, the room gets a random code and the owner "devuser" |
| RoomsRoute.PostUpperCasesCode | src/app/api/rooms/route.ts:15 | a supplied code is upper-cased, and re-posting the answer names the same room |
| RoomsRoute.PostWithOwner | src/app/api/rooms/route.ts:14-15 | a supplied owner and code give that owner and the upper-cased code |
| PhotosRoute.Clamp | src/app/api/photos/route.ts:39-41 | the result lies in [0, hi], equals x in range, and is pulled to the nearer bound outside it |
| PhotosRoute.ClampedNumber | src/app/api/photos/route.ts:39-41 | a number is clamped into [0, hi]; a value that is not a number becomes null |
| PhotosRoute.ShortOrNull | src/app/api/photos/route.ts:42-43 | a string within the limit is kept; anything else becomes null |
| PhotosRoute.ShortOrDefault | src/app/api/photos/route.ts:45-46 | a string within the limit is kept; anything else becomes the seed default |
| PhotosRoute.Sanitize | src/app/api/photos/route.ts:33-47 | "publicId invalid" exactly when publicId is not a string of 1..512 characters. "secureUrl invalid" exactly when it is one but the URL is not a parsing string of ≤ 2048 characters. Success is a well-formed record carrying the supplied id and URL |
| PhotosRoute.Post | src/app/api/photos/route.ts:29-76 | an unreadable body gives 500, and validation errors give 400 with their message. A valid body is stored if and only if its user and room exist, otherwise 400 "Seed user/room not found". The stored record is exactly the sanitized body |
| PhotosRoute.SanitizeRecord | src/app/api/photos/route.ts:33-47 | a well-formed record with a parsing URL passes validation unchanged |
| PhotosRoute.SanitizeIdempotent | src/app/api/photos/route.ts:33-47 | re-submitting a stored record stores the same record |
| PhotosRoute.SanitizeDefaults | src/app/api/photos/route.ts:39-46 | oversize widths become 100000 and negative byte counts 0; an invalid owner becomes "devuser", an absent room "DEVROOM", and an invalid format null |
| Gallery.FallbackWH | src/components/GalleryLive.tsx:8-10 | a positive width and height are kept; otherwise they are 1200 and 900; both are always positive |
| Gallery.Thumb | src/components/GalleryLive.tsx:13-22 | a URL without exactly one "/upload/" is returned unchanged |
| Gallery.UploadOnceIff | src/components/GalleryLive.tsx:16-17 | `split('/upload/')` yields two parts exactly when no second occurrence follows the first |
| Gallery.ThumbInsertsAfterUpload | src/components/GalleryLive.tsx:15-18 | with one "/upload/", the transform `c_fill,q_auto,f_auto,w_{w}/` sits right after it, and cutting it out recovers the original URL |
| RoomSwitcher.KeepCodeChars | src/components/RoomSwitcher.tsx:14 | only characters of [A-Z0-9-] remain |
| RoomSwitcher.KeepCodeCharsOfCode | src/components/RoomSwitcher.tsx:14 | a string of code characters loses nothing |
| RoomSwitcher.KeepCodeCharsConcat | src/components/RoomSwitcher.tsx:14 | the filter works piecewise: filtering a + b is filtering a, then b |
| RoomSwitcher.KeepCodeCharsSingle | src/components/RoomSwitcher.tsx:14 | a single character is kept exactly when it is in [A-Z0-9-] |
| RoomSwitcher.NormalizedCode | src/components/RoomSwitcher.tsx:13-15 | the normalised code contains only [A-Z0-9-] |
| RoomSwitcher.NormalizedCodeIdempotent | src/components/RoomSwitcher.tsx:13-15 | normalising twice equals normalising once |
| RoomSwitcher.NormalizedCodeOfCode | src/components/RoomSwitcher.tsx:13-15 | a code already in normal form is kept as typed |
| RoomSwitcher.NormalizedCodeKeeps | src/components/RoomSwitcher.tsx:13-15 | each character of the trimmed input contributes, in place and in order, its upper-case form when that is in [A-Z0-9-], and nothing otherwise; so lower-case letters are kept, upper-cased |
| RoomSwitcher.OpenRoom | src/components/RoomSwitcher.tsx:17-25 | an empty normalised code shows "Enter a room code" and does not navigate; otherwise the target is /u/{code} |
| RoomSwitcher.OpenRoomStable | src/components/RoomSwitcher.tsx:18-24 | typing the code of the room navigated to leads to the same room |

## Left out

- Backend SDK calls, prompt and message construction, image attachment and
  `withTimeout`. The network and timers are replaced by parameters (the
  reply content, `generate`). The 45-second timeout is not modelled.
- Prisma reads and writes, `NextResponse` construction and console
  logging. Only the decisions and the values written are modelled. A
  database failure (which the routes answer with 500) is not modelled.
  Neither is the `GET /api/photos` listing (a query of the 60 newest
  photos).
- The `JSON.stringify(...).slice(0, 2000)` prompt summary of the story
  route, and the 8000-character beat excerpt in prompts. These are
  serialisation details of I/O text.
- `JSON.parse`, `new URL`, `Number()` coercion and `crypto.randomBytes`
  are parameters. JSON text, URL syntax and randomness are not modelled.
- UnlockRoute.Post: the redirect target is the `next` text before `new
  URL(next, origin)` resolves it. Whether an absolute `next` leaves the
  site is not modelled.
- Middleware.Gate: query parameters are a list of name/value pairs.
  Percent-encoding and the serialisation of `search` are not modelled.
- Floating point: JSON numbers, temperatures, widths and heights are exact
  reals. NaN and the infinities do not arise from parsed JSON.
- Strings are sequences of characters, not UTF-16 code units.
  `toUpperCase`/`toLowerCase` are modelled on ASCII letters only.
- RoomSwitcher.NormalizedCode: real `toUpperCase` can map a few non-ASCII
  letters into A-Z (for example "ß" to "SS"). The model drops them
  instead.
- Comic.ClampZero: `clampWords` with a negative or fractional budget is
  not modelled. Budgets are natural numbers.
- Panels.EnforcePhotoCoverage: requires every photo id to be non-empty. An
  empty id is falsy in the source and is skipped when counting panels but
  not when listing missing photos.
- LiveProviders.GenPanels: requires non-empty photo ids, because it calls
  the coverage repair.
- RoomsRoute.Post: a non-string `ownerHandle` (including `null`) is
  treated as a failed upsert (500). Prisma's own validation is not
  modelled.
- The `takenAt` date of `POST /api/photos`, because `new Date` parsing is
  not modelled.
- The React state, effects and rendering of `GalleryLive.tsx` and
  `RoomSwitcher.tsx`, including `createRandom`'s fetch, are UI I/O.
