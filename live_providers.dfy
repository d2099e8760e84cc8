/**
 * The post-processing the two live story providers, `OpenAIProvider` of
 * `lib/ai/provider-openai.ts` and `AnthropicProvider` of
 * `lib/ai/provider-anthropic.ts`, apply to a model's reply. Both files carry
 * the same word clamp, the same caps and the same panel pipeline: validate,
 * repair photo coverage, cap, then fall back to `photos[i % n]` for a panel
 * whose photo id is unknown. The network call is replaced by the reply text
 * it would return; `JSON.parse` is the parser parameter.
 */
module LiveProviders {
  import opened Wrappers
  import opened Strings
  import opened Json
  import opened Structured
  import opened Comic
  import opened Providers
  import opened Panels
  import opened Text
  import Config
  import ProviderMock

  /** The caps of `COMIC_LIMITS` the live providers read. */
  datatype ComicLimits = ComicLimits(narrationMax: nat, bubbleTextMax: nat, bubblesPerPanel: nat)

  function MinNat(a: nat, b: nat): nat { if a <= b then a else b }

  /**
   * The caps the local `enforceComicCaps` applies: narration clamped to
   * `min(12, narrationMax)` words, bubble text to `min(10, bubbleTextMax)`
   * words, and `bubblesPerPanel` bubbles kept.
   */
  function LivePreset(limits: ComicLimits): (r: Preset)
    ensures r.narrationWords <= 12 && r.narrationWords <= limits.narrationMax
    ensures r.narrationWords == 12 || r.narrationWords == limits.narrationMax
    ensures r.bubbleWords <= 10 && r.bubbleWords <= limits.bubbleTextMax
    ensures r.bubbleWords == 10 || r.bubbleWords == limits.bubbleTextMax
    ensures r.bubblesPerPanel == limits.bubblesPerPanel
  {
    Preset(None, MinNat(12, limits.narrationMax), MinNat(10, limits.bubbleTextMax), limits.bubblesPerPanel)
  }

  /* ------------------------------ reply text ----------------------------- */

  /** `resp.choices?.[0]?.message?.content ?? "{}"`: an absent reply reads as the empty object. */
  function OpenAIRaw(content: Option<string>): string {
    content.GetOr("{}")
  }

  /** A content block of an Anthropic reply: text (possibly without its `text`), or anything else. */
  datatype Block = TextBlock(text: Option<string>) | OtherBlock

  /** The `text` of the reply's first block, when that block is a text block. */
  function FirstText(content: Option<seq<Block>>): (r: Option<Option<string>>)
    ensures r.Some? <==> content.Some? && |content.value| > 0 && content.value[0].TextBlock?
    ensures r.Some? ==> r.value == content.value[0].text
  {
    if content.Some? && |content.value| > 0 && content.value[0].TextBlock? then Some(content.value[0].text)
    else None
  }

  /** `resp.content?.[0]?.type === "text" ? resp.content[0].text ?? "{}" : "{}"` */
  function AnthropicRaw(content: Option<seq<Block>>): string {
    match FirstText(content)
    case Some(text) => text.GetOr("{}")
    case None => "{}"
  }

  /* ------------------------------- beats ------------------------------- */

  /** `json.<key>` on the parsed reply: reading a property of `null` throws. */
  function Prop(v: Json, key: string): (r: Result<Option<Json>, Failure>)
    ensures r.Err? <==> v.JNull?
    ensures r.Err? ==> r.error == NullProperty
    ensures r.Ok? ==> r.value == Field(v, key)
  {
    if v.JNull? then Err(NullProperty) else Ok(Field(v, key))
  }

  /** `validateBeats(safeJson(raw).beats)`, the tail of both providers' `genBeats`. */
  function BeatsFrom(raw: string, parse: Parser): (r: Result<seq<Beat>, Failure>)
    ensures r.Ok? ==> ValidBeats(r.value)
    ensures r.Ok? ==> parse(JsonSlice(raw)).Some? && Field(parse(JsonSlice(raw)).value, "beats").Some?
    ensures parse(JsonSlice(raw)).None? ==> r == Err(JsonSyntax)
    ensures parse(JsonSlice(raw)) == Some(JNull) ==> r == Err(NullProperty)
  {
    match SafeJson(raw, parse)
    case Err(e) => Err(e)
    case Ok(json) =>
      match Prop(json, "beats")
      case Err(e) => Err(e)
      case Ok(v) => ValidateBeats(v)
  }

  /** `validatePanels(safeJson(raw).panels)`, the first step of both providers' `genPanels`. */
  function ValidatedPanels(raw: string, parse: Parser): (r: Result<seq<Panel>, Failure>)
    ensures r.Ok? ==> ValidPanels(r.value)
    ensures r.Ok? ==> parse(JsonSlice(raw)).Some? && Field(parse(JsonSlice(raw)).value, "panels").Some?
    ensures parse(JsonSlice(raw)).None? ==> r == Err(JsonSyntax)
    ensures parse(JsonSlice(raw)) == Some(JNull) ==> r == Err(NullProperty)
  {
    match SafeJson(raw, parse)
    case Err(e) => Err(e)
    case Ok(json) =>
      match Prop(json, "panels")
      case Err(e) => Err(e)
      case Ok(v) => ValidatePanels(v)
  }

  /**
   * A reply with no text (an absent OpenAI message, an Anthropic reply whose
   * first block is not text) is read as `{}`, which holds neither beats nor
   * panels: both steps fail schema validation.
   */
  lemma AbsentReplyFailsSchema(content: Option<seq<Block>>, parse: Parser)
    requires parse("{}") == Some(JObj(map[]))
    requires FirstText(content).None?
    ensures BeatsFrom(OpenAIRaw(None), parse) == Err(Schema)
    ensures ValidatedPanels(OpenAIRaw(None), parse) == Err(Schema)
    ensures BeatsFrom(AnthropicRaw(content), parse) == Err(Schema)
    ensures ValidatedPanels(AnthropicRaw(content), parse) == Err(Schema)
  {
    EmptyObjectSlice();
    assert Field(JObj(map[]), "beats").None? && Field(JObj(map[]), "panels").None?;
  }

  /* ---------------------------- photo fallback --------------------------- */

  /** `p.photoId && validIds.has(p.photoId)` */
  predicate KnownId(pid: Option<string>, photos: seq<Photo>) {
    pid.Some? && pid.value != "" && pid.value in PhotoIds(photos)
  }

  /** The photo id panel `i` ends up with: its own when known, `photos[i % n].id` otherwise. */
  function FallbackId(p: Panel, i: nat, photos: seq<Photo>): Option<string>
    requires |photos| > 0
  {
    if KnownId(p.photoId, photos) then p.photoId else Some(photos[i % |photos|].id)
  }

  /**
   * The final `map` of `genPanels`: a panel keeps a known photo id and is
   * otherwise given photo `i % n`; with no photos, the first panel throws.
   */
  function PhotoFallback(panels: seq<Panel>, photos: seq<Photo>): (r: Result<seq<Panel>, Failure>)
    ensures r.Err? <==> |photos| == 0 && |panels| > 0
    ensures r.Err? ==> r.error == NullProperty
    ensures r.Ok? ==> |r.value| == |panels|
    ensures r.Ok? ==> forall i :: 0 <= i < |panels| ==> r.value[i] == panels[i].(photoId := r.value[i].photoId)
    ensures r.Ok? ==> forall i :: 0 <= i < |panels| && KnownId(panels[i].photoId, photos) ==>
              r.value[i].photoId == panels[i].photoId
    ensures r.Ok? ==> forall i :: 0 <= i < |panels| && !KnownId(panels[i].photoId, photos) ==>
              r.value[i].photoId == Some(photos[i % |photos|].id)
  {
    if |panels| == 0 then Ok([])
    else if |photos| == 0 then Err(NullProperty)
    else Ok(seq(|panels|, i requires 0 <= i < |panels| => panels[i].(photoId := FallbackId(panels[i], i, photos))))
  }

  /** With photo ids that are not empty, every panel after the fallback shows a supplied photo. */
  lemma FallbackAllKnown(panels: seq<Panel>, photos: seq<Photo>)
    requires forall j :: 0 <= j < |photos| ==> photos[j].id != ""
    requires PhotoFallback(panels, photos).Ok?
    ensures forall i :: 0 <= i < |panels| ==> KnownId(PhotoFallback(panels, photos).value[i].photoId, photos)
  {
    var r := PhotoFallback(panels, photos).value;
    forall i | 0 <= i < |panels|
      ensures KnownId(r[i].photoId, photos)
    {
      if !KnownId(panels[i].photoId, photos) {
        var j := i % |photos|;
        assert PhotoIds(photos)[j] == photos[j].id;
      }
    }
  }

  /** Panels that all show known photos pass through the fallback untouched. */
  lemma FallbackIdentity(panels: seq<Panel>, photos: seq<Photo>)
    requires forall i :: 0 <= i < |panels| ==> KnownId(panels[i].photoId, photos)
    ensures PhotoFallback(panels, photos) == Ok(panels)
  {
    if |panels| > 0 {
      assert panels[0].photoId.value in PhotoIds(photos);
      var r := PhotoFallback(panels, photos).value;
      assert forall i :: 0 <= i < |panels| ==> r[i] == panels[i];
      assert r == panels;
    }
  }

  /** Applying the fallback twice changes nothing more. */
  lemma FallbackIdempotent(panels: seq<Panel>, photos: seq<Photo>)
    requires forall j :: 0 <= j < |photos| ==> photos[j].id != ""
    requires PhotoFallback(panels, photos).Ok?
    ensures PhotoFallback(PhotoFallback(panels, photos).value, photos) == PhotoFallback(panels, photos)
  {
    FallbackAllKnown(panels, photos);
    FallbackIdentity(PhotoFallback(panels, photos).value, photos);
  }

  /** A reference kept at every position where it stood cannot lower the count. */
  lemma {:induction false} RefsKept(ps: seq<Panel>, qs: seq<Panel>, id: string)
    requires |ps| == |qs|
    requires forall k :: 0 <= k < |ps| && ps[k].photoId == Some(id) ==> qs[k].photoId == Some(id)
    ensures Refs(ps, id) <= Refs(qs, id)
    decreases |ps|
  {
    if |ps| > 0 {
      RefsKept(ps[..|ps| - 1], qs[..|qs| - 1], id);
    }
  }

  /* ------------------------------- panels ------------------------------- */

  /**
   * What `genPanels` returns for the validated panels `v`: `out[k]` is panel
   * `k` after coverage and caps, with a photo id that is one of the photos.
   */
  predicate CappedWithKnownPhotos(v: seq<Panel>, out: seq<Panel>, photos: seq<Photo>, limits: ComicLimits) {
    && |out| == |v|
    && (forall k :: 0 <= k < |out| ==> out[k] == CapPanel(v[k], LivePreset(limits)).(photoId := out[k].photoId))
    && (forall k :: 0 <= k < |out| ==> out[k].photoId.Some? && out[k].photoId.value in PhotoIds(photos))
  }

  /** Copies the validated panels into the array the coverage repair works on. */
  method ToArray(v: seq<Panel>) returns (a: array<Panel>)
    ensures fresh(a) && a[..] == v
  {
    a := new Panel[|v|](i requires 0 <= i < |v| => v[i]);
  }

  /**
   * What the coverage repair promises about the panels it returns, in the
   * terms the pipeline uses: the postcondition of `EnforcePhotoCoverage`
   * with `v` for the panels before and `covered` for the panels after.
   */
  predicate Repaired(v: seq<Panel>, covered: seq<Panel>, photos: seq<Photo>) {
    var ids := PhotoIds(photos);
    var counts := RefCounts(ids, v);
    && |covered| == |v|
    // nothing to repair: the panels are left as they were
    && (|v| == 0 || |photos| == 0 || |Missing(ids, counts)| == 0 ==> covered == v)
    // a panel either keeps everything, or moves from an over-used photo to an unused one
    && (forall k :: 0 <= k < |v| ==> covered[k] == v[k] || Reassigned(v[k], covered[k], counts))
    // a photo that was used stays used
    && (forall id :: id in ids && Refs(v, id) >= 1 ==> Refs(covered, id) >= 1)
    // with distinct ids: each unused photo is given at most one panel, in photo order,
    // and the repair stops only when every photo is used or no photo is used twice
    && (Distinct(ids) ==> forall id :: id in ids && Refs(v, id) == 0 ==> Refs(covered, id) <= 1)
    && (Distinct(ids) ==>
          var m := Missing(ids, counts);
          forall i, j :: 0 <= i < j < |m| && Refs(covered, m[j]) >= 1 ==> Refs(covered, m[i]) >= 1)
    && (Distinct(ids) ==>
          (forall id :: id in ids ==> Refs(covered, id) >= 1)
          || (forall id :: id in ids ==> Refs(covered, id) <= 1))
  }

  /** Copies the validated panels into an array, repairs their coverage in place and reads them back. */
  method Repair(v: seq<Panel>, photos: seq<Photo>) returns (covered: seq<Panel>)
    requires forall j :: 0 <= j < |photos| ==> photos[j].id != ""
    ensures Repaired(v, covered, photos)
  {
    var a := ToArray(v);
    var r := EnforcePhotoCoverage(a, photos);
    covered := r[..];
  }

  /** `covered` is `v` with, at most, other photo ids. */
  predicate SameButPhotos(v: seq<Panel>, covered: seq<Panel>) {
    && |covered| == |v|
    && forall k :: 0 <= k < |v| ==> covered[k] == v[k].(photoId := covered[k].photoId)
  }

  /** Every repaired panel is the validated one with, at most, another photo id. */
  lemma RepairedShape(v: seq<Panel>, covered: seq<Panel>, photos: seq<Photo>)
    requires Repaired(v, covered, photos)
    ensures SameButPhotos(v, covered)
  {
    forall k | 0 <= k < |v|
      ensures covered[k] == v[k].(photoId := covered[k].photoId)
    {
      assert covered[k] == v[k] || Reassigned(v[k], covered[k], RefCounts(PhotoIds(photos), v));
    }
  }

  /** Caps and the fallback change nothing but what `CappedWithKnownPhotos` allows. */
  lemma ShapeAfterRepair(v: seq<Panel>, covered: seq<Panel>, photos: seq<Photo>, limits: ComicLimits)
    requires |photos| > 0 && forall j :: 0 <= j < |photos| ==> photos[j].id != ""
    requires SameButPhotos(v, covered)
    ensures PhotoFallback(EnforceComicCaps(covered, LivePreset(limits)), photos).Ok?
    ensures CappedWithKnownPhotos(v, PhotoFallback(EnforceComicCaps(covered, LivePreset(limits)), photos).value, photos, limits)
  {
    var capped := EnforceComicCaps(covered, LivePreset(limits));
    FallbackAllKnown(capped, photos);
    var out := PhotoFallback(capped, photos).value;
    forall k | 0 <= k < |out|
      ensures out[k] == CapPanel(v[k], LivePreset(limits)).(photoId := out[k].photoId)
    {
      assert covered[k] == v[k].(photoId := covered[k].photoId);
    }
  }

  /** Caps and the fallback keep every known photo id where it stands, so a used photo stays used. */
  lemma RefsAfterRepair(covered: seq<Panel>, photos: seq<Photo>, limits: ComicLimits, id: string)
    requires |photos| > 0 && forall j :: 0 <= j < |photos| ==> photos[j].id != ""
    requires id in PhotoIds(photos) && Refs(covered, id) >= 1
    ensures PhotoFallback(EnforceComicCaps(covered, LivePreset(limits)), photos).Ok?
    ensures Refs(PhotoFallback(EnforceComicCaps(covered, LivePreset(limits)), photos).value, id) >= 1
  {
    var capped := EnforceComicCaps(covered, LivePreset(limits));
    assert id != "";
    CapsKeepRefs(covered, LivePreset(limits), id);
    FallbackKeepsRefs(capped, photos, id);
  }

  /** Caps leave every photo id in place. */
  lemma CapsKeepRefs(ps: seq<Panel>, preset: Preset, id: string)
    ensures Refs(ps, id) <= Refs(EnforceComicCaps(ps, preset), id)
  {
    RefsKept(ps, EnforceComicCaps(ps, preset), id);
  }

  /** The fallback leaves a supplied photo's id in place. */
  lemma FallbackKeepsRefs(ps: seq<Panel>, photos: seq<Photo>, id: string)
    requires |photos| > 0 && id != "" && id in PhotoIds(photos)
    ensures PhotoFallback(ps, photos).Ok?
    ensures Refs(ps, id) <= Refs(PhotoFallback(ps, photos).value, id)
  {
    RefsKept(ps, PhotoFallback(ps, photos).value, id);
  }

  /**
   * `genPanels` after the reply arrives: validate, repair photo coverage,
   * cap, and fall back to `photos[i % n]` for unknown photo ids. Failures of
   * extraction and validation propagate; with valid panels and no photos
   * the fallback throws. Otherwise the result is the fallback applied to
   * the capped panels of a coverage repair of the validated panels: every
   * panel shows a supplied photo, keeps the index, alt text and sound
   * effects it was validated with, is capped, and every photo the reply
   * already used is still used.
   */
  method GenPanels(raw: string, photos: seq<Photo>, parse: Parser, limits: ComicLimits)
    returns (r: Result<seq<Panel>, Failure>)
    requires forall j :: 0 <= j < |photos| ==> photos[j].id != ""
    ensures ValidatedPanels(raw, parse).Err? ==> r == Err(ValidatedPanels(raw, parse).error)
    ensures ValidatedPanels(raw, parse).Ok? && |photos| == 0 ==> r == Err(NullProperty)
    ensures ValidatedPanels(raw, parse).Ok? ==>
              exists covered :: Repaired(ValidatedPanels(raw, parse).value, covered, photos)
                                && r == PhotoFallback(EnforceComicCaps(covered, LivePreset(limits)), photos)
    ensures ValidatedPanels(raw, parse).Ok? && |photos| > 0 ==>
              r.Ok? && 1 <= |r.value| <= 24
              && CappedWithKnownPhotos(ValidatedPanels(raw, parse).value, r.value, photos, limits)
              && forall id :: id in PhotoIds(photos) && Refs(ValidatedPanels(raw, parse).value, id) >= 1 ==>
                   Refs(r.value, id) >= 1
  {
    var validated := ValidatedPanels(raw, parse);
    if validated.Err? {
      return Err(validated.error);
    }
    var v := validated.value;
    var covered := Repair(v, photos);
    var capped := EnforceComicCaps(covered, LivePreset(limits));
    r := PhotoFallback(capped, photos);
    assert Repaired(v, covered, photos) && r == PhotoFallback(EnforceComicCaps(covered, LivePreset(limits)), photos);
    if |photos| > 0 {
      RepairedShape(v, covered, photos);
      ShapeAfterRepair(v, covered, photos, limits);
      forall id | id in PhotoIds(photos) && Refs(v, id) >= 1
        ensures Refs(r.value, id) >= 1
      {
        RefsAfterRepair(covered, photos, limits, id);
      }
    }
  }

  /**
   * With caps of at least one word, every panel `genPanels` returns holds
   * at most `bubblesPerPanel` bubbles, narration of at most
   * `min(12, narrationMax)` words and bubble text of at most
   * `min(10, bubbleTextMax)` words.
   */
  lemma GenPanelsCapped(v: seq<Panel>, out: seq<Panel>, photos: seq<Photo>, limits: ComicLimits, k: nat)
    requires CappedWithKnownPhotos(v, out, photos, limits)
    requires limits.narrationMax >= 1 && limits.bubbleTextMax >= 1
    requires k < |out|
    ensures out[k].bubbles.Some? && |out[k].bubbles.value| <= limits.bubblesPerPanel
    ensures out[k].narration.Some? ==> |Words(out[k].narration.value)| <= MinNat(12, limits.narrationMax)
    ensures forall j :: 0 <= j < |out[k].bubbles.value| ==> |Words(out[k].bubbles.value[j].text)| <= MinNat(10, limits.bubbleTextMax)
  {
    CapsBound(v, LivePreset(limits), k);
  }

  /* ------------------------------ narrative ------------------------------ */

  /** `parseTitleNarrative((content ?? "").trim())` of the OpenAI provider. */
  function OpenAINarrative(content: Option<string>): (r: TitleNarrative)
    ensures content.None? ==> r == TitleNarrative(DefaultTitle, "")
    ensures r.title != "" && IsTrimmed(r.narrative)
  {
    ParseTitleNarrative(Trim(content.GetOr("")))
  }

  /** The Anthropic provider: the first block's trimmed text when it is a text block, "" otherwise. */
  function AnthropicNarrative(content: Option<seq<Block>>): (r: TitleNarrative)
    ensures FirstText(content).None? ==> r == TitleNarrative(DefaultTitle, "")
    ensures r.title != "" && IsTrimmed(r.narrative)
  {
    var raw := match FirstText(content) case Some(text) => Trim(text.GetOr("")) case None => "";
    ParseTitleNarrative(raw)
  }

  /** The providers' own `trim` before `parseTitleNarrative` changes nothing: the parser trims first. */
  lemma {:induction false} NarrativePretrimRedundant(s: string)
    ensures OpenAINarrative(Some(s)) == ParseTitleNarrative(s)
    ensures AnthropicNarrative(Some([TextBlock(Some(s))])) == ParseTitleNarrative(s)
  {
    ParsePretrimmed(s);
    assert FirstText(Some([TextBlock(Some(s))])) == Some(Some(s));
  }

  /** Both providers read the same reply text the same way. */
  lemma NarrativesAgree(s: Option<string>)
    ensures AnthropicNarrative(Some([TextBlock(s)])) == OpenAINarrative(s)
  {
  }

  /* -------------------------------- models ------------------------------- */

  /** `AI_CFG.MODEL || "gpt-4o-mini"`, with the configured model as a parameter. */
  function OpenAIModel(configured: string): (r: string)
    ensures r != ""
    ensures configured != "" ==> r == configured
  {
    if configured != "" then configured else "gpt-4o-mini"
  }

  /** `getCfg("anthropic").MODEL || "claude-3-5-sonnet"` */
  function AnthropicModel(env: Env, toNumber: Config.NumberCoercion): string {
    var m := Config.GetCfg(Anthropic, env, toNumber).model;
    if m != "" then m else "claude-3-5-sonnet"
  }

  /** The configured Anthropic model is never empty, so the provider's own fallback is never used. */
  lemma AnthropicModelIsConfigured(env: Env, toNumber: Config.NumberCoercion)
    ensures AnthropicModel(env, toNumber) == Config.GetCfg(Anthropic, env, toNumber).model
  {
    var v := Lookup(env, "ANTHROPIC_MODEL");
    if v.Some? && v.value != "" {
    }
  }

  /** `providerName()` of each provider class. */
  function ReportedName(p: ProviderImpl): string {
    match p
    case OpenAIProvider => "openai"
    case AnthropicProvider => "anthropic"
    case MockProvider => ProviderMock.ProviderName
  }

  /**
   * The provider `getProvider(k)` builds reports `k`'s own name, and setting
   * `AI_PROVIDER` to the reported name selects that provider again.
   */
  lemma ProviderNames(k: ProviderKind)
    ensures ReportedName(GetProvider(k)) == KindName(k)
    ensures GetProvider(StoryProviderKind(Some(ReportedName(GetProvider(k))))) == GetProvider(k)
  {
    StoryProviderKindOfName(k);
  }
}
