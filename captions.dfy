/**
 * `captionPhotosOpenAI` of `lib/ai/captions-openai.ts`: asks a vision model
 * for one caption and a few tags per photo, validates the reply against
 * `CaptionSchema`, and maps each caption back to a photo id by its index.
 * The model's reply is a parameter, as is `JSON.parse`.
 */
module Captions {
  import opened Wrappers
  import opened Strings
  import opened Json
  import opened Structured
  import opened Providers
  import Config

  /** `PhotoIn` */
  datatype PhotoIn = PhotoIn(id: string, url: string)

  /** `CaptionOut` */
  datatype CaptionOut = CaptionOut(id: string, caption: string, tags: seq<string>)

  /** One element of the reply's `photos` array. */
  datatype CaptionItem = CaptionItem(index: int, caption: string, tags: seq<string>)

  /** An element `CaptionSchema` accepts. */
  predicate ValidItem(it: CaptionItem) {
    && it.index >= 0
    && 1 <= |it.caption| <= 240
    && 1 <= |it.tags| <= 8 && AllNonEmpty(it.tags)
  }

  /* ------------------------------- request ------------------------------- */

  /** `Math.min(4000, Math.max(500, photos.length * 150))` */
  function MaxTokens(n: nat): (r: int)
    ensures 500 <= r <= 4000
    ensures 4 <= n <= 26 ==> r == 150 * n
    ensures n <= 3 ==> r == 500
    ensures n >= 27 ==> r == 4000
  {
    var t := if 500 >= n * 150 then 500 else n * 150;
    if t <= 4000 then t else 4000
  }

  /* ------------------------------- schema -------------------------------- */

  function DecodeCaption(v: Json): Option<string> {
    DecodeStr(v, 1, Some(240))
  }

  /** `z.array(z.string().min(1)).min(1).max(8)` */
  function DecodeTags(v: Json): (r: Option<seq<string>>)
    ensures r.Some? ==> 1 <= |r.value| <= 8 && AllNonEmpty(r.value)
  {
    match DecodeStrings(v)
    case Some(ts) => if 1 <= |ts| <= 8 then Some(ts) else None
    case None => None
  }

  /** One element of `CaptionSchema.photos`: whatever it accepts is valid. */
  function DecodeItem(v: Json): (r: Option<CaptionItem>)
    ensures r.Some? ==> ValidItem(r.value)
  {
    match (Req(v, "index", DecodeIndex), Req(v, "caption", DecodeCaption), Req(v, "tags", DecodeTags))
    case (Some(i), Some(c), Some(t)) => Some(CaptionItem(i, c, t))
    case _ => None
  }

  /** `CaptionSchema.safeParse(v)`: the items on success, `None` on failure. */
  function DecodeReply(v: Json): (r: Option<seq<CaptionItem>>)
    ensures r.Some? ==> forall k :: 0 <= k < |r.value| ==> ValidItem(r.value[k])
  {
    match Field(v, "photos")
    case Some(JArr(items)) => DecodeEach(items, DecodeItem)
    case _ => None
  }

  /** An element as the model is asked to write it. */
  function ItemJson(it: CaptionItem): Json {
    JObj(map["index" := JNum(it.index as real), "caption" := JStr(it.caption), "tags" := StringsJson(it.tags)])
  }

  /** The reply as the model is asked to write it: `{"photos":[…]}`. */
  function ReplyJson(items: seq<CaptionItem>): Json {
    JObj(map["photos" := JArr(EncodeEach(items, ItemJson))])
  }

  /** An element written out is accepted exactly when it is valid, and comes back unchanged. */
  lemma ItemRoundTrip(it: CaptionItem)
    ensures DecodeItem(ItemJson(it)) == if ValidItem(it) then Some(it) else None
  {
    StringsRoundTrip(it.tags);
  }

  /** A reply written out is accepted exactly when every element is valid, and comes back unchanged. */
  lemma ReplyRoundTrip(items: seq<CaptionItem>)
    ensures DecodeReply(ReplyJson(items)) == if forall k :: 0 <= k < |items| ==> ValidItem(items[k]) then Some(items) else None
  {
    DecodeEncodeEach(items, ItemJson, DecodeItem);
    forall k | 0 <= k < |items| { ItemRoundTrip(items[k]); }
    if !(forall k :: 0 <= k < |items| ==> ValidItem(items[k])) {
      var k :| 0 <= k < |items| && !ValidItem(items[k]);
      assert DecodeItem(EncodeEach(items, ItemJson)[k]).None?;
    }
  }

  /* ------------------------------ mapping back ---------------------------- */

  /** The output for an element whose index names a photo: its id, the trimmed caption, at most six tags. */
  function Output(it: CaptionItem, photos: seq<PhotoIn>): (r: CaptionOut)
    requires InRange(it, photos)
    ensures r.id == photos[it.index].id && IsTrimmed(r.caption)
    ensures |r.tags| == (if |it.tags| <= 6 then |it.tags| else 6) && r.tags == it.tags[..|r.tags|]
  {
    CaptionOut(photos[it.index].id, Trim(it.caption), Take(it.tags, 6))
  }

  predicate InRange(it: CaptionItem, photos: seq<PhotoIn>) {
    0 <= it.index < |photos|
  }

  /** `id` is the id of one of the supplied photos. */
  predicate NamesPhoto(id: string, photos: seq<PhotoIn>) {
    exists i :: 0 <= i < |photos| && photos[i].id == id
  }

  /** The elements whose index names a photo, in order: `if (Number.isInteger(i) && photos[i])`. */
  function Selected(items: seq<CaptionItem>, photos: seq<PhotoIn>): (sel: seq<CaptionItem>)
    ensures |sel| <= |items|
    ensures forall j :: 0 <= j < |sel| ==> InRange(sel[j], photos) && sel[j] in items
    decreases |items|
  {
    if |items| == 0 then []
    else
      var init := items[..|items| - 1];
      var last := items[|items| - 1];
      var rest := Selected(init, photos);
      assert forall x :: x in init ==> x in items;
      if InRange(last, photos) then rest + [last] else rest
  }

  /** Nothing is dropped when every index names a photo. */
  lemma {:induction false} SelectedAllInRange(items: seq<CaptionItem>, photos: seq<PhotoIn>)
    requires forall k :: 0 <= k < |items| ==> InRange(items[k], photos)
    ensures Selected(items, photos) == items
    decreases |items|
  {
    if |items| > 0 {
      var init := items[..|items| - 1];
      SelectedAllInRange(init, photos);
      assert init + [items[|items| - 1]] == items;
    }
  }

  /** An element that names no photo is dropped; one that does is kept, at the end. */
  lemma SelectedSnoc(items: seq<CaptionItem>, x: CaptionItem, photos: seq<PhotoIn>)
    ensures Selected(items + [x], photos) == Selected(items, photos) + (if InRange(x, photos) then [x] else [])
  {
    assert (items + [x])[..|items|] == items;
  }

  /**
   * The outputs for `items` in order, skipping an element whose index names
   * no photo: one output per element kept, each naming a supplied photo,
   * with a trimmed caption and at most six tags.
   */
  function MapBack(items: seq<CaptionItem>, photos: seq<PhotoIn>): (out: seq<CaptionOut>)
    ensures |out| == |Selected(items, photos)| <= |items|
    ensures forall j :: 0 <= j < |out| ==> out[j] == Output(Selected(items, photos)[j], photos)
    ensures forall j :: 0 <= j < |out| ==> NamesPhoto(out[j].id, photos) && IsTrimmed(out[j].caption) && |out[j].tags| <= 6
  {
    var sel := Selected(items, photos);
    var out := Outputs(sel, photos);
    assert forall j :: 0 <= j < |out| ==> out[j].id == photos[sel[j].index].id;
    out
  }

  /** The output of each element, in order. */
  function Outputs(sel: seq<CaptionItem>, photos: seq<PhotoIn>): (out: seq<CaptionOut>)
    requires forall j :: 0 <= j < |sel| ==> InRange(sel[j], photos)
    ensures |out| == |sel| && forall j :: 0 <= j < |sel| ==> out[j] == Output(sel[j], photos)
  {
    seq(|sel|, j requires 0 <= j < |sel| => Output(sel[j], photos))
  }

  lemma OutputsAppend(a: seq<CaptionItem>, b: seq<CaptionItem>, photos: seq<PhotoIn>)
    requires forall j :: 0 <= j < |a| ==> InRange(a[j], photos)
    requires forall j :: 0 <= j < |b| ==> InRange(b[j], photos)
    ensures forall j :: 0 <= j < |a + b| ==> InRange((a + b)[j], photos)
    ensures Outputs(a + b, photos) == Outputs(a, photos) + Outputs(b, photos)
  {
    assert forall j :: 0 <= j < |a + b| ==> (a + b)[j] == if j < |a| then a[j] else b[j - |a|];
  }

  /** When every index names a photo, each element yields exactly its own output, in order. */
  lemma MapBackAllInRange(items: seq<CaptionItem>, photos: seq<PhotoIn>)
    requires forall k :: 0 <= k < |items| ==> InRange(items[k], photos)
    ensures |MapBack(items, photos)| == |items|
    ensures forall k :: 0 <= k < |items| ==> MapBack(items, photos)[k] == Output(items[k], photos)
  {
    SelectedAllInRange(items, photos);
  }

  /** What every returned caption satisfies: a supplied photo's id, a trimmed caption, one to six non-empty tags. */
  predicate SoundOutputs(out: seq<CaptionOut>, photos: seq<PhotoIn>) {
    forall j :: 0 <= j < |out| ==>
      NamesPhoto(out[j].id, photos) && IsTrimmed(out[j].caption)
      && 1 <= |out[j].tags| <= 6 && AllNonEmpty(out[j].tags)
  }

  /** Valid elements give sound outputs. */
  lemma MapBackSound(items: seq<CaptionItem>, photos: seq<PhotoIn>)
    requires forall k :: 0 <= k < |items| ==> ValidItem(items[k])
    ensures SoundOutputs(MapBack(items, photos), photos)
  {
    var sel := Selected(items, photos);
    var out := MapBack(items, photos);
    forall j | 0 <= j < |out|
      ensures NamesPhoto(out[j].id, photos) && IsTrimmed(out[j].caption)
      ensures 1 <= |out[j].tags| <= 6 && AllNonEmpty(out[j].tags)
    {
      var k :| 0 <= k < |items| && items[k] == sel[j];
      OutputSound(sel[j], photos);
    }
  }

  /** A valid element's output keeps one to six of its non-empty tags. */
  lemma OutputSound(it: CaptionItem, photos: seq<PhotoIn>)
    requires ValidItem(it) && InRange(it, photos)
    ensures 1 <= |Output(it, photos).tags| <= 6 && AllNonEmpty(Output(it, photos).tags)
  {
    var t := Output(it, photos).tags;
    assert forall k :: 0 <= k < |t| ==> t[k] == it.tags[k];
  }

  /** Appending one element appends its output, or nothing when its index names no photo. */
  lemma MapBackSnoc(items: seq<CaptionItem>, x: CaptionItem, photos: seq<PhotoIn>)
    ensures MapBack(items + [x], photos) == MapBack(items, photos) + (if InRange(x, photos) then [Output(x, photos)] else [])
  {
    SelectedSnoc(items, x, photos);
    var e := if InRange(x, photos) then [x] else [];
    OutputsAppend(Selected(items, photos), e, photos);
    assert MapBack(items + [x], photos) == Outputs(Selected(items, photos) + e, photos);
    assert Outputs(e, photos) == if InRange(x, photos) then [Output(x, photos)] else [];
  }

  /** The loop `for (const item of parsed.data.photos)` that builds the output list. */
  method MapBackLoop(items: seq<CaptionItem>, photos: seq<PhotoIn>) returns (out: seq<CaptionOut>)
    ensures out == MapBack(items, photos)
  {
    out := [];
    var n := 0;
    while n < |items|
      invariant 0 <= n <= |items|
      invariant out == MapBack(items[..n], photos)
    {
      var item := items[n];
      MapBackSnoc(items[..n], item, photos);
      assert items[..n + 1] == items[..n] + [item];
      if 0 <= item.index < |photos| {
        assert InRange(item, photos);
        out := out + [Output(item, photos)];
      }
      n := n + 1;
    }
    assert items[..n] == items;
  }

  /* ------------------------------- captions ------------------------------ */

  /** The reply text: the message content, `{}` when absent, trimmed. */
  function ReplyText(content: Option<string>): string {
    Trim(content.GetOr("{}"))
  }

  /**
   * What `captionPhotosOpenAI` returns for the reply text `raw`: nothing for no photos; the parser's
   * error when the reply is not JSON; nothing when the reply fails the
   * schema; the mapped outputs otherwise.
   */
  function CaptionsOf(photos: seq<PhotoIn>, raw: string, parse: Parser): Result<seq<CaptionOut>, Failure> {
    if |photos| == 0 then Ok([])
    else
      match SafeJson(raw, parse)
      case Err(e) => Err(e)
      case Ok(v) =>
        match DecodeReply(v)
        case None => Ok([])
        case Some(items) => Ok(MapBack(items, photos))
  }

  /** `captionPhotosOpenAI(photos)`, once the model has replied with `content`. */
  method CaptionPhotos(photos: seq<PhotoIn>, content: Option<string>, parse: Parser)
    returns (r: Result<seq<CaptionOut>, Failure>)
    ensures r == CaptionsOf(photos, ReplyText(content), parse)
  {
    if |photos| == 0 {
      return Ok([]);
    }
    var raw := ReplyText(content);
    match SafeJson(raw, parse)
    case Err(e) =>
      return Err(e);
    case Ok(v) =>
      var parsed := DecodeReply(v);
      if parsed.None? {
        return Ok([]);
      }
      var out := MapBackLoop(parsed.value, photos);
      return Ok(out);
  }

  /** A reply the schema accepts maps back to sound outputs. */
  lemma DecodedSound(v: Json, photos: seq<PhotoIn>)
    requires DecodeReply(v).Some?
    ensures SoundOutputs(MapBack(DecodeReply(v).value, photos), photos)
  {
    MapBackSound(DecodeReply(v).value, photos);
  }

  /** Every caption returned names a supplied photo, is trimmed and has one to six non-empty tags. */
  lemma CaptionsSound(photos: seq<PhotoIn>, raw: string, parse: Parser)
    requires CaptionsOf(photos, raw, parse).Ok?
    ensures SoundOutputs(CaptionsOf(photos, raw, parse).value, photos)
  {
    var j := SafeJson(raw, parse);
    if |photos| > 0 && j.Ok? && DecodeReply(j.value).Some? {
      DecodedSound(j.value, photos);
    }
  }

  /**
   * A reply that is exactly the requested JSON, with valid elements whose
   * indices all name photos, gives one output per element, in order.
   */
  lemma CaptionsRoundTrip(photos: seq<PhotoIn>, raw: string, parse: Parser, items: seq<CaptionItem>)
    requires |photos| > 0
    requires parse(JsonSlice(raw)) == Some(ReplyJson(items))
    requires forall k :: 0 <= k < |items| ==> ValidItem(items[k]) && InRange(items[k], photos)
    ensures CaptionsOf(photos, raw, parse).Ok?
    ensures var out := CaptionsOf(photos, raw, parse).value;
            |out| == |items| && forall k :: 0 <= k < |items| ==> out[k] == Output(items[k], photos)
  {
    ReplyRoundTrip(items);
    MapBackAllInRange(items, photos);
  }

  /** A reply that is not JSON at all makes the call throw rather than return no captions. */
  lemma CaptionsSyntaxError(photos: seq<PhotoIn>, raw: string, parse: Parser)
    requires |photos| > 0 && parse(JsonSlice(raw)).None?
    ensures CaptionsOf(photos, raw, parse) == Err(JsonSyntax)
  {
  }

  /** An absent reply is read as `{}`, which has no `photos`: the schema fails and no captions come back. */
  lemma CaptionsAbsentReply(photos: seq<PhotoIn>, parse: Parser)
    requires parse("{}") == Some(JObj(map[]))
    ensures CaptionsOf(photos, ReplyText(None), parse) == Ok([])
  {
    var raw := ReplyText(None);
    ReplyTextAbsent();
    EmptyObjectSlice();
    assert parse(JsonSlice(raw)) == Some(JObj(map[]));
    CaptionsOfEmptyObject(photos, raw, parse);
  }

  lemma CaptionsOfEmptyObject(photos: seq<PhotoIn>, raw: string, parse: Parser)
    requires parse(JsonSlice(raw)) == Some(JObj(map[]))
    ensures CaptionsOf(photos, raw, parse) == Ok([])
  {
    assert DecodeReply(JObj(map[])).None?;
  }

  lemma ReplyTextAbsent()
    ensures ReplyText(None) == "{}"
  {
    var e := "{}";
    assert e[0] == '{' && e[|e| - 1] == '}';
    TrimTrimmed(e);
  }

  /** `process.env.OPENAI_MODEL || "gpt-4o-mini"`: the same model the OpenAI story settings pick. */
  function CaptionModel(env: Env): string {
    Config.OrDefault(Lookup(env, "OPENAI_MODEL"), "gpt-4o-mini")
  }

  lemma CaptionModelMatchesConfig(env: Env, toNumber: Config.NumberCoercion)
    ensures CaptionModel(env) == Config.GetCfg(OpenAI, env, toNumber).model
    ensures CaptionModel(env) != ""
  {
  }
}
