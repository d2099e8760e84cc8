/**
 * `POST` of `app/api/story/route.ts`: validates the request body, collects
 * up to twelve photos of the room, fills in the creative knobs and the panel
 * count, runs the chosen provider, and records the story as READY or ERROR.
 * The database, the clock and the providers' network calls are parameters:
 * the room's photos in creation order, the id the new story row receives,
 * and what the three provider calls together produce for a request.
 */
module StoryRoute {
  import opened Wrappers
  import opened Strings
  import opened Json
  import opened Structured
  import opened Comic
  import opened Providers

  /* -------------------------------- body --------------------------------- */

  /** The request body after `Body.parse`, defaults filled in. */
  datatype Body = Body(
    roomCode: string,
    ownerHandle: string,
    audience: Option<string>,
    style: Option<string>,
    tone: Option<string>,
    comicAudience: Audience,
    provider: ProviderKind,
    panelCount: Option<int>)

  /** What `Body` accepts. */
  predicate ValidBody(b: Body) {
    && |b.roomCode| >= 1
    && |b.ownerHandle| >= 1
    && (b.panelCount.Some? ==> 1 <= b.panelCount.value <= 24)
  }

  const DefaultOwner: string := "devuser"

  /** `z.enum(["openai", "anthropic", "mock"])`: the exact names only. */
  function KindOf(s: string): (r: Option<ProviderKind>)
    ensures r.Some? <==> s == "openai" || s == "anthropic" || s == "mock"
    ensures r.Some? ==> KindName(r.value) == s
  {
    if s == "openai" then Some(OpenAI)
    else if s == "anthropic" then Some(Anthropic)
    else if s == "mock" then Some(Mock)
    else None
  }

  function AudienceName(a: Audience): string {
    match a
    case Kids => "kids"
    case Adults => "adults"
  }

  /** `z.enum(["kids", "adults"])` */
  function AudienceOf(s: string): (r: Option<Audience>)
    ensures r.Some? <==> s == "kids" || s == "adults"
    ensures r.Some? ==> AudienceName(r.value) == s
  {
    if s == "kids" then Some(Kids) else if s == "adults" then Some(Adults) else None
  }

  function DecodeAnyString(v: Json): Option<string> {
    DecodeStr(v, 0, None)
  }

  function DecodeKind(v: Json): Option<ProviderKind> {
    if v.JStr? then KindOf(v.s) else None
  }

  function DecodeAudience(v: Json): Option<Audience> {
    if v.JStr? then AudienceOf(v.s) else None
  }

  /** `z.number().int().min(1).max(24)` */
  function DecodePanelCount(v: Json): (r: Option<int>)
    ensures r.Some? ==> 1 <= r.value <= 24 && v == JNum(r.value as real)
  {
    if v.JNum? && IsInt(v.n) && 1.0 <= v.n <= 24.0 then Some(v.n.Floor) else None
  }

  /** A property with a `.default(def)`: a missing property is decoded as `def` would be. */
  function Defaulted<T>(v: Json, key: string, f: Json -> Option<T>, def: Json): Option<T> {
    match Field(v, key)
    case None => f(def)
    case Some(x) => f(x)
  }

  /**
   * `Body.parse(json)`. `aiProvider` is `AI_PROVIDER` when the module was
   * loaded: the provider default is that value, or "openai" when it is unset
   * or empty, and the default must itself be one of the three names.
   */
  function DecodeBody(v: Json, aiProvider: Option<string>): (r: Option<Body>)
    ensures r.Some? ==> ValidBody(r.value)
  {
    match (Req(v, "roomCode", DecodeNonEmpty),
           Defaulted(v, "ownerHandle", DecodeNonEmpty, JStr(DefaultOwner)),
           Opt(v, "audience", DecodeAnyString),
           Opt(v, "style", DecodeAnyString),
           Opt(v, "tone", DecodeAnyString),
           Defaulted(v, "comicAudience", DecodeAudience, JStr("kids")),
           ProviderField(v, aiProvider),
           Opt(v, "panelCount", DecodePanelCount))
    case (Some(room), Some(owner), Some(aud), Some(style), Some(tone), Some(comic), Some(kind), Some(count)) =>
      Some(Body(room, owner, aud, style, tone, comic, kind, count))
    case _ => None
  }

  /** The `provider` property, or the module-load default `AI_PROVIDER || "openai"`. */
  function ProviderField(v: Json, aiProvider: Option<string>): Option<ProviderKind> {
    var providerDefault := if aiProvider.Some? && aiProvider.value != "" then aiProvider.value else "openai";
    Defaulted(v, "provider", DecodeKind, JStr(providerDefault))
  }

  /** `Body.parse` succeeds with `b` once every property decodes to `b`'s value. */
  lemma DecodeBodyAccepts(v: Json, aiProvider: Option<string>, b: Body)
    requires Req(v, "roomCode", DecodeNonEmpty) == Some(b.roomCode)
    requires Defaulted(v, "ownerHandle", DecodeNonEmpty, JStr(DefaultOwner)) == Some(b.ownerHandle)
    requires Opt(v, "audience", DecodeAnyString) == Some(b.audience)
    requires Opt(v, "style", DecodeAnyString) == Some(b.style)
    requires Opt(v, "tone", DecodeAnyString) == Some(b.tone)
    requires Defaulted(v, "comicAudience", DecodeAudience, JStr("kids")) == Some(b.comicAudience)
    requires ProviderField(v, aiProvider) == Some(b.provider)
    requires Opt(v, "panelCount", DecodePanelCount) == Some(b.panelCount)
    ensures DecodeBody(v, aiProvider) == Some(b)
  {
  }

  /** Adds `key` when the optional value is present. */
  function WithOpt<T>(m: map<string, Json>, key: string, o: Option<T>, g: T -> Json): map<string, Json> {
    if o.Some? then m[key := g(o.value)] else m
  }

  /** A body as a client writes it, every defaulted property spelled out. */
  function BodyJson(b: Body): Json {
    var m := map["roomCode" := JStr(b.roomCode), "ownerHandle" := JStr(b.ownerHandle),
                 "comicAudience" := JStr(AudienceName(b.comicAudience)), "provider" := JStr(KindName(b.provider))];
    var m := WithOpt(m, "audience", b.audience, (s: string) => JStr(s));
    var m := WithOpt(m, "style", b.style, (s: string) => JStr(s));
    var m := WithOpt(m, "tone", b.tone, (s: string) => JStr(s));
    JObj(WithOpt(m, "panelCount", b.panelCount, (n: int) => JNum(n as real)))
  }

  lemma KindRoundTrip(k: ProviderKind)
    ensures KindOf(KindName(k)) == Some(k)
  {
  }

  lemma AudienceRoundTrip(a: Audience)
    ensures AudienceOf(AudienceName(a)) == Some(a)
  {
  }

  /** A body written out in full is accepted exactly when it is valid, and reads back unchanged whatever `AI_PROVIDER` says. */
  lemma BodyRoundTrip(b: Body, aiProvider: Option<string>)
    ensures DecodeBody(BodyJson(b), aiProvider) == if ValidBody(b) then Some(b) else None
  {
    var v := BodyJson(b);
    BodyJsonFields(b);
    KindRoundTrip(b.provider);
    AudienceRoundTrip(b.comicAudience);
    if ValidBody(b) {
      assert Opt(v, "panelCount", DecodePanelCount) == Some(b.panelCount) by {
        if b.panelCount.Some? {
          var n := b.panelCount.value;
          assert (n as real).Floor == n;
        }
      }
      DecodeBodyAccepts(v, aiProvider, b);
    } else if |b.roomCode| < 1 {
      assert Req(v, "roomCode", DecodeNonEmpty).None?;
    } else if |b.ownerHandle| < 1 {
      assert Defaulted(v, "ownerHandle", DecodeNonEmpty, JStr(DefaultOwner)).None?;
    } else {
      assert Opt(v, "panelCount", DecodePanelCount).None?;
    }
  }

  /** Each property of a written-out body. */
  lemma BodyJsonFields(b: Body)
    ensures Field(BodyJson(b), "roomCode") == Some(JStr(b.roomCode))
    ensures Field(BodyJson(b), "ownerHandle") == Some(JStr(b.ownerHandle))
    ensures Field(BodyJson(b), "comicAudience") == Some(JStr(AudienceName(b.comicAudience)))
    ensures Field(BodyJson(b), "provider") == Some(JStr(KindName(b.provider)))
    ensures Field(BodyJson(b), "audience") == if b.audience.Some? then Some(JStr(b.audience.value)) else None
    ensures Field(BodyJson(b), "style") == if b.style.Some? then Some(JStr(b.style.value)) else None
    ensures Field(BodyJson(b), "tone") == if b.tone.Some? then Some(JStr(b.tone.value)) else None
    ensures Field(BodyJson(b), "panelCount") == if b.panelCount.Some? then Some(JNum(b.panelCount.value as real)) else None
  {
  }

  /** A body naming only the room gets the default owner, the kids preset and the default provider. */
  lemma BodyDefaults(room: string, aiProvider: Option<string>)
    requires |room| >= 1
    ensures aiProvider.None? ==>
              DecodeBody(JObj(map["roomCode" := JStr(room)]), aiProvider) == Some(Body(room, DefaultOwner, None, None, None, Kids, OpenAI, None))
    ensures aiProvider == Some("anthropic") ==>
              DecodeBody(JObj(map["roomCode" := JStr(room)]), aiProvider) == Some(Body(room, DefaultOwner, None, None, None, Kids, Anthropic, None))
    ensures aiProvider.Some? && KindOf(aiProvider.value).None? && aiProvider.value != "" ==>
              DecodeBody(JObj(map["roomCode" := JStr(room)]), aiProvider).None?
  {
  }

  /* ------------------------------- knobs --------------------------------- */

  /** `Math.min(6, Math.max(photos.length, 4))`: four to six panels, one per photo in that range. */
  function DefaultPanelCount(photoCount: nat): (r: int)
    ensures 4 <= r <= 6
    ensures 4 <= photoCount <= 6 ==> r == photoCount
    ensures photoCount < 4 ==> r == 4
    ensures photoCount > 6 ==> r == 6
  {
    var m := if photoCount >= 4 then photoCount else 4;
    if m <= 6 then m else 6
  }

  /** `input.panelCount ?? …` */
  function PanelCount(b: Body, photoCount: nat): int {
    b.panelCount.GetOr(DefaultPanelCount(photoCount))
  }

  /** `input.audience ?? (kids ? "kids-10-12" : "adults")` */
  function AudienceKnob(b: Body): string {
    b.audience.GetOr(if b.comicAudience == Kids then "kids-10-12" else "adults")
  }

  /** `input.style ?? "funny"` */
  function StyleKnob(b: Body): string {
    b.style.GetOr("funny")
  }

  /** `input.tone ?? (kids ? "wholesome" : "witty")` */
  function ToneKnob(b: Body): string {
    b.tone.GetOr(if b.comicAudience == Kids then "wholesome" else "witty")
  }

  /* ------------------------------ generation ------------------------------ */

  /** A photo row as the route selects it. */
  datatype StoredPhoto = StoredPhoto(id: string, storageUrl: string)

  /** The maximum number of photos a story is made from. */
  const PhotoCap: nat := 12

  /** What the route asks the provider for. */
  datatype GenRequest = GenRequest(
    provider: ProviderImpl,
    photos: seq<Photo>,
    audience: string,
    style: string,
    tone: string,
    panelCount: int,
    comicAudience: Audience)

  /** `genNarrative`'s value: the record providers promise, a legacy plain string, or nothing. */
  datatype NarrativeValue = Record(title: Option<string>, narrative: Option<string>) | Text(s: string) | Nothing

  /** A thrown value: its `message`, and `String(err)` when the value itself is truthy. */
  datatype Thrown = Thrown(message: Option<string>, text: Option<string>)

  /** What the three provider calls together produce within the timeout. */
  datatype Generated =
    | Generated(beats: seq<Beat>, panels: seq<Panel>, tn: NarrativeValue, modelName: Option<string>)
    | Threw(err: Thrown)

  /** The request for a valid body and the room's photos. */
  function RequestFor(b: Body, photos: seq<StoredPhoto>): (q: GenRequest)
    ensures q.provider == GetProvider(b.provider)
    ensures |q.photos| == |photos| && forall i :: 0 <= i < |photos| ==> q.photos[i] == Photo(photos[i].id, photos[i].storageUrl, None)
  {
    GenRequest(GetProvider(b.provider),
               seq(|photos|, i requires 0 <= i < |photos| => Photo(photos[i].id, photos[i].storageUrl, None)),
               AudienceKnob(b), StyleKnob(b), ToneKnob(b), PanelCount(b, |photos|), b.comicAudience)
  }

  const UntitledComic: string := "Untitled Comic"

  /** `tn?.title ?? "Untitled Comic"` */
  function TitleOf(tn: NarrativeValue): (r: string)
    ensures tn.Record? && tn.title.Some? ==> r == tn.title.value
    ensures !(tn.Record? && tn.title.Some?) ==> r == UntitledComic
  {
    if tn.Record? && tn.title.Some? then tn.title.value else UntitledComic
  }

  /** `tn?.narrative ?? (typeof tn === "string" ? tn : "")` */
  function NarrativeOf(tn: NarrativeValue): (r: string)
    ensures tn.Record? && tn.narrative.Some? ==> r == tn.narrative.value
    ensures tn.Text? ==> r == tn.s
    ensures tn.Nothing? || (tn.Record? && tn.narrative.None?) ==> r == ""
  {
    match tn
    case Record(_, n) => n.GetOr("")
    case Text(s) => s
    case Nothing => ""
  }

  /** `String(err?.message || err || "unknown_error").slice(0, 512)` */
  function ErrorText(err: Thrown): (r: string)
    ensures |r| <= 512
    ensures err.message.Some? && err.message.value != "" ==> r == Take(err.message.value, 512)
    ensures (err.message.None? || err.message.value == "") && err.text.None? ==> r == "unknown_error"
  {
    var s := if err.message.Some? && err.message.value != "" then err.message.value
             else err.text.GetOr("unknown_error");
    Take(s, 512)
  }

  /* ------------------------------- outcome -------------------------------- */

  datatype Status = Processing | Ready | Failed

  /** The story row as the route leaves it. */
  datatype StoryRow = StoryRow(
    title: string,
    narrative: string,
    beats: seq<Beat>,
    panels: seq<Panel>,
    status: Status,
    model: Option<string>,
    error: Option<string>)

  /** The row created before generation starts. */
  const PendingRow := StoryRow("Generating…", "", [], [], Processing, None, None)

  datatype ResponseBody = StoryStatus(id: string, status: string) | ErrorBody(error: string)

  datatype Response = Response(status: int, body: ResponseBody)

  /**
   * `POST(req)`: the response, and the story row when one was created.
   * `body` is `req.json()` (`None` when the text is not JSON), `roomPhotos`
   * the room's photos oldest first, `storyId` the id of the created row.
   */
  function Post(body: Option<Json>, aiProvider: Option<string>, roomPhotos: seq<StoredPhoto>, storyId: string,
                generate: GenRequest -> Generated): (r: (Response, Option<StoryRow>))
    ensures r.0.status in {200, 400, 500}
    ensures r.0.status == 200 <==> r.1.Some? && r.1.value.status == Ready
    ensures r.1.Some? ==> r.1.value.status != Processing
  {
    var input := if body.Some? then DecodeBody(body.value, aiProvider) else None;
    if input.None? then (Response(500, ErrorBody("internal_error")), None)
    else
      var photos := Take(roomPhotos, PhotoCap);
      if |photos| == 0 then (Response(400, ErrorBody("no_photos_in_room")), None)
      else
        match generate(RequestFor(input.value, photos))
        case Generated(beats, panels, tn, model) =>
          (Response(200, StoryStatus(storyId, "READY")),
           Some(StoryRow(TitleOf(tn), NarrativeOf(tn), beats, panels, Ready, model, None)))
        case Threw(err) =>
          (Response(500, ErrorBody("internal_error")),
           Some(PendingRow.(status := Failed, error := Some(ErrorText(err)))))
  }

  /* -------------------------------- lemmas -------------------------------- */

  /** A body that is not JSON or fails the schema is a 500 before any row exists. */
  lemma PostRejectsBody(body: Option<Json>, aiProvider: Option<string>, roomPhotos: seq<StoredPhoto>, storyId: string,
                        generate: GenRequest -> Generated)
    requires body.None? || DecodeBody(body.value, aiProvider).None?
    ensures Post(body, aiProvider, roomPhotos, storyId, generate) == (Response(500, ErrorBody("internal_error")), None)
  {
  }

  /** A room without photos is a 400 `no_photos_in_room`, and no story row is created. */
  lemma PostNoPhotos(v: Json, aiProvider: Option<string>, storyId: string, generate: GenRequest -> Generated)
    requires DecodeBody(v, aiProvider).Some?
    ensures Post(Some(v), aiProvider, [], storyId, generate) == (Response(400, ErrorBody("no_photos_in_room")), None)
  {
  }

  /**
   * What the provider is asked for: one to twelve photos, the oldest first,
   * the requested panel count or four to six by the photo count, and the
   * knobs' audience-dependent defaults.
   */
  lemma RequestBounds(b: Body, roomPhotos: seq<StoredPhoto>)
    requires ValidBody(b) && |roomPhotos| > 0
    ensures var q := RequestFor(b, Take(roomPhotos, PhotoCap));
            && 1 <= |q.photos| <= PhotoCap
            && (forall i :: 0 <= i < |q.photos| ==> q.photos[i].id == roomPhotos[i].id)
            && 1 <= q.panelCount <= 24
            && (b.panelCount.None? ==> 4 <= q.panelCount <= 6)
            && (b.audience.None? ==> q.audience == if b.comicAudience == Kids then "kids-10-12" else "adults")
            && (b.tone.None? ==> q.tone == if b.comicAudience == Kids then "wholesome" else "witty")
            && (b.style.None? ==> q.style == "funny")
  {
  }

  /** A generation that completes is a 200 READY, with the title and narrative read off the narrative value. */
  lemma PostReady(v: Json, aiProvider: Option<string>, roomPhotos: seq<StoredPhoto>, storyId: string,
                  generate: GenRequest -> Generated)
    requires DecodeBody(v, aiProvider).Some? && |roomPhotos| > 0
    requires generate(RequestFor(DecodeBody(v, aiProvider).value, Take(roomPhotos, PhotoCap))).Generated?
    ensures var g := generate(RequestFor(DecodeBody(v, aiProvider).value, Take(roomPhotos, PhotoCap)));
            var r := Post(Some(v), aiProvider, roomPhotos, storyId, generate);
            && r.0 == Response(200, StoryStatus(storyId, "READY"))
            && r.1 == Some(StoryRow(TitleOf(g.tn), NarrativeOf(g.tn), g.beats, g.panels, Ready, g.modelName, None))
  {
  }

  /** A generation that throws leaves the row in ERROR with at most 512 characters of message, and answers 500. */
  lemma PostFailed(v: Json, aiProvider: Option<string>, roomPhotos: seq<StoredPhoto>, storyId: string,
                   generate: GenRequest -> Generated)
    requires DecodeBody(v, aiProvider).Some? && |roomPhotos| > 0
    requires generate(RequestFor(DecodeBody(v, aiProvider).value, Take(roomPhotos, PhotoCap))).Threw?
    ensures var r := Post(Some(v), aiProvider, roomPhotos, storyId, generate);
            && r.0 == Response(500, ErrorBody("internal_error"))
            && r.1.Some? && r.1.value.status == Failed
            && r.1.value.error.Some? && |r.1.value.error.value| <= 512
            && r.1.value.title == "Generating…" && r.1.value.beats == [] && r.1.value.panels == []
  {
  }

  /** A provider's `{ title, narrative }` is stored as it is. */
  lemma RecordStoredAsIs(tn: TitleNarrative)
    ensures TitleOf(Record(Some(tn.title), Some(tn.narrative))) == tn.title
    ensures NarrativeOf(Record(Some(tn.title), Some(tn.narrative))) == tn.narrative
  {
  }
}
