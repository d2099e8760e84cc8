/**
 * The canonical Beat and Panel shapes of `lib/ai/structured.ts`: the schemas
 * `validateBeats` and `validatePanels` enforce (as decoders from parsed JSON
 * that keep only the known fields, the way zod does by default) and the
 * fence-stripping, bracket-slicing front end of `safeJson`.
 */
module Structured {
  import opened Wrappers
  import opened Json
  import opened Strings

  /* ------------------------------ data model ----------------------------- */

  datatype BeatType = Setup | Inciting | Rising | Climax | Twist | Resolution | Button

  function BeatTypeName(t: BeatType): string {
    match t
    case Setup => "setup"
    case Inciting => "inciting"
    case Rising => "rising"
    case Climax => "climax"
    case Twist => "twist"
    case Resolution => "resolution"
    case Button => "button"
  }

  /** The seven-value `BeatTypeEnum`. */
  function ParseBeatType(s: string): (r: Option<BeatType>)
    ensures r.Some? ==> BeatTypeName(r.value) == s
  {
    if s == "setup" then Some(Setup)
    else if s == "inciting" then Some(Inciting)
    else if s == "rising" then Some(Rising)
    else if s == "climax" then Some(Climax)
    else if s == "twist" then Some(Twist)
    else if s == "resolution" then Some(Resolution)
    else if s == "button" then Some(Button)
    else None
  }

  /** Every enum value is accepted under its own name, so the enum and its names are in one-to-one correspondence. */
  lemma BeatTypeRoundTrip(t: BeatType)
    ensures ParseBeatType(BeatTypeName(t)) == Some(t)
  {
  }

  /** `Beat`; the source's `type` field is called `kind` here. */
  datatype Beat = Beat(index: int, kind: BeatType, summary: string,
                       callouts: Option<seq<string>>, imageRefs: Option<seq<int>>)

  datatype Bubble = Bubble(speaker: Option<string>, text: string, aside: Option<bool>)

  datatype Panel = Panel(index: int, photoId: Option<string>, narration: Option<string>,
                         bubbles: Option<seq<Bubble>>, sfx: Option<seq<string>>, alt: Option<string>)

  /** The errors the extraction and validation steps throw. */
  datatype Failure =
    | JsonSyntax    // `JSON.parse` threw a SyntaxError
    | Schema        // zod's `parse` threw a ZodError
    | NullProperty  // a property was read from `null` or `undefined` (a TypeError)

  /* -------------------------------- schemas ------------------------------ */

  predicate AllNonEmpty(xs: seq<string>) {
    forall k :: 0 <= k < |xs| ==> |xs[k]| >= 1
  }

  predicate AllNonNegative(xs: seq<int>) {
    forall k :: 0 <= k < |xs| ==> xs[k] >= 0
  }

  /** `BeatSchema` */
  predicate ValidBeat(b: Beat) {
    && b.index >= 0
    && 1 <= |b.summary| <= 300
    && (b.callouts.Some? ==> AllNonEmpty(b.callouts.value))
    && (b.imageRefs.Some? ==> AllNonNegative(b.imageRefs.value))
  }

  /** `BeatsSchema`: three to twelve valid beats. */
  predicate ValidBeats(bs: seq<Beat>) {
    3 <= |bs| <= 12 && forall k :: 0 <= k < |bs| ==> ValidBeat(bs[k])
  }

  /** `PanelBubbleSchema` */
  predicate ValidBubble(b: Bubble) {
    (b.speaker.Some? ==> |b.speaker.value| >= 1) && 1 <= |b.text| <= 100
  }

  /** `z.array(PanelBubbleSchema).max(3)` */
  predicate ValidBubbles(bs: seq<Bubble>) {
    |bs| <= 3 && forall k :: 0 <= k < |bs| ==> ValidBubble(bs[k])
  }

  /** `PanelSchema` */
  predicate ValidPanel(p: Panel) {
    && p.index >= 0
    && (p.photoId.Some? ==> |p.photoId.value| >= 1)
    && (p.narration.Some? ==> 1 <= |p.narration.value| <= 280)
    && (p.bubbles.Some? ==> ValidBubbles(p.bubbles.value))
    && (p.sfx.Some? ==> AllNonEmpty(p.sfx.value))
    && (p.alt.Some? ==> 1 <= |p.alt.value| <= 160)
  }

  /** `PanelsSchema`: one to twenty-four valid panels. */
  predicate ValidPanels(ps: seq<Panel>) {
    1 <= |ps| <= 24 && forall k :: 0 <= k < |ps| ==> ValidPanel(ps[k])
  }

  /* ------------------------------- decoders ------------------------------ */

  /** `z.number().int().nonnegative()` */
  function DecodeIndex(v: Json): (r: Option<int>)
    ensures r.Some? ==> r.value >= 0 && v == JNum(r.value as real)
  {
    if v.JNum? && IsInt(v.n) && v.n >= 0.0 then Some(v.n.Floor) else None
  }

  /** `z.string().min(lo)`, and `.max(hi)` when `hi` is given. */
  function DecodeStr(v: Json, lo: nat, hi: Option<nat>): (r: Option<string>)
    ensures r.Some? ==> v == JStr(r.value) && lo <= |r.value| && (hi.Some? ==> |r.value| <= hi.value)
  {
    if v.JStr? && lo <= |v.s| && (hi.None? || |v.s| <= hi.value) then Some(v.s) else None
  }

  function DecodeNonEmpty(v: Json): (r: Option<string>)
    ensures r.Some? ==> v == JStr(r.value) && |r.value| >= 1
  {
    DecodeStr(v, 1, None)
  }

  function DecodeBool(v: Json): (r: Option<bool>)
    ensures r.Some? ==> v == JBool(r.value)
  {
    if v.JBool? then Some(v.b) else None
  }

  /** A required property: missing fails. */
  function Req<T>(v: Json, key: string, f: Json -> Option<T>): Option<T> {
    match Field(v, key)
    case None => None
    case Some(x) => f(x)
  }

  /** An `.optional()` property: `Some(None)` when missing, `None` when present but invalid. */
  function Opt<T>(v: Json, key: string, f: Json -> Option<T>): Option<Option<T>> {
    match Field(v, key)
    case None => Some(None)
    case Some(x) =>
      match f(x)
      case None => None
      case Some(y) => Some(Some(y))
  }

  function DecodeStrings(v: Json): (r: Option<seq<string>>)
    ensures r.Some? ==> AllNonEmpty(r.value)
  {
    if v.JArr? then DecodeEach(v.items, DecodeNonEmpty) else None
  }

  function DecodeIndexes(v: Json): (r: Option<seq<int>>)
    ensures r.Some? ==> AllNonNegative(r.value)
  {
    if v.JArr? then DecodeEach(v.items, DecodeIndex) else None
  }

  function DecodeBeatType(v: Json): Option<BeatType> {
    if v.JStr? then ParseBeatType(v.s) else None
  }

  function DecodeSummary(v: Json): Option<string> {
    DecodeStr(v, 1, Some(300))
  }

  function DecodeBubbleText(v: Json): Option<string> {
    DecodeStr(v, 1, Some(100))
  }

  function DecodeNarration(v: Json): Option<string> {
    DecodeStr(v, 1, Some(280))
  }

  function DecodeAlt(v: Json): Option<string> {
    DecodeStr(v, 1, Some(160))
  }

  /** `BeatSchema.parse` on one element: whatever it accepts is a valid beat. */
  function DecodeBeat(v: Json): (r: Option<Beat>)
    ensures r.Some? ==> ValidBeat(r.value)
  {
    match (Req(v, "index", DecodeIndex), Req(v, "type", DecodeBeatType), Req(v, "summary", DecodeSummary),
           Opt(v, "callouts", DecodeStrings), Opt(v, "imageRefs", DecodeIndexes))
    case (Some(i), Some(t), Some(s), Some(c), Some(refs)) => Some(Beat(i, t, s, c, refs))
    case _ => None
  }

  /** `BeatsSchema.parse`, the body of `validateBeats`; `None` input is `undefined`. */
  function DecodeBeats(v: Option<Json>): (r: Option<seq<Beat>>)
    ensures r.Some? ==> ValidBeats(r.value)
  {
    if v.Some? && v.value.JArr? && 3 <= |v.value.items| <= 12 then DecodeEach(v.value.items, DecodeBeat)
    else None
  }

  function DecodeBubble(v: Json): (r: Option<Bubble>)
    ensures r.Some? ==> ValidBubble(r.value)
  {
    match (Opt(v, "speaker", DecodeNonEmpty), Req(v, "text", DecodeBubbleText), Opt(v, "aside", DecodeBool))
    case (Some(sp), Some(t), Some(a)) => Some(Bubble(sp, t, a))
    case _ => None
  }

  function DecodeBubbles(v: Json): (r: Option<seq<Bubble>>)
    ensures r.Some? ==> ValidBubbles(r.value)
  {
    if v.JArr? && |v.items| <= 3 then DecodeEach(v.items, DecodeBubble) else None
  }

  /** `PanelSchema.parse` on one element: whatever it accepts is a valid panel. */
  function DecodePanel(v: Json): (r: Option<Panel>)
    ensures r.Some? ==> ValidPanel(r.value)
  {
    match (Req(v, "index", DecodeIndex), Opt(v, "photoId", DecodeNonEmpty),
           Opt(v, "narration", DecodeNarration), Opt(v, "bubbles", DecodeBubbles),
           Opt(v, "sfx", DecodeStrings), Opt(v, "alt", DecodeAlt))
    case (Some(i), Some(ph), Some(n), Some(bs), Some(sfx), Some(alt)) => Some(Panel(i, ph, n, bs, sfx, alt))
    case _ => None
  }

  /** `PanelsSchema.parse`, the body of `validatePanels`. */
  function DecodePanels(v: Option<Json>): (r: Option<seq<Panel>>)
    ensures r.Some? ==> ValidPanels(r.value)
  {
    if v.Some? && v.value.JArr? && 1 <= |v.value.items| <= 24 then DecodeEach(v.value.items, DecodePanel)
    else None
  }

  /** `validateBeats`: the beats, or a thrown schema error. */
  function ValidateBeats(v: Option<Json>): (r: Result<seq<Beat>, Failure>)
    ensures r.Ok? ==> ValidBeats(r.value)
    ensures r.Err? ==> r.error == Schema
  {
    match DecodeBeats(v)
    case Some(bs) => Ok(bs)
    case None => Err(Schema)
  }

  /** `validatePanels`: the panels, or a thrown schema error. */
  function ValidatePanels(v: Option<Json>): (r: Result<seq<Panel>, Failure>)
    ensures r.Ok? ==> ValidPanels(r.value)
    ensures r.Err? ==> r.error == Schema
  {
    match DecodePanels(v)
    case Some(ps) => Ok(ps)
    case None => Err(Schema)
  }

  /* ------------------------------- encoders ------------------------------ */

  function StringsJson(xs: seq<string>): Json {
    JArr(EncodeEach(xs, (x: string) => JStr(x)))
  }

  function IndexesJson(xs: seq<int>): Json {
    JArr(EncodeEach(xs, (i: int) => JNum(i as real)))
  }

  /** Adds `key` when the optional value is present. */
  function With<T>(m: map<string, Json>, key: string, o: Option<T>, g: T -> Json): map<string, Json> {
    if o.Some? then m[key := g(o.value)] else m
  }

  /** A beat as the backend is asked to write it. */
  function BeatJson(b: Beat): Json {
    var m := map["index" := JNum(b.index as real), "type" := JStr(BeatTypeName(b.kind)), "summary" := JStr(b.summary)];
    JObj(With(With(m, "callouts", b.callouts, StringsJson), "imageRefs", b.imageRefs, IndexesJson))
  }

  function BeatsJson(bs: seq<Beat>): Json {
    JArr(EncodeEach(bs, BeatJson))
  }

  function BubbleJson(b: Bubble): Json {
    var m := map["text" := JStr(b.text)];
    JObj(With(With(m, "speaker", b.speaker, (s: string) => JStr(s)), "aside", b.aside, (a: bool) => JBool(a)))
  }

  function BubblesJson(bs: seq<Bubble>): Json {
    JArr(EncodeEach(bs, BubbleJson))
  }

  /** A panel as the backend is asked to write it. */
  function PanelJson(p: Panel): Json {
    var m := map["index" := JNum(p.index as real)];
    var m := With(m, "photoId", p.photoId, (s: string) => JStr(s));
    var m := With(m, "narration", p.narration, (s: string) => JStr(s));
    var m := With(m, "bubbles", p.bubbles, BubblesJson);
    var m := With(m, "sfx", p.sfx, StringsJson);
    JObj(With(m, "alt", p.alt, (s: string) => JStr(s)))
  }

  function PanelsJson(ps: seq<Panel>): Json {
    JArr(EncodeEach(ps, PanelJson))
  }

  /* ------------------------------ round trips ---------------------------- */

  lemma StringsRoundTrip(xs: seq<string>)
    ensures DecodeStrings(StringsJson(xs)) == if AllNonEmpty(xs) then Some(xs) else None
  {
    var g := (x: string) => JStr(x);
    DecodeEncodeEach(xs, g, DecodeNonEmpty);
    if !AllNonEmpty(xs) {
      var k :| 0 <= k < |xs| && |xs[k]| < 1;
      assert DecodeNonEmpty(EncodeEach(xs, g)[k]).None?;
    }
  }

  lemma IndexesRoundTrip(xs: seq<int>)
    ensures DecodeIndexes(IndexesJson(xs)) == if AllNonNegative(xs) then Some(xs) else None
  {
    var g := (i: int) => JNum(i as real);
    DecodeEncodeEach(xs, g, DecodeIndex);
    if !AllNonNegative(xs) {
      var k :| 0 <= k < |xs| && xs[k] < 0;
      assert DecodeIndex(EncodeEach(xs, g)[k]).None?;
    }
  }

  /** An optional property written with `enc` and read back with `f`, which accepts exactly the values satisfying `ok`. */
  lemma OptRoundTrip<T>(v: Json, key: string, o: Option<T>, enc: T -> Json, f: Json -> Option<T>, ok: T -> bool)
    requires Field(v, key) == if o.Some? then Some(enc(o.value)) else None
    requires o.Some? ==> f(enc(o.value)) == if ok(o.value) then Some(o.value) else None
    ensures Opt(v, key, f) == if o.Some? ==> ok(o.value) then Some(o) else None
  {
  }

  /** Where each property of a written-out beat comes from. */
  lemma BeatJsonFields(b: Beat)
    ensures Field(BeatJson(b), "index") == Some(JNum(b.index as real))
    ensures Field(BeatJson(b), "type") == Some(JStr(BeatTypeName(b.kind)))
    ensures Field(BeatJson(b), "summary") == Some(JStr(b.summary))
    ensures Field(BeatJson(b), "callouts") == if b.callouts.Some? then Some(StringsJson(b.callouts.value)) else None
    ensures Field(BeatJson(b), "imageRefs") == if b.imageRefs.Some? then Some(IndexesJson(b.imageRefs.value)) else None
  {
  }

  /** A beat written out as JSON is accepted by `BeatSchema` exactly when it is valid, and then comes back unchanged. */
  lemma BeatRoundTrip(b: Beat)
    ensures DecodeBeat(BeatJson(b)) == if ValidBeat(b) then Some(b) else None
  {
    var v := BeatJson(b);
    BeatJsonFields(b);
    BeatTypeRoundTrip(b.kind);
    assert Req(v, "index", DecodeIndex) == if b.index >= 0 then Some(b.index) else None;
    assert Req(v, "type", DecodeBeatType) == Some(b.kind);
    assert Req(v, "summary", DecodeSummary) == if 1 <= |b.summary| <= 300 then Some(b.summary) else None;
    if b.callouts.Some? { StringsRoundTrip(b.callouts.value); }
    OptRoundTrip(v, "callouts", b.callouts, StringsJson, DecodeStrings, AllNonEmpty);
    if b.imageRefs.Some? { IndexesRoundTrip(b.imageRefs.value); }
    OptRoundTrip(v, "imageRefs", b.imageRefs, IndexesJson, DecodeIndexes, AllNonNegative);
  }

  /** `validateBeats` accepts a written-out beat list exactly when it satisfies `BeatsSchema`, and returns it unchanged. */
  lemma BeatsRoundTrip(bs: seq<Beat>)
    ensures ValidateBeats(Some(BeatsJson(bs))) == if ValidBeats(bs) then Ok(bs) else Err(Schema)
  {
    forall k | 0 <= k < |bs| ensures DecodeBeat(BeatJson(bs[k])) == if ValidBeat(bs[k]) then Some(bs[k]) else None {
      BeatRoundTrip(bs[k]);
    }
    DecodeEncodeEachIff(bs, BeatJson, DecodeBeat, ValidBeat);
  }

  lemma BubbleRoundTrip(b: Bubble)
    ensures DecodeBubble(BubbleJson(b)) == if ValidBubble(b) then Some(b) else None
  {
  }

  lemma BubblesRoundTrip(bs: seq<Bubble>)
    ensures DecodeBubbles(BubblesJson(bs)) == if ValidBubbles(bs) then Some(bs) else None
  {
    forall k | 0 <= k < |bs| ensures DecodeBubble(BubbleJson(bs[k])) == if ValidBubble(bs[k]) then Some(bs[k]) else None {
      BubbleRoundTrip(bs[k]);
    }
    DecodeEncodeEachIff(bs, BubbleJson, DecodeBubble, ValidBubble);
  }

  /** Where each property of a written-out panel comes from. */
  lemma PanelJsonFields(p: Panel)
    ensures Field(PanelJson(p), "index") == Some(JNum(p.index as real))
    ensures Field(PanelJson(p), "photoId") == if p.photoId.Some? then Some(JStr(p.photoId.value)) else None
    ensures Field(PanelJson(p), "narration") == if p.narration.Some? then Some(JStr(p.narration.value)) else None
    ensures Field(PanelJson(p), "bubbles") == if p.bubbles.Some? then Some(BubblesJson(p.bubbles.value)) else None
    ensures Field(PanelJson(p), "sfx") == if p.sfx.Some? then Some(StringsJson(p.sfx.value)) else None
    ensures Field(PanelJson(p), "alt") == if p.alt.Some? then Some(JStr(p.alt.value)) else None
  {
  }

  /** An optional text property of a panel, written out and read back with the bounds `lo..hi`. */
  lemma OptStrRoundTrip(v: Json, key: string, o: Option<string>, f: Json -> Option<string>, lo: nat, hi: Option<nat>)
    requires Field(v, key) == if o.Some? then Some(JStr(o.value)) else None
    requires forall x :: f(x) == DecodeStr(x, lo, hi)
    ensures Opt(v, key, f) == if o.Some? ==> lo <= |o.value| && (hi.Some? ==> |o.value| <= hi.value) then Some(o) else None
  {
  }

  /** `PanelSchema` on any object whose six properties decode as those of `p` would. */
  lemma DecodePanelFrom(v: Json, p: Panel)
    requires Req(v, "index", DecodeIndex) == if p.index >= 0 then Some(p.index) else None
    requires Opt(v, "photoId", DecodeNonEmpty) == if p.photoId.Some? ==> 1 <= |p.photoId.value| then Some(p.photoId) else None
    requires Opt(v, "narration", DecodeNarration) == if p.narration.Some? ==> 1 <= |p.narration.value| <= 280 then Some(p.narration) else None
    requires Opt(v, "bubbles", DecodeBubbles) == if p.bubbles.Some? ==> ValidBubbles(p.bubbles.value) then Some(p.bubbles) else None
    requires Opt(v, "sfx", DecodeStrings) == if p.sfx.Some? ==> AllNonEmpty(p.sfx.value) then Some(p.sfx) else None
    requires Opt(v, "alt", DecodeAlt) == if p.alt.Some? ==> 1 <= |p.alt.value| <= 160 then Some(p.alt) else None
    ensures DecodePanel(v) == if ValidPanel(p) then Some(p) else None
  {
  }

  /** A panel written out as JSON is accepted by `PanelSchema` exactly when it is valid, and then comes back unchanged. */
  lemma PanelRoundTrip(p: Panel)
    ensures DecodePanel(PanelJson(p)) == if ValidPanel(p) then Some(p) else None
  {
    var v := PanelJson(p);
    PanelJsonFields(p);
    assert Req(v, "index", DecodeIndex) == if p.index >= 0 then Some(p.index) else None;
    OptStrRoundTrip(v, "photoId", p.photoId, DecodeNonEmpty, 1, None);
    OptStrRoundTrip(v, "narration", p.narration, DecodeNarration, 1, Some(280));
    OptStrRoundTrip(v, "alt", p.alt, DecodeAlt, 1, Some(160));
    if p.bubbles.Some? { BubblesRoundTrip(p.bubbles.value); }
    OptRoundTrip(v, "bubbles", p.bubbles, BubblesJson, DecodeBubbles, ValidBubbles);
    if p.sfx.Some? { StringsRoundTrip(p.sfx.value); }
    OptRoundTrip(v, "sfx", p.sfx, StringsJson, DecodeStrings, AllNonEmpty);
    DecodePanelFrom(v, p);
  }

  /** `validatePanels` accepts a written-out panel list exactly when it satisfies `PanelsSchema`, and returns it unchanged. */
  lemma PanelsRoundTrip(ps: seq<Panel>)
    ensures ValidatePanels(Some(PanelsJson(ps))) == if ValidPanels(ps) then Ok(ps) else Err(Schema)
  {
    forall k | 0 <= k < |ps| ensures DecodePanel(PanelJson(ps[k])) == if ValidPanel(ps[k]) then Some(ps[k]) else None {
      PanelRoundTrip(ps[k]);
    }
    DecodeEncodeEachIff(ps, PanelJson, DecodePanel, ValidPanel);
  }

  /* ------------------------------- safeJson ------------------------------ */

  /** Removes a leading fence `^```(?:json)?\s*`, the `json` tag matched without regard to ASCII case. */
  function StripOpeningFence(s: string): string {
    if StartsWith(s, "```") then
      var t := s[3..];
      TrimStart(if |t| >= 4 && ToLower(t[..4]) == "json" then t[4..] else t)
    else s
  }

  /** Removes a trailing fence "```" (`/```$/`). */
  function StripClosingFence(s: string): string {
    if |s| >= 3 && s[|s| - 3..] == "```" then s[..|s| - 3] else s
  }

  /** The `trimmed` string of `safeJson`: trim, drop the fences, trim again. */
  function Unfence(raw: string): string {
    Trim(StripClosingFence(StripOpeningFence(Trim(raw))))
  }

  predicate IsOpener(c: char) { c == '{' || c == '[' }
  predicate IsCloser(c: char) { c == '}' || c == ']' }

  /** `Math.min(s.indexOf("{"), s.indexOf("["))`, with `None` for the source's `MAX_SAFE_INTEGER` when neither occurs. */
  function FirstOpener(s: string, from: nat): (r: Option<nat>)
    ensures r.Some? ==> from <= r.value < |s| && IsOpener(s[r.value])
    ensures r.Some? ==> forall k :: from <= k < r.value ==> !IsOpener(s[k])
    ensures r.None? ==> forall k :: from <= k < |s| ==> !IsOpener(s[k])
    decreases |s| - from
  {
    if from >= |s| then None
    else if IsOpener(s[from]) then Some(from)
    else FirstOpener(s, from + 1)
  }

  /** `Math.max(s.lastIndexOf("}"), s.lastIndexOf("]"))` among the first `upto` characters, with `None` for -1. */
  function LastCloser(s: string, upto: nat): (r: Option<nat>)
    requires upto <= |s|
    ensures r.Some? ==> r.value < upto && IsCloser(s[r.value])
    ensures r.Some? ==> forall k :: r.value < k < upto ==> !IsCloser(s[k])
    ensures r.None? ==> forall k :: 0 <= k < upto ==> !IsCloser(s[k])
  {
    if upto == 0 then None
    else if IsCloser(s[upto - 1]) then Some(upto - 1)
    else LastCloser(s, upto - 1)
  }

  /** From the first opening bracket to the last closing one, when the latter follows the former; otherwise all of `t`. */
  function BracketSlice(t: string): string {
    var first := FirstOpener(t, 0);
    var last := LastCloser(t, |t|);
    if first.Some? && last.Some? && last.value > first.value then t[first.value..last.value + 1] else t
  }

  /** The text `safeJson` hands to `JSON.parse`. */
  function JsonSlice(raw: string): string {
    BracketSlice(Unfence(raw))
  }

  /** `safeJson`: parse the slice, or throw the parser's SyntaxError. */
  function SafeJson(raw: string, parse: Parser): Result<Json, Failure> {
    match parse(JsonSlice(raw))
    case Some(v) => Ok(v)
    case None => Err(JsonSyntax)
  }

  predicate NoBrackets(s: string) {
    forall k :: 0 <= k < |s| ==> !IsOpener(s[k]) && !IsCloser(s[k]) && s[k] != '`'
  }

  /** A JSON object or array as text: it opens with a bracket and closes with one. */
  predicate BracketedText(body: string) {
    |body| > 0 && IsOpener(body[0]) && IsCloser(body[|body| - 1])
  }

  lemma TrimStartAppend(x: string, y: string)
    requires |y| > 0 && !IsSpace(y[0])
    ensures TrimStart(x + y) == TrimStart(x) + y
    decreases |x|
  {
    if |x| == 0 {
      assert x + y == y;
      TrimStartOfTrimmed(y);
    } else if IsSpace(x[0]) {
      assert (x + y)[1..] == x[1..] + y;
      TrimStartAppend(x[1..], y);
    }
  }

  lemma TrimEndPrepend(x: string, y: string)
    requires |x| > 0 && !IsSpace(x[|x| - 1])
    ensures TrimEnd(x + y) == x + TrimEnd(y)
    decreases |y|
  {
    if |y| == 0 {
      assert x + y == x;
      TrimEndOfTrimmed(x);
    } else if IsSpace(y[|y| - 1]) {
      assert (x + y)[..|x + y| - 1] == x + y[..|y| - 1];
      TrimEndPrepend(x, y[..|y| - 1]);
    }
  }

  lemma BracketNotSpace(c: char)
    requires IsOpener(c) || IsCloser(c)
    ensures !IsSpace(c)
  {
  }

  /** `trimStart` stops at a core that starts with a non-space character. */
  lemma TrimStartAround(before: string, core: string, after: string)
    requires |core| > 0 && !IsSpace(core[0])
    ensures TrimStart(before + core + after) == TrimStart(before) + core + after
  {
    var ca := core + after;
    assert ca[0] == core[0];
    Assoc(before, core, after);
    TrimStartAppend(before, ca);
    Assoc(TrimStart(before), core, after);
  }

  /** `trimEnd` stops at a core that ends with a non-space character. */
  lemma TrimEndAround(p: string, core: string, after: string)
    requires |core| > 0 && !IsSpace(core[|core| - 1])
    ensures TrimEnd(p + core + after) == p + core + TrimEnd(after)
  {
    var pc := p + core;
    assert pc[|pc| - 1] == core[|core| - 1];
    TrimEndPrepend(pc, after);
  }

  /** Trimming text around a core that starts and ends with non-space characters only trims the outside. */
  lemma TrimAround(before: string, core: string, after: string)
    requires |core| > 0 && !IsSpace(core[0]) && !IsSpace(core[|core| - 1])
    ensures Trim(before + core + after) == TrimStart(before) + core + TrimEnd(after)
  {
    TrimStartAround(before, core, after);
    TrimEndAround(TrimStart(before), core, after);
  }

  /** The first bracket found from `from` is at `i` when none comes between. */
  lemma {:induction false} FirstOpenerAt(s: string, from: nat, i: nat)
    requires from <= i < |s| && IsOpener(s[i])
    requires forall k :: from <= k < i ==> !IsOpener(s[k])
    ensures FirstOpener(s, from) == Some(i)
    decreases i - from
  {
    if from < i {
      FirstOpenerAt(s, from + 1, i);
    }
  }

  /** The last closing bracket before `upto` is at `i` when none comes after it. */
  lemma {:induction false} LastCloserAt(s: string, upto: nat, i: nat)
    requires i < upto <= |s| && IsCloser(s[i])
    requires forall k :: i < k < upto ==> !IsCloser(s[k])
    ensures LastCloser(s, upto) == Some(i)
    decreases upto - i
  {
    if i < upto - 1 {
      LastCloserAt(s, upto - 1, i);
    }
  }

  /** Slicing a text made of bracket-free prose, a bracketed body and bracket-free prose yields the body. */
  lemma SliceAround(p: string, body: string, q: string)
    requires NoBrackets(p) && NoBrackets(q) && BracketedText(body)
    ensures BracketSlice(p + body + q) == body
  {
    var t := p + body + q;
    var e := |p| + |body| - 1;
    assert t[|p|] == body[0];
    assert t[e] == body[|body| - 1];
    forall k | 0 <= k < |p| ensures !IsOpener(t[k]) {
      assert t[k] == p[k];
    }
    forall k | e < k < |t| ensures !IsCloser(t[k]) {
      assert t[k] == q[k - |p| - |body|];
    }
    FirstOpenerAt(t, 0, |p|);
    LastCloserAt(t, |t|, e);
    assert t[|p|..e + 1] == body;
  }

  /**
   * Extraction round trip: a JSON object or array surrounded by prose that
   * holds no brackets and no backticks is sliced out exactly, so `safeJson`
   * parses the JSON text itself.
   */
  lemma EmbeddedRoundTrip(before: string, body: string, after: string)
    requires NoBrackets(before) && NoBrackets(after) && BracketedText(body)
    ensures JsonSlice(before + body + after) == body
  {
    UnfenceAround(before, body, after);
    NoBracketsTrimmed(before);
    NoBracketsTrimmed(after);
    SliceAround(TrimStart(before), body, TrimEnd(after));
  }

  /** Bracket-free prose around a bracketed body is trimmed but holds no fence to strip. */
  lemma UnfenceAround(before: string, body: string, after: string)
    requires NoBrackets(before) && NoBrackets(after) && BracketedText(body)
    ensures Unfence(before + body + after) == TrimStart(before) + body + TrimEnd(after)
  {
    BracketNotSpace(body[0]);
    BracketNotSpace(body[|body| - 1]);
    TrimAround(before, body, after);
    UnfenceOfTrimmed(before + body + after);
    UnfenceCleanTrimmed(before, body, after);
  }

  /** The trimmed prose around a bracketed body holds no fence to strip. */
  lemma UnfenceCleanTrimmed(before: string, body: string, after: string)
    requires NoBrackets(before) && NoBrackets(after) && BracketedText(body)
    ensures Unfence(TrimStart(before) + body + TrimEnd(after)) == TrimStart(before) + body + TrimEnd(after)
  {
    var p, q := TrimStart(before), TrimEnd(after);
    var t := p + body + q;
    NoBracketsTrimmed(before);
    NoBracketsTrimmed(after);
    EndsOfConcat(p, body, q);
    if |p| > 0 {
      assert t[0] == p[0];
    } else {
      BracketNotSpace(body[0]);
    }
    if |q| > 0 {
      assert t[|t| - 1] == q[|q| - 1];
    } else {
      BracketNotSpace(body[|body| - 1]);
    }
    UnfenceUnfenced(t);
  }

  lemma {:induction false} NoBracketsTrimmed(s: string)
    requires NoBrackets(s)
    ensures NoBrackets(TrimStart(s)) && NoBrackets(TrimEnd(s))
  {
    NoBracketsTrimStart(s);
    NoBracketsTrimEnd(s);
  }

  lemma NoBracketsTrimStart(s: string)
    requires NoBrackets(s)
    ensures NoBrackets(TrimStart(s))
  {
    var a := TrimStart(s);
    forall k | 0 <= k < |a| ensures !IsOpener(a[k]) && !IsCloser(a[k]) && a[k] != '`' {
      assert a[k] == s[|s| - |a| + k];
    }
  }

  lemma NoBracketsTrimEnd(s: string)
    requires NoBrackets(s)
    ensures NoBrackets(TrimEnd(s))
  {
    var b := TrimEnd(s);
    forall k | 0 <= k < |b| ensures !IsOpener(b[k]) && !IsCloser(b[k]) && b[k] != '`' {
      assert b[k] == s[k];
    }
  }

  lemma {:induction false} UnfenceOfTrimmed(raw: string)
    ensures Unfence(raw) == Unfence(Trim(raw))
  {
    TrimIdempotent(raw);
  }

  lemma {:induction false} EndsOfConcat(p: string, body: string, q: string)
    requires |body| > 0
    ensures (p + body + q)[0] == if |p| > 0 then p[0] else body[0]
    ensures (p + body + q)[|p + body + q| - 1] == if |q| > 0 then q[|q| - 1] else body[|body| - 1]
  {
  }

  /** A trimmed text that does not itself begin or end with a fence is left alone by the fence stripping. */
  lemma UnfenceUnfenced(body: string)
    requires IsTrimmed(body) && |body| > 0 && body[0] != '`' && body[|body| - 1] != '`'
    ensures Unfence(body) == body
  {
    TrimTrimmed(body);
    assert StripOpeningFence(body) == body;
    assert StripClosingFence(body) == body;
  }

  /** A text in a Markdown code fence, the opening one optionally tagged `json`. */
  function Fenced(body: string, tagged: bool): string {
    (if tagged then "```json\n" else "```\n") + ((body + "\n") + "```")
  }

  /** The opening fence and the line break after it are dropped, the `json` tag with them. */
  lemma StripOpeningFenceOf(rest: string, tagged: bool)
    requires |rest| > 0 && !IsSpace(rest[0])
    ensures StripOpeningFence((if tagged then "```json\n" else "```\n") + rest) == rest
  {
    var s := (if tagged then "```json\n" else "```\n") + rest;
    assert s[..3] == "```";
    var t := s[3..];
    if tagged {
      assert t[..4] == "json";
      assert ToLower(t[..4]) == "json";
      assert t[4..] == "\n" + rest;
    } else {
      assert t == "\n" + rest;
      assert |t| >= 4 ==> ToLower(t[..4])[0] == '\n';
    }
    assert ("\n" + rest)[1..] == rest;
    TrimStartOfTrimmed(rest);
  }

  /** Trimming drops the line break left after the closing fence. */
  lemma TrimLineBreak(body: string)
    requires IsTrimmed(body) && |body| > 0
    ensures Trim(body + "\n") == body
  {
    TrimStartOfTrimmed(body + "\n");
    assert (body + "\n")[..|body|] == body;
    TrimEndOfTrimmed(body);
  }

  /**
   * A code fence, with or without the `json` tag, around a trimmed text is
   * removed, so the fenced text is sliced and parsed as the bare one.
   */
  lemma FencedRoundTrip(body: string, tagged: bool)
    requires IsTrimmed(body) && |body| > 0 && body[0] != '`' && body[|body| - 1] != '`'
    ensures Unfence(Fenced(body, tagged)) == body
  {
    var closed := (body + "\n") + "```";
    var raw := Fenced(body, tagged);
    assert raw[0] == '`' && raw[|raw| - 1] == '`';
    TrimTrimmed(raw);
    StripOpeningFenceOf(closed, tagged);
    StripClosingFenceOf(body + "\n");
    TrimLineBreak(body);
  }

  lemma StripClosingFenceOf(s: string)
    ensures StripClosingFence(s + "```") == s
  {
    assert (s + "```")[..|s|] == s;
  }

  /** Hence `safeJson` slices and parses a fenced text as the bare one. */
  lemma FencedSlice(body: string, tagged: bool)
    requires IsTrimmed(body) && |body| > 0 && body[0] != '`' && body[|body| - 1] != '`'
    ensures JsonSlice(Fenced(body, tagged)) == JsonSlice(body)
  {
    FencedRoundTrip(body, tagged);
    UnfenceUnfenced(body);
    SliceOfUnfenced(Fenced(body, tagged), body);
  }

  lemma SliceOfUnfenced(a: string, b: string)
    requires Unfence(a) == Unfence(b)
    ensures JsonSlice(a) == JsonSlice(b)
  {
  }

  /** Blank model output reaches `JSON.parse` as the empty text, which every JSON parser rejects. */
  lemma SafeJsonBlank(raw: string, parse: Parser)
    requires Trim(raw) == "" && RejectsEmpty(parse)
    ensures SafeJson(raw, parse) == Err(JsonSyntax)
  {
    var empty: string := "";
    assert StripOpeningFence(empty) == empty;
    assert StripClosingFence(empty) == empty;
    TrimTrimmed(empty);
    assert Unfence(raw) == empty;
    assert BracketSlice(empty) == empty;
  }

  /** The empty object is its own JSON slice. */
  lemma EmptyObjectSlice()
    ensures JsonSlice("{}") == "{}"
  {
    var t: string := "{}";
    UnfenceUnfenced(t);
    FirstOpenerAt(t, 0, 0);
    LastCloserAt(t, 2, 1);
    assert t[0..2] == t;
  }
}
