/**
 * `MockProvider` of `lib/ai/provider-mock.ts`: the offline story provider,
 * whose beats, panels and narrative are fixed functions of the photo count,
 * the beats and the requested panel count.
 */
module ProviderMock {
  import opened Wrappers
  import opened Strings
  import opened Structured
  import opened Providers
  import opened Panels
  import Config

  const ProviderName: string := "mock"
  const ModelName: string := "mock:v0"

  /** The six beat types the mock hands out, in arc order; it never uses "twist". */
  const Kinds: seq<BeatType> := [Setup, Inciting, Rising, Climax, Resolution, Button]

  const FirstSummary: string := "Our heroes discover the camera has a knack for catching chaos."
  const LastSummary: string := "They agree the sunglasses deserve assistant-director credit."
  const MiddleSummary: string := "Escalating antics involve snacks, timing, and suspicious coincidences."

  function Min(a: int, b: int): int { if a <= b then a else b }
  function Max(a: int, b: int): int { if a >= b then a else b }

  /** The number of beats for `n` photos: `Math.min(Math.max(5, n), 7)`. */
  function BeatCount(n: nat): (c: nat)
    ensures 5 <= c <= 7
    ensures 5 <= n <= 7 ==> c == n
  {
    Min(Max(5, n), 7)
  }

  /** Beat `i` of `count`, for `n` photos. */
  function MockBeat(i: nat, count: nat, n: nat): Beat {
    Beat(i, Kinds[Min(i, |Kinds| - 1)],
         if i == 0 then FirstSummary else if i == count - 1 then LastSummary else MiddleSummary,
         Some(if i % 2 == 1 then ["sunglasses", "gasp"] else ["snack", "spin"]),
         Some([i % Max(1, n)]))
  }

  /** `genBeats({ photos })` */
  function GenBeats(photos: seq<Photo>): (r: seq<Beat>)
    ensures |r| == BeatCount(|photos|)
    ensures forall i :: 0 <= i < |r| ==> r[i].index == i && r[i].kind != Twist
    ensures forall i :: 0 <= i < |r| ==> r[i].imageRefs == Some([i % Max(1, |photos|)])
    ensures |photos| > 0 ==> forall i :: 0 <= i < |r| ==> 0 <= r[i].imageRefs.value[0] < |photos|
  {
    var count := BeatCount(|photos|);
    seq(count, i requires 0 <= i < count => MockBeat(i, count, |photos|))
  }

  /** The mock's beats pass the beats schema `validateBeats` enforces. */
  lemma GenBeatsValid(photos: seq<Photo>)
    ensures ValidBeats(GenBeats(photos))
  {
    var r := GenBeats(photos);
    forall i | 0 <= i < |r|
      ensures ValidBeat(r[i])
    {
      assert 1 <= |FirstSummary| <= 300 && 1 <= |LastSummary| <= 300 && 1 <= |MiddleSummary| <= 300;
      assert AllNonEmpty(["sunglasses", "gasp"]) && AllNonEmpty(["snack", "spin"]);
    }
  }

  /** The story arc: the first beat is the setup, the last of five to seven is the resolution or the button. */
  lemma GenBeatsArc(photos: seq<Photo>)
    ensures GenBeats(photos)[0].kind == Setup
    ensures GenBeats(photos)[|GenBeats(photos)| - 1].kind == if |GenBeats(photos)| == 5 then Resolution else Button
  {
  }

  /* -------------------------------- panels ------------------------------- */

  const EvenNarration: string := "Warm-up turns into a perfectly unplanned routine."
  const OddNarration: string := "A ricochet shot convinces everyone fate loves a good snack."
  const EvenBubbles: seq<Bubble> := [Bubble(Some("Puppy"), "I do strategy AND snacks.", None)]
  const OddBubbles: seq<Bubble> := [Bubble(None, "Left… other left!", None), Bubble(Some("Zoey"), "Totally planned.", None)]

  /** `Panel ${i + 1} reflecting beat ${b.type}` */
  function AltText(i: nat, b: Beat): string {
    "Panel " + NatToString(i + 1) + " reflecting beat " + BeatTypeName(b.kind)
  }

  /** The alt text reads "Panel ", then the panel's 1-based number, and ends with the beat's type, which parses back. */
  lemma AltNamesBeat(i: nat, b: Beat)
    ensures var a := AltText(i, b); var n := BeatTypeName(b.kind); var num := NatToString(i + 1);
            && |a| == 6 + |num| + 17 + |n|
            && a[..6] == "Panel "
            && a[6..6 + |num|] == num
            && ParseBeatType(a[|a| - |n|..]) == Some(b.kind)
  {
    var a := AltText(i, b);
    var n := BeatTypeName(b.kind);
    var num := NatToString(i + 1);
    assert a == "Panel " + num + " reflecting beat " + n;
    assert a[|a| - |n|..] == n;
    assert a[6..6 + |num|] == num;
    BeatTypeRoundTrip(b.kind);
  }

  /** Panel `i`: photo and beat picked round-robin, bubbles and sound effects by parity. */
  function MockPanel(i: nat, beats: seq<Beat>, photos: seq<Photo>): Panel
    requires |beats| > 0 && |photos| > 0
  {
    var even := i % 2 == 0;
    Panel(i, Some(photos[i % |photos|].id),
          Some(if even then EvenNarration else OddNarration),
          Some(if even then EvenBubbles else OddBubbles),
          if even then Some(["WHOOSH"]) else None,
          Some(AltText(i, beats[i % |beats|])))
  }

  /**
   * `genPanels({ beats, photos, panelCount })`. A negative count gives no
   * panels, as `Array.from({ length })` does; with panels to make and no
   * photos or no beats, reading `p.id` or `b.type` throws.
   */
  function GenPanels(beats: seq<Beat>, photos: seq<Photo>, panelCount: int): (r: Result<seq<Panel>, Failure>)
    ensures r.Err? <==> panelCount > 0 && (|photos| == 0 || |beats| == 0)
    ensures r.Ok? ==> |r.value| == Max(0, panelCount)
    ensures r.Ok? ==> forall i :: 0 <= i < |r.value| ==>
              r.value[i].index == i && r.value[i].photoId == Some(photos[i % |photos|].id)
    ensures r.Ok? ==> forall i :: 0 <= i < |r.value| ==>
              r.value[i].bubbles.Some? && |r.value[i].bubbles.value| == (if i % 2 == 0 then 1 else 2)
              && (r.value[i].sfx.Some? <==> i % 2 == 0)
    // the narration alternates by parity; the alt text names panel i + 1 and beat i mod |beats|
    ensures r.Ok? ==> forall i :: 0 <= i < |r.value| ==>
              r.value[i].narration == Some(if i % 2 == 0 then EvenNarration else OddNarration)
              && r.value[i].alt == Some(AltText(i, beats[i % |beats|]))
  {
    if panelCount <= 0 then Ok([])
    else if |photos| == 0 || |beats| == 0 then Err(NullProperty)
    else Ok(seq(panelCount, i requires 0 <= i < panelCount => MockPanel(i, beats, photos)))
  }

  /** Every panel shows one of the supplied photos. */
  lemma GenPanelsPhotos(beats: seq<Beat>, photos: seq<Photo>, panelCount: int)
    requires GenPanels(beats, photos, panelCount).Ok?
    ensures forall i :: 0 <= i < |GenPanels(beats, photos, panelCount).value| ==>
              var pid := GenPanels(beats, photos, panelCount).value[i].photoId;
              pid.Some? && pid.value in PhotoIds(photos)
  {
    var r := GenPanels(beats, photos, panelCount).value;
    forall i | 0 <= i < |r|
      ensures r[i].photoId.Some? && r[i].photoId.value in PhotoIds(photos)
    {
      var j := i % |photos|;
      assert PhotoIds(photos)[j] == photos[j].id;
    }
  }

  lemma NatToStringShort(n: nat)
    requires n < 100
    ensures |NatToString(n)| <= 2
  {
  }

  lemma AltTextShort(i: nat, b: Beat)
    requires i < 24
    ensures 1 <= |AltText(i, b)| <= 160
  {
    NatToStringShort(i + 1);
    assert |BeatTypeName(b.kind)| <= 10;
  }

  /**
   * For a count the panels schema allows and photos with non-empty ids, the
   * mock's panels pass the schema `validatePanels` enforces.
   */
  lemma GenPanelsValid(beats: seq<Beat>, photos: seq<Photo>, panelCount: int)
    requires 1 <= panelCount <= 24 && |beats| > 0 && |photos| > 0
    requires forall j :: 0 <= j < |photos| ==> photos[j].id != ""
    ensures GenPanels(beats, photos, panelCount).Ok?
    ensures ValidPanels(GenPanels(beats, photos, panelCount).value)
  {
    var r := GenPanels(beats, photos, panelCount).value;
    forall i | 0 <= i < |r|
      ensures ValidPanel(r[i])
    {
      AltTextShort(i, beats[i % |beats|]);
      assert ValidBubble(EvenBubbles[0]);
      assert ValidBubble(OddBubbles[0]) && ValidBubble(OddBubbles[1]);
      assert 1 <= |EvenNarration| <= 280 && 1 <= |OddNarration| <= 280;
      assert AllNonEmpty(["WHOOSH"]);
    }
  }

  /* ------------------------------- narrative ------------------------------ */

  const DefaultStyle: string := "quirky, kid-friendly"
  const Arrow: string := " → "

  /** `beats.map(b => b.type).join(" → ")` */
  function Arc(beats: seq<Beat>): string {
    Join(seq(|beats|, i requires 0 <= i < |beats| => BeatTypeName(beats[i].kind)), Arrow)
  }

  const Middle: string := "Warm-ups become stunts, stunts become legends, and every snack seems to trigger a plot twist."
  const Ending: string := "By the time the sunglasses demand a producer credit, everyone agrees chaos has impeccable timing."

  /** The opening sentence, naming the style and the arc. */
  function Opening(style: string, arc: string): string {
    "In a " + style + " romp, a crew and one very confident puppy discover their camera loves drama (" + arc + ")."
  }

  /** `genNarrative({ beats, style })`: an absent style is "quirky, kid-friendly". */
  function GenNarrative(beats: seq<Beat>, style: Option<string>): (r: string)
    ensures OccursAt(r, style.GetOr(DefaultStyle), 5)
  {
    var s := style.GetOr(DefaultStyle);
    var o := Opening(s, Arc(beats));
    assert o[5..5 + |s|] == s;
    Join([o, Middle, Ending], " ")
  }

  /** The narrative names the beat types in order, joined by arrows. */
  lemma GenNarrativeHasArc(beats: seq<Beat>, style: Option<string>)
    ensures var s := style.GetOr(DefaultStyle);
            OccursAt(GenNarrative(beats, style), Arc(beats), |"In a " + s + " romp, a crew and one very confident puppy discover their camera loves drama ("|)
  {
    var s := style.GetOr(DefaultStyle);
    var pre := "In a " + s + " romp, a crew and one very confident puppy discover their camera loves drama (";
    var arc := Arc(beats);
    var o := Opening(s, arc);
    assert o == pre + arc + ").";
    assert o[|pre|..|pre| + |arc|] == arc;
  }

  /** The mock's model name is the model of the mock configuration. */
  lemma ModelNameMatchesConfig()
    ensures ModelName == Config.MockConfig.model
    ensures ProviderName == KindName(Mock)
  {
  }
}
