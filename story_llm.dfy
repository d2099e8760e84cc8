/**
 * `generateFunnyStory` of `lib/story-llm.ts`: the deterministic stand-in
 * story generator, one beat and one panel per photo.
 */
module StoryLlm {
  import opened Wrappers
  import opened Strings

  datatype StoryPhoto = StoryPhoto(id: string, url: string)
  datatype StoryBeat = StoryBeat(photoId: string, caption: string)
  datatype StoryPanel = StoryPanel(index: nat, photoId: string, narration: string, bubbles: seq<string>)

  datatype Story = Story(
    title: string,
    narrative: string,
    beats: seq<StoryBeat>,
    panels: seq<StoryPanel>,
    model: string,
    prompt: string)

  const DefaultStyle: string := "quirky, kid-friendly"
  const Title: string := "The Case of the Chaotic Camera"
  const Model: string := "mock:v0"
  const Prompt: string := "internal-prompt-mock"

  const NarrativeHead: string := "In a "
  const NarrativeTail: string :=
    " romp, a group of friends tries to explain how their camera captured a saga of snacks, seagulls, and suspicious coincidences. Each new photo raises the stakes—and the number of pastry crumbs."

  /** The two speech bubbles a panel draws from, in order. */
  const Lines: seq<string> := ["\"Did that just happen?\"", "\"I blame the sandwiches.\""]

  /** `` `Beat #${i + 1}: This photo accidentally proves ${…}.` `` */
  function BeatCaption(i: nat): string {
    "Beat #" + NatToString(i + 1) + ": This photo accidentally proves "
      + (if i % 2 == 1 then "time travel" else "snack diplomacy") + "."
  }

  /** `` `Panel ${i + 1}: Our heroes confront a ${…}.` `` */
  function PanelNarration(i: nat): string {
    "Panel " + NatToString(i + 1) + ": Our heroes confront a "
      + (if i % 2 == 1 then "mischievous seagull" else "mysterious vending machine") + "."
  }

  /** The narrative for `style`. */
  function Narrative(style: string): (r: string)
    ensures |r| == |NarrativeHead| + |style| + |NarrativeTail|
    ensures r[..|NarrativeHead|] == NarrativeHead
    ensures r[|NarrativeHead|..|NarrativeHead| + |style|] == style
    ensures r[|NarrativeHead| + |style|..] == NarrativeTail
  {
    NarrativeHead + style + NarrativeTail
  }

  /** Reads the style back out of a narrative. */
  function StyleOf(narrative: string): string
    requires |narrative| >= |NarrativeHead| + |NarrativeTail|
  {
    narrative[|NarrativeHead|..|narrative| - |NarrativeTail|]
  }

  /** The narrative embeds the style verbatim: it can be read back out. */
  lemma StyleRoundTrip(style: string)
    ensures StyleOf(Narrative(style)) == style
  {
    var r := Narrative(style);
    assert |r| - |NarrativeTail| == |NarrativeHead| + |style|;
  }

  /** `generateFunnyStory({ photos, style })`; an omitted style is `None`. */
  function GenerateFunnyStory(photos: seq<StoryPhoto>, style: Option<string>): (r: Story)
    ensures |r.beats| == |photos| && |r.panels| == |photos|
    ensures forall i :: 0 <= i < |photos| ==>
      r.beats[i] == StoryBeat(photos[i].id, BeatCaption(i))
    ensures forall i :: 0 <= i < |photos| ==>
      r.panels[i].index == i && r.panels[i].photoId == photos[i].id
        && r.panels[i].narration == PanelNarration(i)
    ensures forall i :: 0 <= i < |photos| ==>
      |r.panels[i].bubbles| == (if i % 2 == 0 then 1 else 2) && r.panels[i].bubbles == Lines[..|r.panels[i].bubbles|]
    ensures r.narrative == Narrative(style.GetOr(DefaultStyle))
    ensures r.title == Title && r.model == Model && r.prompt == Prompt
  {
    var beats := seq(|photos|, i requires 0 <= i < |photos| => StoryBeat(photos[i].id, BeatCaption(i)));
    var panels := seq(|photos|, i requires 0 <= i < |photos| =>
      StoryPanel(i, photos[i].id, PanelNarration(i), Lines[..1 + i % 2]));
    Story(Title, Narrative(style.GetOr(DefaultStyle)), beats, panels, Model, Prompt)
  }

  function PanelIds(panels: seq<StoryPanel>): (ids: seq<string>)
    ensures |ids| == |panels|
    ensures forall i :: 0 <= i < |panels| ==> ids[i] == panels[i].photoId
  {
    seq(|panels|, i requires 0 <= i < |panels| => panels[i].photoId)
  }

  function PhotoIdsOf(photos: seq<StoryPhoto>): (ids: seq<string>)
    ensures |ids| == |photos|
    ensures forall i :: 0 <= i < |photos| ==> ids[i] == photos[i].id
  {
    seq(|photos|, i requires 0 <= i < |photos| => photos[i].id)
  }

  /**
   * Every photo gets exactly one panel, in photo order, and the omitted
   * style reads back as the default.
   */
  lemma StoryCoversPhotos(photos: seq<StoryPhoto>, style: Option<string>)
    ensures PanelIds(GenerateFunnyStory(photos, style).panels) == PhotoIdsOf(photos)
    ensures StyleOf(GenerateFunnyStory(photos, style).narrative) == style.GetOr(DefaultStyle)
  {
    StyleRoundTrip(style.GetOr(DefaultStyle));
  }
}
