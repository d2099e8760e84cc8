/**
 * The comic caps of `lib/ai/comic.ts`: the two audience presets, the
 * word-budget clamp `clampWords`, and `enforceComicCaps`, which clamps every
 * narration and keeps only the first few bubbles, each clamped.
 */
module Comic {
  import opened Wrappers
  import opened Strings
  import opened Structured

  /* -------------------------------- presets ------------------------------ */

  datatype Audience = Kids | Adults

  /** A word budget per narration and per bubble, and a bubble budget per panel. */
  datatype Preset = Preset(panelCount: Option<nat>, narrationWords: nat, bubbleWords: nat, bubblesPerPanel: nat)

  /** `COMIC_PRESETS` */
  function PresetFor(a: Audience): (r: Preset)
    ensures r.panelCount == Some(6) && r.bubblesPerPanel == 2
    ensures a == Kids ==> r.narrationWords == 10 && r.bubbleWords == 8
    ensures a == Adults ==> r.narrationWords == 12 && r.bubbleWords == 10
  {
    match a
    case Kids => Preset(Some(6), 10, 8, 2)
    case Adults => Preset(Some(6), 12, 10, 2)
  }

  /* ------------------------------ clampWords ----------------------------- */

  /** The ellipsis character U+2026 that replaces the trailing punctuation. */
  const Ellipsis: char := '\U{2026}'

  /** The class `[.,;:!?-]`. */
  predicate IsPunct(c: char) {
    c == '.' || c == ',' || c == ';' || c == ':' || c == '!' || c == '?' || c == '-'
  }

  /** Drops the trailing run of punctuation: what `/[.,;:!?-]*$/` matches. */
  function StripTrailingPunct(s: string): (r: string)
    ensures |r| <= |s| && r == s[..|r|]
    ensures forall k :: |r| <= k < |s| ==> IsPunct(s[k])
    ensures |r| == 0 || !IsPunct(r[|r| - 1])
  {
    if |s| > 0 && IsPunct(s[|s| - 1]) then StripTrailingPunct(s[..|s| - 1]) else s
  }

  /** `s.trim().split(/\s+/)`: a blank string splits into one empty part. */
  function Parts(s: string): (parts: seq<string>)
    ensures |parts| >= 1
  {
    var t := Trim(s);
    if t == "" then [""]
    else
      var ws := Words(t);
      JoinOfWordsTrimmed1(t);
      ws
  }

  /** `clampWords(s, max)`: the trimmed text when it fits `max` words, else its first `max` words with an ellipsis. */
  function ClampWords(s: string, max: nat): string {
    var parts := Parts(s);
    if |parts| <= max then Trim(s)
    else StripTrailingPunct(Join(parts[..max], " ")) + [Ellipsis]
  }

  /** A non-blank string has at least one word. */
  lemma JoinOfWordsTrimmed1(t: string)
    requires t != "" && IsTrimmed(t)
    ensures |Words(t)| >= 1
  {
    TrimStartOfTrimmed(t);
  }

  /** Text ending in a non-punctuation character keeps it and everything before it. */
  lemma {:induction false} StripTrailingPunctAppend(x: string, y: string)
    requires |x| > 0 && !IsPunct(x[|x| - 1])
    ensures StripTrailingPunct(x + y) == x + StripTrailingPunct(y)
    decreases |y|
  {
    if |y| == 0 {
      assert x + y == x;
    } else if IsPunct(y[|y| - 1]) {
      assert (x + y)[..|x + y| - 1] == x + y[..|y| - 1];
      StripTrailingPunctAppend(x, y[..|y| - 1]);
    } else {
      assert (x + y)[|x + y| - 1] == y[|y| - 1];
    }
  }

  /** A word with its trailing punctuation replaced by the ellipsis is still a word. */
  lemma EllipsisWord(w: string)
    requires IsWord(w)
    ensures IsWord(StripTrailingPunct(w) + [Ellipsis])
  {
    var r := StripTrailingPunct(w);
    assert forall k :: 0 <= k < |r| ==> r[k] == w[k];
  }

  /** The over-budget result, word by word: the first `max - 1` words, then the `max`-th with its punctuation replaced. */
  lemma {:induction false} ClampedJoin(ws: seq<string>, max: nat)
    requires 1 <= max <= |ws|
    requires forall k :: 0 <= k < |ws| ==> IsWord(ws[k])
    ensures StripTrailingPunct(Join(ws[..max], " ")) + [Ellipsis]
         == Join(ws[..max - 1] + [StripTrailingPunct(ws[max - 1]) + [Ellipsis]], " ")
  {
    var last := StripTrailingPunct(ws[max - 1]) + [Ellipsis];
    if max == 1 {
      assert ws[..1] == [ws[0]];
      assert ws[..0] + [last] == [last];
    } else {
      var init := ws[..max - 1];
      assert ws[..max] == init + [ws[max - 1]];
      JoinSnoc(init, ws[max - 1], " ");
      var x := Join(init, " ") + " ";
      StripTrailingPunctAppend(x, ws[max - 1]);
      assert x + ws[max - 1] == Join(init, " ") + " " + ws[max - 1];
      JoinSnoc(init, last, " ");
    }
  }

  /** The words of an over-budget clamp: the first `max - 1`, then the `max`-th with its trailing punctuation replaced by the ellipsis. */
  function ClampedWords(ws: seq<string>, max: nat): seq<string>
    requires 1 <= max <= |ws|
  {
    ws[..max - 1] + [StripTrailingPunct(ws[max - 1]) + [Ellipsis]]
  }

  lemma ClampedWordsAreWords(ws: seq<string>, max: nat)
    requires 1 <= max <= |ws|
    requires forall k :: 0 <= k < |ws| ==> IsWord(ws[k])
    ensures forall k :: 0 <= k < max ==> IsWord(ClampedWords(ws, max)[k])
  {
    EllipsisWord(ws[max - 1]);
  }

  /** Over budget, the clamped text is the single-space join of the clamped words. */
  lemma ClampIsJoin(s: string, max: nat)
    requires 1 <= max < |Words(Trim(s))|
    ensures ClampWords(s, max) == Join(ClampedWords(Words(Trim(s)), max), " ")
  {
    assert Trim(s) != "";
    assert Parts(s) == Words(Trim(s));
    ClampedJoin(Words(Trim(s)), max);
  }

  /**
   * Over budget, the clamped text holds exactly `max` words: the first
   * `max - 1` words of the input and then its `max`-th word with any trailing
   * `.,;:!?-` replaced by the ellipsis. It is trimmed and ends with the ellipsis.
   */
  lemma ClampOverBudget(s: string, max: nat)
    requires 1 <= max < |Words(Trim(s))|
    ensures Words(ClampWords(s, max)) == ClampedWords(Words(Trim(s)), max)
    ensures IsTrimmed(ClampWords(s, max))
    ensures |ClampWords(s, max)| > 0 && ClampWords(s, max)[|ClampWords(s, max)| - 1] == Ellipsis
  {
    var vs := ClampedWords(Words(Trim(s)), max);
    ClampIsJoin(s, max);
    ClampedWordsAreWords(Words(Trim(s)), max);
    WordsOfJoin(vs);
    JoinOfWordsTrimmed(vs);
  }

  /** With a budget of one word or more, clamping returns the trimmed text exactly when it fits the budget. */
  lemma ClampKeepsFitting(s: string, max: nat)
    requires max >= 1
    ensures ClampWords(s, max) == Trim(s) <==> |Words(Trim(s))| <= max
  {
    if |Words(Trim(s))| > max {
      ClampOverBudget(s, max);
    }
  }

  /** Blank text clamps to the empty string. */
  lemma ClampBlank(s: string, max: nat)
    requires Trim(s) == "" && max >= 1
    ensures ClampWords(s, max) == ""
  {
  }

  /** A zero budget always gives the bare ellipsis, since even blank text has one part. */
  lemma ClampZero(s: string)
    ensures ClampWords(s, 0) == [Ellipsis]
  {
    assert Parts(s)[..0] == [];
  }

  /** The clamped text never holds more than `max` words. */
  lemma ClampBound(s: string, max: nat)
    requires max >= 1
    ensures |Words(ClampWords(s, max))| <= max
  {
    if |Words(Trim(s))| > max {
      ClampOverBudget(s, max);
    } else {
      ClampKeepsFitting(s, max);
    }
  }

  /** Clamping twice with the same budget is clamping once. */
  lemma ClampIdempotent(s: string, max: nat)
    ensures ClampWords(ClampWords(s, max), max) == ClampWords(s, max)
  {
    var r := ClampWords(s, max);
    if max == 0 {
      ClampZero(s);
      ClampZero(r);
    } else if |Words(Trim(s))| > max {
      ClampOverBudget(s, max);
      TrimTrimmed(r);
      ClampKeepsFitting(r, max);
    } else {
      ClampKeepsFitting(s, max);
      TrimIdempotent(s);
      ClampKeepsFitting(r, max);
    }
  }

  /* --------------------------- enforceComicCaps -------------------------- */

  /** A bubble with its text clamped; speaker and aside pass through. */
  function CapBubble(b: Bubble, words: nat): (r: Bubble)
    ensures r.speaker == b.speaker && r.aside == b.aside
  {
    b.(text := ClampWords(b.text, words))
  }

  /** The first `n` bubbles, each clamped to `words` words. */
  function CapBubbles(bs: seq<Bubble>, n: nat, words: nat): (r: seq<Bubble>)
    ensures |r| == if |bs| <= n then |bs| else n
    ensures forall k :: 0 <= k < |r| ==> r[k] == CapBubble(bs[k], words)
  {
    var kept := Take(bs, n);
    seq(|kept|, k requires 0 <= k < |kept| => CapBubble(kept[k], words))
  }

  /** A non-empty narration clamped to `words` words; an absent or empty one as it was. */
  function CapNarration(narration: Option<string>, words: nat): (r: Option<string>)
    ensures r.None? <==> narration.None?
    ensures narration.Some? && narration.value != "" ==> r == Some(ClampWords(narration.value, words))
    ensures narration.Some? && narration.value == "" ==> r == narration
  {
    if narration.Some? && narration.value != "" then Some(ClampWords(narration.value, words)) else narration
  }

  /** One panel of `enforceComicCaps`: the narration and the bubbles capped, every other field passed through. */
  function CapPanel(p: Panel, preset: Preset): (r: Panel)
    ensures r.index == p.index && r.photoId == p.photoId && r.sfx == p.sfx && r.alt == p.alt
    ensures r.narration == CapNarration(p.narration, preset.narrationWords)
    ensures r.bubbles == Some(CapBubbles(p.bubbles.GetOr([]), preset.bubblesPerPanel, preset.bubbleWords))
  {
    p.(narration := CapNarration(p.narration, preset.narrationWords),
       bubbles := Some(CapBubbles(p.bubbles.GetOr([]), preset.bubblesPerPanel, preset.bubbleWords)))
  }

  /** `enforceComicCaps(panels, preset)`, the kids preset by default. */
  function EnforceComicCaps(panels: seq<Panel>, preset: Preset := PresetFor(Kids)): (r: seq<Panel>)
    ensures |r| == |panels|
    ensures forall k :: 0 <= k < |panels| ==> r[k] == CapPanel(panels[k], preset)
  {
    seq(|panels|, k requires 0 <= k < |panels| => CapPanel(panels[k], preset))
  }

  /** Every capped panel fits the preset: at most `bubblesPerPanel` bubbles, and the word budgets on narration and bubble text. */
  lemma CapsBound(panels: seq<Panel>, preset: Preset, k: nat)
    requires preset.narrationWords >= 1 && preset.bubbleWords >= 1
    requires k < |panels|
    ensures var p := EnforceComicCaps(panels, preset)[k];
            && |p.bubbles.value| <= preset.bubblesPerPanel
            && (p.narration.Some? ==> |Words(p.narration.value)| <= preset.narrationWords)
            && forall j :: 0 <= j < |p.bubbles.value| ==> |Words(p.bubbles.value[j].text)| <= preset.bubbleWords
  {
    var q := panels[k];
    var p := EnforceComicCaps(panels, preset)[k];
    if q.narration.Some? && q.narration.value != "" {
      ClampBound(q.narration.value, preset.narrationWords);
    }
    forall j | 0 <= j < |p.bubbles.value|
      ensures |Words(p.bubbles.value[j].text)| <= preset.bubbleWords
    {
      ClampBound(q.bubbles.GetOr([])[j].text, preset.bubbleWords);
    }
  }

  /** Capping capped bubbles changes nothing more. */
  lemma CapBubblesIdempotent(bs: seq<Bubble>, n: nat, words: nat)
    ensures CapBubbles(CapBubbles(bs, n, words), n, words) == CapBubbles(bs, n, words)
  {
    var once := CapBubbles(bs, n, words);
    var twice := CapBubbles(once, n, words);
    forall j | 0 <= j < |twice|
      ensures twice[j] == once[j]
    {
      ClampIdempotent(bs[j].text, words);
    }
  }

  /** Capping a capped panel changes nothing more. */
  lemma CapPanelIdempotent(p: Panel, preset: Preset)
    ensures CapPanel(CapPanel(p, preset), preset) == CapPanel(p, preset)
  {
    if p.narration.Some? && p.narration.value != "" {
      ClampIdempotent(p.narration.value, preset.narrationWords);
    }
    CapBubblesIdempotent(p.bubbles.GetOr([]), preset.bubblesPerPanel, preset.bubbleWords);
  }

  /** `enforceComicCaps` is idempotent. */
  lemma CapsIdempotent(panels: seq<Panel>, preset: Preset)
    ensures EnforceComicCaps(EnforceComicCaps(panels, preset), preset) == EnforceComicCaps(panels, preset)
  {
    var once := EnforceComicCaps(panels, preset);
    forall k | 0 <= k < |panels|
      ensures EnforceComicCaps(once, preset)[k] == once[k]
    {
      CapPanelIdempotent(panels[k], preset);
    }
  }
}
