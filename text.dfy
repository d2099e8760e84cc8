/**
 * `parseTitleNarrative` of `lib/ai/text.ts`: a total split of a model's
 * free-text answer into a one-line title and a narrative.
 */
module Text {
  import opened Wrappers
  import opened Strings
  import opened Providers

  const DefaultTitle: string := "Untitled Story"

  /* ------------------- blank-line splitting: /\n\s*\n/ ------------------- */

  /** End of the maximal whitespace run starting at `k`. */
  function SpaceRunEnd(s: string, k: nat): (e: nat)
    requires k <= |s|
    ensures k <= e <= |s|
    ensures forall j :: k <= j < e ==> IsSpace(s[j])
    ensures e == |s| || !IsSpace(s[e])
    decreases |s| - k
  {
    if k < |s| && IsSpace(s[k]) then SpaceRunEnd(s, k + 1) else k
  }

  /** The last line break in `s[lo..hi]`. */
  function LastNewline(s: string, lo: nat, hi: nat): (r: Option<nat>)
    requires lo <= hi <= |s|
    ensures r.Some? ==> lo <= r.value < hi && s[r.value] == '\n'
    ensures r.Some? ==> forall j :: r.value < j < hi ==> s[j] != '\n'
    ensures r.None? ==> forall j :: lo <= j < hi ==> s[j] != '\n'
    decreases hi - lo
  {
    if lo == hi then None
    else if s[hi - 1] == '\n' then Some(hi - 1)
    else LastNewline(s, lo, hi - 1)
  }

  /**
   * Where a match of `/\n\s*\n/` starting at `i` ends, if there is one: the
   * greedy `\s*` takes the whole whitespace run after the first line break
   * and gives back characters until a line break follows, so the match ends
   * just after the run's last line break.
   */
  function BreakAt(s: string, i: nat): (r: Option<nat>)
    requires i < |s|
    ensures r.Some? ==> i + 2 <= r.value <= |s|
  {
    if s[i] != '\n' then None
    else
      match LastNewline(s, i + 1, SpaceRunEnd(s, i + 1))
      case None => None
      case Some(j) => Some(j + 1)
  }

  /** The leftmost match at or after `from`, as (start, end). */
  function FirstBreak(s: string, from: nat): (r: Option<(nat, nat)>)
    requires from <= |s|
    ensures r.Some? ==> from <= r.value.0 < |s| && BreakAt(s, r.value.0) == Some(r.value.1)
    ensures r.Some? ==> forall i :: from <= i < r.value.0 ==> BreakAt(s, i).None?
    ensures r.None? ==> forall i :: from <= i < |s| ==> BreakAt(s, i).None?
    decreases |s| - from
  {
    if from == |s| then None
    else
      match BreakAt(s, from)
      case Some(e) => Some((from, e))
      case None => FirstBreak(s, from + 1)
  }

  /** `s.split(/\n\s*\n/)`: the blocks between blank-line breaks. */
  function SplitBlocks(s: string): (blocks: seq<string>)
    ensures |blocks| >= 1
    decreases |s|
  {
    match FirstBreak(s, 0)
    case None => [s]
    case Some((i, e)) => [s[..i]] + SplitBlocks(s[e..])
  }

  /* ------------------------------- parsing ------------------------------- */

  /** `line.replace(/^Title:\s*\/i, "")` */
  function StripTitlePrefix(line: string): string {
    if |line| >= 6 && ToLower(line[..6]) == "title:" then TrimStart(line[6..]) else line
  }

  /** `[a, b].filter(Boolean).join("\n\n")` */
  function JoinNonEmpty(a: string, b: string): (r: string) {
    if a == "" then b else if b == "" then a else a + "\n\n" + b
  }

  /** The title taken from the first block: its first line, without a `Title:` label. */
  function TitleOf(firstBlock: string): string {
    var t := Trim(StripTitlePrefix(Split(firstBlock, "\n")[0]));
    if t == "" then DefaultTitle else t
  }

  /** What follows the first line of the first block, trimmed. */
  function RemainderOf(firstBlock: string): string {
    Trim(Join(Split(firstBlock, "\n")[1..], "\n"))
  }

  /** The result built from the blank-line blocks of the cleaned answer. */
  function FromBlocks(parts: seq<string>): (r: TitleNarrative)
    requires |parts| >= 1
  {
    var rest := Join(parts[1..], "\n\n");
    TitleNarrative(TitleOf(parts[0]), Trim(JoinNonEmpty(RemainderOf(parts[0]), rest)))
  }

  /** `parseTitleNarrative(raw)` */
  function ParseTitleNarrative(raw: string): (r: TitleNarrative)
    ensures r.title != ""
    ensures IsTrimmed(r.narrative)
    ensures Trim(raw) == "" ==> r == TitleNarrative(DefaultTitle, "")
  {
    var cleaned := Trim(raw);
    if cleaned == "" then TitleNarrative(DefaultTitle, "")
    else FromBlocks(SplitBlocks(cleaned))
  }

  /** Trimming the reply before parsing changes nothing: the parser trims first. */
  lemma {:induction false} ParsePretrimmed(s: string)
    ensures ParseTitleNarrative(Trim(s)) == ParseTitleNarrative(s)
  {
    TrimIdempotent(s);
  }

  /* --------------------------- one-line titles --------------------------- */

  predicate NoNewline(s: string) {
    forall k :: 0 <= k < |s| ==> s[k] != '\n'
  }

  lemma NoNewlineSlice(s: string, i: nat, j: nat)
    requires NoNewline(s) && i <= j <= |s|
    ensures NoNewline(s[i..j])
  {
  }

  /** The first piece of a split on "\n" holds no line break. */
  lemma FirstLineNoNewline(s: string)
    ensures NoNewline(Split(s, "\n")[0])
  {
    FindFromFirst(s, "\n", 0);
    match FindFrom(s, "\n", 0)
    case None =>
      forall k | 0 <= k < |s|
        ensures s[k] != '\n'
      {
        assert !OccursAt(s, "\n", k);
      }
    case Some(n) =>
      forall k | 0 <= k < n
        ensures s[k] != '\n'
      {
        assert !OccursAt(s, "\n", k);
      }
  }

  lemma TrimOfNoNewline(s: string)
    requires NoNewline(s)
    ensures NoNewline(Trim(s)) && NoNewline(TrimStart(s))
  {
    var t := TrimStart(s);
    NoNewlineSlice(s, |s| - |t|, |s|);
    NoNewlineSlice(t, 0, |TrimEnd(t)|);
  }

  /** A title drawn from any block is a single trimmed line. */
  lemma TitleOfOneLine(block: string)
    ensures NoNewline(TitleOf(block)) && IsTrimmed(TitleOf(block))
  {
    var line := Split(block, "\n")[0];
    FirstLineNoNewline(block);
    var stripped := StripTitlePrefix(line);
    assert NoNewline(stripped) by {
      if |line| >= 6 && ToLower(line[..6]) == "title:" {
        NoNewlineSlice(line, 6, |line|);
        TrimOfNoNewline(line[6..]);
      }
    }
    TrimOfNoNewline(stripped);
    DefaultTitleOneLine();
    assert TitleOf(block) == DefaultTitle || TitleOf(block) == Trim(stripped);
  }

  lemma DefaultTitleOneLine()
    ensures NoNewline(DefaultTitle) && IsTrimmed(DefaultTitle)
  {
    forall k | 0 <= k < |DefaultTitle|
      ensures DefaultTitle[k] != '\n'
    {
      assert DefaultTitle[k] in "Untitled Story";
    }
  }

  /** The title is always a single, trimmed, non-empty line. */
  lemma TitleIsOneLine(raw: string)
    ensures NoNewline(ParseTitleNarrative(raw).title)
    ensures IsTrimmed(ParseTitleNarrative(raw).title)
  {
    var cleaned := Trim(raw);
    if cleaned != "" {
      TitleOfOneLine(SplitBlocks(cleaned)[0]);
    } else {
      DefaultTitleOneLine();
    }
  }

  /** A single-line answer is all title: the narrative is empty. */
  lemma SingleLine(raw: string)
    requires NoNewline(Trim(raw))
    ensures ParseTitleNarrative(raw).narrative == ""
    ensures Trim(raw) != "" ==> ParseTitleNarrative(raw).title == TitleOf(Trim(raw))
  {
    var cleaned := Trim(raw);
    if cleaned != "" {
      NoBreakNoNewline(cleaned);
      assert SplitBlocks(cleaned) == [cleaned];
      SplitNoNewline(cleaned);
      OneBlock(cleaned);
    }
  }

  lemma OneBlock(line: string)
    requires Split(line, "\n") == [line]
    ensures FromBlocks([line]) == TitleNarrative(TitleOf(line), "")
  {
    assert [line][1..] == [];
    assert RemainderOf(line) == "";
  }

  /* ------------------------------ round trip ----------------------------- */

  /** A paragraph the parser keeps whole: non-empty, trimmed and free of blank lines. */
  predicate Paragraph(p: string) {
    |p| > 0 && IsTrimmed(p) && FirstBreak(p, 0).None?
  }

  lemma SpaceRunEndPrefix(p: string, q: string, k: nat)
    requires k <= |p| && SpaceRunEnd(p, k) < |p|
    ensures SpaceRunEnd(p + q, k) == SpaceRunEnd(p, k)
    decreases |p| - k
  {
    if IsSpace(p[k]) {
      SpaceRunEndPrefix(p, q, k + 1);
    }
  }

  lemma LastNewlinePrefix(p: string, q: string, lo: nat, hi: nat)
    requires lo <= hi <= |p|
    ensures LastNewline(p + q, lo, hi) == LastNewline(p, lo, hi)
    decreases hi - lo
  {
    if lo < hi && p[hi - 1] != '\n' {
      LastNewlinePrefix(p, q, lo, hi - 1);
    }
  }

  /** Text appended after a paragraph's last, non-space character does not change the matches inside it. */
  lemma BreakAtPrefix(p: string, q: string, i: nat)
    requires i < |p| && !IsSpace(p[|p| - 1])
    ensures BreakAt(p + q, i) == BreakAt(p, i)
  {
    if p[i] == '\n' {
      assert i + 1 < |p|;
      SpaceRunEndPrefix(p, q, i + 1);
      LastNewlinePrefix(p, q, i + 1, SpaceRunEnd(p, i + 1));
    }
  }

  lemma {:induction false} FirstBreakPrefix(p: string, q: string, from: nat)
    requires from <= |p| && |p| > 0 && !IsSpace(p[|p| - 1])
    requires FirstBreak(p, from).None?
    ensures FirstBreak(p + q, from) == FirstBreak(p + q, |p|)
    decreases |p| - from
  {
    if from < |p| {
      BreakAtPrefix(p, q, from);
      FirstBreakPrefix(p, q, from + 1);
    }
  }

  /** A paragraph followed by exactly one blank line and a non-space character breaks right there. */
  lemma BreakAfterParagraph(p: string, rest: string)
    requires Paragraph(p) && |rest| > 0 && !IsSpace(rest[0])
    ensures FirstBreak(p + "\n\n" + rest, 0) == Some((|p|, |p| + 2))
  {
    var s := p + "\n\n" + rest;
    assert s == p + ("\n\n" + rest);
    FirstBreakPrefix(p, "\n\n" + rest, 0);
    assert s[|p|] == '\n' && s[|p| + 1] == '\n' && s[|p| + 2] == rest[0];
    BlankLineBreak(s, |p|);
  }

  /** Exactly one blank line before a non-space character is a match of its own. */
  lemma BlankLineBreak(s: string, i: nat)
    requires i + 2 < |s| && s[i] == '\n' && s[i + 1] == '\n' && !IsSpace(s[i + 2])
    ensures BreakAt(s, i) == Some(i + 2)
  {
    assert SpaceRunEnd(s, i + 2) == i + 2;
    assert SpaceRunEnd(s, i + 1) == i + 2;
    assert LastNewline(s, i + 1, i + 2) == Some(i + 1);
  }

  /** The join of paragraphs starts with the first one's first character and ends with the last one's last. */
  lemma {:induction false} JoinParagraphsEnds(ps: seq<string>)
    requires |ps| > 0 && forall k :: 0 <= k < |ps| ==> Paragraph(ps[k])
    ensures |Join(ps, "\n\n")| > 0
    ensures |ps[0]| > 0 && Join(ps, "\n\n")[0] == ps[0][0]
    ensures |ps[|ps| - 1]| > 0 && Join(ps, "\n\n")[|Join(ps, "\n\n")| - 1] == ps[|ps| - 1][|ps[|ps| - 1]| - 1]
    decreases |ps|
  {
    if |ps| > 1 {
      JoinParagraphsEnds(ps[1..]);
    }
  }

  /** Splitting paragraphs joined by single blank lines gives the paragraphs back. */
  lemma {:induction false} SplitJoinBlocks(ps: seq<string>)
    requires |ps| > 0 && forall k :: 0 <= k < |ps| ==> Paragraph(ps[k])
    ensures SplitBlocks(Join(ps, "\n\n")) == ps
    decreases |ps|
  {
    if |ps| > 1 {
      var rest := Join(ps[1..], "\n\n");
      JoinParagraphsEnds(ps[1..]);
      var s := ps[0] + "\n\n" + rest;
      BreakAfterParagraph(ps[0], rest);
      assert s[..|ps[0]|] == ps[0];
      assert s[|ps[0]| + 2..] == rest;
      SplitJoinBlocks(ps[1..]);
    }
  }

  /** A label `parseTitleNarrative` would strip, in any letter case. */
  predicate HasTitleLabel(t: string) {
    |t| >= 6 && ToLower(t[..6]) == "title:"
  }

  lemma SplitNoNewline(t: string)
    requires NoNewline(t)
    ensures Split(t, "\n") == [t]
  {
    forall k
      ensures !OccursAt(t, "\n", k)
    {
      if 0 <= k && k + 1 <= |t| {
        assert t[k..k + 1] == [t[k]];
      }
    }
  }

  lemma NoBreakNoNewline(t: string)
    requires NoNewline(t)
    ensures FirstBreak(t, 0).None?
  {
    forall i | 0 <= i < |t|
      ensures BreakAt(t, i).None?
    {
    }
  }

  /**
   * A tag the parser strips: "title:" in any letter case, then any
   * whitespace up to the title on the same line.
   */
  predicate IsLabel(tag: string) {
    && HasTitleLabel(tag)
    && forall k :: 6 <= k < |tag| ==> IsSpace(tag[k]) && tag[k] != '\n'
  }

  /** No label, or one the parser strips. */
  predicate LabelOrNone(tag: string) {
    tag == "" || IsLabel(tag)
  }

  /** A run of whitespace in front of a string disappears with the leading whitespace. */
  lemma {:induction false} TrimStartSpaces(ws: string, t: string)
    requires forall k :: 0 <= k < |ws| ==> IsSpace(ws[k])
    ensures TrimStart(ws + t) == TrimStart(t)
    decreases |ws|
  {
    if |ws| > 0 {
      assert (ws + t)[0] == ws[0];
      assert (ws + t)[1..] == ws[1..] + t;
      TrimStartSpaces(ws[1..], t);
    } else {
      assert ws + t == t;
    }
  }

  lemma StripLabel(title: string, tag: string)
    requires |title| > 0 && !IsSpace(title[0])
    requires IsLabel(tag)
    ensures StripTitlePrefix(tag + title) == title
  {
    var line := tag + title;
    assert line[..6] == tag[..6];
    assert line[6..] == tag[6..] + title;
    TrimStartSpaces(tag[6..], title);
    TrimStartOfTrimmed(title);
  }

  /** The line a writer puts first: the title, after an optional label. */
  function TitleLine(title: string, tag: string): string {
    tag + title
  }

  /** A label starts with a letter and holds no line break. */
  lemma LabelShape(tag: string)
    requires IsLabel(tag)
    ensures !IsSpace(tag[0]) && NoNewline(tag)
  {
    assert LowerChar(tag[0]) == 't';
    forall k | 0 <= k < 6
      ensures tag[k] != '\n'
    {
      assert LowerChar(tag[k]) == "title:"[k];
    }
  }

  lemma TitleLineShape(title: string, tag: string)
    requires |title| > 0 && IsTrimmed(title) && NoNewline(title)
    requires LabelOrNone(tag)
    ensures var line := TitleLine(title, tag); |line| > 0 && IsTrimmed(line) && NoNewline(line)
  {
    var line := TitleLine(title, tag);
    if tag == "" {
      assert line == title;
    } else {
      LabelShape(tag);
      assert line[0] == tag[0];
      assert line[|line| - 1] == title[|title| - 1];
      assert forall k :: 0 <= k < |tag| ==> line[k] == tag[k];
      assert forall k :: |tag| <= k < |line| ==> line[k] == title[k - |tag|];
    }
  }

  /**
   * The title line parses back to the title, whether it is unlabelled or
   * carries "Title:" in any letter case followed by any whitespace.
   */
  lemma TitleOfLine(title: string, tag: string)
    requires |title| > 0 && IsTrimmed(title) && NoNewline(title)
    requires LabelOrNone(tag)
    requires tag == "" ==> !HasTitleLabel(title)
    ensures TitleOf(TitleLine(title, tag)) == title
  {
    var line := TitleLine(title, tag);
    TitleLineShape(title, tag);
    SplitNoNewline(line);
    assert StripTitlePrefix(line) == title by {
      if tag != "" {
        StripLabel(title, tag);
      } else {
        assert line == title;
      }
    }
    TrimTrimmed(title);
  }

  /** The text a writer produces for a title and its paragraphs. */
  function Render(title: string, ps: seq<string>, tag: string): string {
    if |ps| == 0 then TitleLine(title, tag) else TitleLine(title, tag) + "\n\n" + Join(ps, "\n\n")
  }

  lemma SplitAtBreak(s: string, i: nat, e: nat)
    requires FirstBreak(s, 0) == Some((i, e))
    ensures SplitBlocks(s) == [s[..i]] + SplitBlocks(s[e..])
  {
  }

  /** The rendered text is already trimmed. */
  lemma RenderTrimmed(line: string, body: string)
    requires |line| > 0 && IsTrimmed(line)
    requires |body| > 0 && !IsSpace(body[|body| - 1])
    ensures Trim(line + "\n\n" + body) == line + "\n\n" + body
  {
    var raw := line + "\n\n" + body;
    assert raw[0] == line[0] && raw[|raw| - 1] == body[|body| - 1];
    TrimTrimmed(raw);
  }

  /** The rendered text splits into the title line followed by the paragraphs. */
  lemma RenderBlocks(line: string, ps: seq<string>)
    requires |line| > 0 && IsTrimmed(line) && NoNewline(line)
    requires |ps| > 0 && forall k :: 0 <= k < |ps| ==> Paragraph(ps[k])
    ensures SplitBlocks(line + "\n\n" + Join(ps, "\n\n")) == [line] + ps
  {
    NoBreakNoNewline(line);
    var body := Join(ps, "\n\n");
    var raw := line + "\n\n" + body;
    JoinParagraphsEnds(ps);
    BreakAfterParagraph(line, body);
    SplitAtBreak(raw, |line|, |line| + 2);
    assert raw[..|line|] == line;
    assert raw[|line| + 2..] == body;
    SplitJoinBlocks(ps);
  }

  lemma RemainderOfOneLine(line: string)
    requires NoNewline(line)
    ensures RemainderOf(line) == ""
  {
    SplitNoNewline(line);
    assert Split(line, "\n")[1..] == [];
  }

  lemma JoinParagraphsTrimmed(ps: seq<string>)
    requires forall k :: 0 <= k < |ps| ==> Paragraph(ps[k])
    ensures Trim(JoinNonEmpty("", Join(ps, "\n\n"))) == Join(ps, "\n\n")
  {
    var body := Join(ps, "\n\n");
    assert JoinNonEmpty("", body) == body;
    JoinParagraphsIsTrimmed(ps);
    TrimTrimmed(body);
  }

  lemma JoinParagraphsIsTrimmed(ps: seq<string>)
    requires forall k :: 0 <= k < |ps| ==> Paragraph(ps[k])
    ensures IsTrimmed(Join(ps, "\n\n"))
  {
    if |ps| > 0 {
      JoinParagraphsEnds(ps);
      var first, last := ps[0], ps[|ps| - 1];
      assert Paragraph(first) && Paragraph(last);
      assert !IsSpace(first[0]) && !IsSpace(last[|last| - 1]);
    }
  }

  lemma FromBlocksUnfold(line: string, ps: seq<string>)
    ensures FromBlocks([line] + ps) == TitleNarrative(TitleOf(line), Trim(JoinNonEmpty(RemainderOf(line), Join(ps, "\n\n"))))
  {
    assert ([line] + ps)[0] == line && ([line] + ps)[1..] == ps;
  }

  /** The blocks of a rendered text give back the title and the joined paragraphs. */
  lemma FromRenderedBlocks(title: string, ps: seq<string>, tag: string)
    requires |title| > 0 && IsTrimmed(title) && NoNewline(title)
    requires LabelOrNone(tag)
    requires tag == "" ==> !HasTitleLabel(title)
    requires forall k :: 0 <= k < |ps| ==> Paragraph(ps[k])
    ensures FromBlocks([TitleLine(title, tag)] + ps) == TitleNarrative(title, Join(ps, "\n\n"))
  {
    var line := TitleLine(title, tag);
    TitleLineShape(title, tag);
    TitleOfLine(title, tag);
    FromBlocksUnfold(line, ps);
    RemainderOfOneLine(line);
    JoinParagraphsTrimmed(ps);
  }

  /**
   * Round trip: a one-line title, optionally labelled `Title:` in any letter
   * case, followed by
   * paragraphs separated by single blank lines, parses back to that title and
   * those paragraphs joined by blank lines.
   */
  lemma ParseRender(title: string, ps: seq<string>, tag: string)
    requires |title| > 0 && IsTrimmed(title) && NoNewline(title)
    requires LabelOrNone(tag)
    requires tag == "" ==> !HasTitleLabel(title)
    requires forall k :: 0 <= k < |ps| ==> Paragraph(ps[k])
    ensures ParseTitleNarrative(Render(title, ps, tag)) == TitleNarrative(title, Join(ps, "\n\n"))
  {
    var raw := Render(title, ps, tag);
    RenderSplits(title, ps, tag);
    assert ParseTitleNarrative(raw) == FromBlocks(SplitBlocks(raw));
    FromRenderedBlocks(title, ps, tag);
  }

  /** The rendered text is trimmed, non-empty, and splits into the title line and the paragraphs. */
  lemma RenderSplits(title: string, ps: seq<string>, tag: string)
    requires |title| > 0 && IsTrimmed(title) && NoNewline(title)
    requires LabelOrNone(tag)
    requires forall k :: 0 <= k < |ps| ==> Paragraph(ps[k])
    ensures var raw := Render(title, ps, tag);
            Trim(raw) == raw && raw != "" && SplitBlocks(raw) == [TitleLine(title, tag)] + ps
  {
    var line := TitleLine(title, tag);
    TitleLineShape(title, tag);
    if |ps| == 0 {
      TrimTrimmed(line);
      NoBreakNoNewline(line);
      assert SplitBlocks(line) == [line];
      assert [line] + ps == [line];
    } else {
      var raw := line + "\n\n" + Join(ps, "\n\n");
      assert Render(title, ps, tag) == raw;
      JoinParagraphsEnds(ps);
      RenderTrimmed(line, Join(ps, "\n\n"));
      RenderBlocks(line, ps);
      assert SplitBlocks(raw) == [line] + ps;
    }
  }

  /* ------------------------ a title over its block ----------------------- */

  /** The text holds no blank line: `/\n\s*\n/` does not match anywhere. */
  predicate NoBlankLine(s: string) {
    FirstBreak(s, 0).None?
  }

  /** The first line break of a line followed by "\n" is that one. */
  lemma {:induction false} FindLineEnd(s: string, n: nat, from: nat)
    requires from <= n < |s| && s[n] == '\n'
    requires forall k :: from <= k < n ==> s[k] != '\n'
    ensures FindFrom(s, "\n", from) == Some(n)
    decreases n - from
  {
    if from < n {
      assert s[from..from + 1] == [s[from]];
      FindLineEnd(s, n, from + 1);
    } else {
      assert s[from..from + 1] == "\n";
    }
  }

  /** Splitting on "\n" after a line of its own gives that line, then the split of the rest. */
  lemma SplitFirstLine(line: string, more: string)
    requires NoNewline(line)
    ensures Split(line + "\n" + more, "\n") == [line] + Split(more, "\n")
  {
    var s := line + "\n" + more;
    assert s[|line|] == '\n';
    assert forall k :: 0 <= k < |line| ==> s[k] == line[k];
    FindLineEnd(s, |line|, 0);
    SplitFound(s, "\n", |line|);
    assert s[..|line|] == line;
    assert s[|line| + 1..] == more;
  }

  /** The first line decides the title, whatever follows it in its block. */
  lemma TitleOfBlock(line: string, more: string)
    requires NoNewline(line)
    ensures TitleOf(line + "\n" + more) == TitleOf(line)
  {
    SplitNoNewline(line);
    SplitFirstLine(line, more);
  }

  /** What follows the first line of a block is its remainder, trimmed. */
  lemma RemainderOfBlock(line: string, more: string)
    requires NoNewline(line)
    ensures RemainderOf(line + "\n" + more) == Trim(more)
  {
    SplitFirstLine(line, more);
    assert Split(line + "\n" + more, "\n")[1..] == Split(more, "\n");
    JoinSplit(more, "\n");
  }

  /** A trimmed text without blank lines is one block. */
  lemma OneBlockParse(s: string)
    requires |s| > 0 && IsTrimmed(s) && NoBlankLine(s)
    ensures ParseTitleNarrative(s) == TitleNarrative(TitleOf(s), Trim(JoinNonEmpty(RemainderOf(s), "")))
  {
    TrimTrimmed(s);
    assert SplitBlocks(s) == [s];
    assert [s][1..] == [];
  }

  /**
   * A title line followed, in the same block, by more lines: the title is
   * read from the first line and the narrative is the rest of the block,
   * trimmed.
   */
  lemma SameBlockRemainder(title: string, tag: string, more: string)
    requires |title| > 0 && IsTrimmed(title) && NoNewline(title)
    requires LabelOrNone(tag)
    requires tag == "" ==> !HasTitleLabel(title)
    requires |more| > 0 && !IsSpace(more[|more| - 1])
    requires NoBlankLine(TitleLine(title, tag) + "\n" + more)
    ensures ParseTitleNarrative(TitleLine(title, tag) + "\n" + more) == TitleNarrative(title, Trim(more))
  {
    var line := TitleLine(title, tag);
    var s := line + "\n" + more;
    TitleLineShape(title, tag);
    assert s[0] == line[0] && s[|s| - 1] == more[|more| - 1];
    OneBlockParse(s);
    TitleOfBlock(line, more);
    TitleOfLine(title, tag);
    RemainderOfBlock(line, more);
    TrimIdempotent(more);
  }

  /** The heading of a shouted label is read like any other: "TITLE: My Story" gives "My Story". */
  lemma ShoutedLabel()
    ensures TitleOf("TITLE: My Story") == "My Story"
  {
    var title := "My Story";
    assert IsTrimmed(title) && NoNewline(title);
    assert ToLower("TITLE:") == "title:";
    assert IsLabel("TITLE: ");
    assert TitleLine(title, "TITLE: ") == "TITLE: My Story";
    TitleOfLine(title, "TITLE: ");
  }
}
