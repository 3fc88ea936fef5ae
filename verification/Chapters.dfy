/** Chapter detection over a flat paragraph list (`detect_chapters`, `merge_short_chapters`,
    `synthetic_parts`) and the recovery of scene-break flags afterwards (`_align_flags`). */
module Chapters {
  import opened Common
  import opened Text

  const MIN_HEADINGS := 2
  const MIN_CHAPTER_WORDS := 100
  const MAX_PROLOGUE_FREE_WORDS := 100
  const SYNTHETIC_PART_WORDS := 6000
  const MAX_TITLE_WORDS := 12
  const MAX_HEADING_CHARS := 80

  datatype Section = Section(title: string, body: seq<string>)

  /** What the heading regexes answer; the proofs hold for any answers. */
  datatype Headings = Headings(
    titleOf: string -> Option<string>,   // heading_title
    isStrong: string -> bool,            // is_strong_heading
    namesBook: string -> bool)           // _is_title_heading

  function Bodies(sections: seq<Section>): seq<string> {
    if sections == [] then [] else sections[0].body + Bodies(sections[1..])
  }

  lemma {:induction false} BodiesConcat(a: seq<Section>, b: seq<Section>)
    ensures Bodies(a + b) == Bodies(a) + Bodies(b)
  {
    if a == [] {
      assert a + b == b;
    } else {
      BodiesConcat(a[1..], b);
      assert (a + b)[1..] == a[1..] + b;
      ConcatAssoc(a[0].body, Bodies(a[1..]), Bodies(b));
    }
  }

  lemma BodiesSnoc(sections: seq<Section>, section: Section)
    ensures Bodies(sections + [section]) == Bodies(sections) + section.body
  {
    BodiesConcat(sections, [section]);
    assert Bodies([section]) == section.body + Bodies([]) == section.body;
  }

  function WordCount(text: string): nat {
    |Tokens(text)|
  }

  function Words(paragraphs: seq<string>): nat {
    if paragraphs == [] then 0 else Words(paragraphs[..|paragraphs| - 1]) + WordCount(paragraphs[|paragraphs| - 1])
  }

  lemma {:induction false} WordsConcat(a: seq<string>, b: seq<string>)
    ensures Words(a + b) == Words(a) + Words(b)
    decreases |b|
  {
    if b == [] {
      assert a + b == a;
    } else {
      var front := b[..|b| - 1];
      WordsConcat(a, front);
      assert (a + b)[..|a + b| - 1] == a + front;
    }
  }

  // ----------------------------------------------------------------- merging short chapters

  predicate IsShort(section: Section) {
    Words(section.body) < MIN_CHAPTER_WORDS
  }

  /** Every long chapter, with the short ones since the previous long one in front of its body. */
  function LongChapters(chapters: seq<Section>, pending: seq<string>): seq<Section> {
    if chapters == [] then []
    else if IsShort(chapters[0]) then LongChapters(chapters[1..], pending + chapters[0].body)
    else [Section(chapters[0].title, pending + chapters[0].body)] + LongChapters(chapters[1..], [])
  }

  /** The bodies of the short chapters after the last long one. */
  function Trailing(chapters: seq<Section>, pending: seq<string>): seq<string> {
    if chapters == [] then pending
    else Trailing(chapters[1..], if IsShort(chapters[0]) then pending + chapters[0].body else [])
  }

  function Merged(chapters: seq<Section>): seq<Section> {
    var long, trailing := LongChapters(chapters, []), Trailing(chapters, []);
    if trailing == [] then long
    else if long == [] then [Section(chapters[0].title, trailing)]
    else long[|long| - 1 := long[|long| - 1].(body := long[|long| - 1].body + trailing)]
  }

  lemma {:induction false} MergeKeepsText(chapters: seq<Section>, pending: seq<string>)
    ensures Bodies(LongChapters(chapters, pending)) + Trailing(chapters, pending) == pending + Bodies(chapters)
    decreases |chapters|
  {
    if chapters != [] {
      var body, rest := chapters[0].body, chapters[1..];
      if IsShort(chapters[0]) {
        MergeKeepsText(rest, pending + body);
        ConcatAssoc(pending, body, Bodies(rest));
      } else {
        MergeKeepsText(rest, []);
        assert [] + Bodies(rest) == Bodies(rest);
        ConcatAssoc(pending + body, Bodies(LongChapters(rest, [])), Trailing(rest, []));
        ConcatAssoc(pending, body, Bodies(rest));
      }
    }
  }

  ghost predicate AllLong(sections: seq<Section>) {
    forall i | 0 <= i < |sections| :: !IsShort(sections[i])
  }

  lemma {:induction false} LongChaptersAreLong(chapters: seq<Section>, pending: seq<string>)
    ensures AllLong(LongChapters(chapters, pending))
    decreases |chapters|
  {
    if chapters != [] {
      if IsShort(chapters[0]) {
        LongChaptersAreLong(chapters[1..], pending + chapters[0].body);
      } else {
        LongChaptersAreLong(chapters[1..], []);
        WordsConcat(pending, chapters[0].body);
      }
    }
  }

  lemma {:induction false} NothingLongMeansShortFirst(chapters: seq<Section>, pending: seq<string>)
    requires LongChapters(chapters, pending) == []
    ensures chapters == [] ==> Trailing(chapters, pending) == pending
    ensures forall i | 0 <= i < |chapters| :: IsShort(chapters[i])
    decreases |chapters|
  {
    if chapters != [] {
      NothingLongMeansShortFirst(chapters[1..], pending + chapters[0].body);
    }
  }

  /** Merging moves no text, and leaves a chapter under 100 words only when it is the only one. */
  lemma MergeIsConservative(chapters: seq<Section>)
    ensures Bodies(Merged(chapters)) == Bodies(chapters)
    ensures |Merged(chapters)| == 1 || AllLong(Merged(chapters))
  {
    var long, trailing := LongChapters(chapters, []), Trailing(chapters, []);
    MergeKeepsText(chapters, []);
    LongChaptersAreLong(chapters, []);
    assert [] + Bodies(chapters) == Bodies(chapters);
    if trailing == [] {
      AppendNothing(Bodies(long));
    } else if long == [] {
      BodiesSnoc([], Section(chapters[0].title, trailing));
      assert [] + [Section(chapters[0].title, trailing)] == Merged(chapters);
    } else {
      FrontAndLast(long);
      LongerLast(long[..|long| - 1], long[|long| - 1], trailing);
      assert Merged(chapters) == long[..|long| - 1] + [long[|long| - 1].(body := long[|long| - 1].body + trailing)];
    }
  }

  /** Text appended to the last section. */
  lemma LongerLast(front: seq<Section>, last: Section, more: seq<string>)
    ensures Bodies(front + [last.(body := last.body + more)]) == Bodies(front + [last]) + more
    ensures Words(last.body + more) >= Words(last.body)
  {
    BodiesSnoc(front, last);
    BodiesSnoc(front, last.(body := last.body + more));
    ConcatAssoc(Bodies(front), last.body, more);
    WordsConcat(last.body, more);
  }

  /** `merge_short_chapters`. */
  method MergeShortChapters(chapters: seq<Section>) returns (merged: seq<Section>)
    ensures merged == Merged(chapters)
    ensures Bodies(merged) == Bodies(chapters) && (|merged| == 1 || AllLong(merged))
  {
    merged := [];
    var pending: seq<string> := [];
    var pendingTitle: Option<string> := None;
    for i := 0 to |chapters|
      invariant merged + LongChapters(chapters[i..], pending) == LongChapters(chapters, [])
      invariant Trailing(chapters[i..], pending) == Trailing(chapters, [])
      invariant pending != [] ==> pendingTitle != None
      invariant merged == [] ==> (i > 0 ==> pendingTitle == Some(chapters[0].title)) && (i == 0 ==> pendingTitle == None)
    {
      assert chapters[i..][0] == chapters[i] && chapters[i..][1..] == chapters[i + 1..];
      var section := chapters[i];
      if Words(section.body) < MIN_CHAPTER_WORDS {
        if pendingTitle == None {
          pendingTitle := Some(section.title);
        }
        pending := pending + section.body;
        continue;
      }
      ConcatAssoc(merged, [Section(section.title, pending + section.body)], LongChapters(chapters[i + 1..], []));
      merged := merged + [Section(section.title, pending + section.body)];
      pending := [];
      pendingTitle := None;
    }
    assert merged + [] == merged;
    MergeIsConservative(chapters);
    if pending != [] {
      if merged != [] {
        var last := merged[|merged| - 1];
        merged := merged[|merged| - 1 := Section(last.title, last.body + pending)];
      } else {
        merged := [Section(pendingTitle.value, pending)];
      }
    }
  }

  // ----------------------------------------------------------------- synthetic parts

  function PartTitle(n: nat): string {
    "Part " + Digits(n)
  }

  function CeilDiv(a: nat, b: nat): nat
    requires b > 0
  {
    (a + b - 1) / b
  }

  /** The first `k` parts hold at least k n-ths of all words. */
  ghost predicate HasShare(parts: seq<Section>, k: nat, nParts: nat, total: nat)
    requires k <= |parts|
  {
    Words(Bodies(parts[..k])) * nParts >= total * k
  }

  /** Numbered non-empty parts, each closed only once its share was reached. */
  ghost predicate ClosedParts(parts: seq<Section>, nParts: nat, total: nat) {
    && (forall k | 0 <= k < |parts| :: parts[k].title == PartTitle(k + 1) && parts[k].body != [])
    && (forall k | 0 <= k <= |parts| :: HasShare(parts, k, nParts, total))
  }

  lemma ClosePart(parts: seq<Section>, current: seq<string>, nParts: nat, total: nat)
    requires ClosedParts(parts, nParts, total) && current != []
    requires Words(Bodies(parts) + current) * nParts >= total * (|parts| + 1)
    ensures
      var more := parts + [Section(PartTitle(|parts| + 1), current)];
      ClosedParts(more, nParts, total) && Bodies(more) == Bodies(parts) + current
  {
    var more := parts + [Section(PartTitle(|parts| + 1), current)];
    BodiesSnoc(parts, Section(PartTitle(|parts| + 1), current));
    forall k | 0 <= k <= |more|
      ensures HasShare(more, k, nParts, total)
    {
      if k <= |parts| {
        assert more[..k] == parts[..k] && HasShare(parts, k, nParts, total);
      } else {
        assert more[..k] == more;
      }
    }
  }

  /** What the loop of `synthetic_parts` keeps: the parts and the open one hold the `i` paragraphs seen so far. */
  ghost predicate Closing(paragraphs: seq<string>, i: nat, parts: seq<Section>, current: seq<string>, seen: int, nParts: nat)
    requires i <= |paragraphs|
  {
    && Bodies(parts) + current == paragraphs[..i] && seen == Words(paragraphs[..i])
    && |parts| < nParts && ClosedParts(parts, nParts, Words(paragraphs))
  }

  lemma OpenPartGrows(
    paragraphs: seq<string>, i: nat, parts: seq<Section>, current: seq<string>, seen: int, nParts: nat)
    requires i < |paragraphs| && Closing(paragraphs, i, parts, current, seen, nParts)
    ensures Closing(paragraphs, i + 1, parts, current + [paragraphs[i]], seen + WordCount(paragraphs[i]), nParts)
  {
    assert paragraphs[..i + 1] == paragraphs[..i] + [paragraphs[i]];
    assert paragraphs[..i + 1][..i] == paragraphs[..i];
    ConcatAssoc(Bodies(parts), current, [paragraphs[i]]);
  }

  lemma OpenPartCloses(
    paragraphs: seq<string>, i: nat, parts: seq<Section>, current: seq<string>, seen: int, nParts: nat)
    requires i <= |paragraphs| && Closing(paragraphs, i, parts, current, seen, nParts) && current != []
    requires |parts| + 1 < nParts && seen * nParts >= Words(paragraphs) * (|parts| + 1)
    ensures Closing(paragraphs, i, parts + [Section(PartTitle(|parts| + 1), current)], [], seen, nParts)
  {
    ClosePart(parts, current, nParts, Words(paragraphs));
    AppendNothing(Bodies(parts) + current);
  }

  /** The loop of `synthetic_parts`; `current` is what no part holds yet.  `seen >= target * k` is compared
      without the division. */
  method CloseParts(paragraphs: seq<string>, nParts: nat) returns (parts: seq<Section>, current: seq<string>)
    requires nParts >= 1
    ensures Bodies(parts) + current == paragraphs
    ensures |parts| < nParts
    ensures ClosedParts(parts, nParts, Words(paragraphs))
  {
    var total := Words(paragraphs);
    parts, current := [], [];
    var seen := 0;
    for i := 0 to |paragraphs|
      invariant Closing(paragraphs, i, parts, current, seen, nParts)
    {
      OpenPartGrows(paragraphs, i, parts, current, seen, nParts);
      current := current + [paragraphs[i]];
      seen := seen + WordCount(paragraphs[i]);
      if |parts| < nParts - 1 && seen * nParts >= total * (|parts| + 1) {
        OpenPartCloses(paragraphs, i + 1, parts, current, seen, nParts);
        parts := parts + [Section(PartTitle(|parts| + 1), current)];
        current := [];
      }
    }
    assert paragraphs[..|paragraphs|] == paragraphs;
  }

  /** All parts but the last one are closed. */
  ghost predicate ClosedButLast(parts: seq<Section>, nParts: nat, total: nat) {
    && parts != [] && ClosedParts(parts[..|parts| - 1], nParts, total)
    && parts[|parts| - 1].title == PartTitle(|parts|)
  }

  lemma OpenPartIsLast(closed: seq<Section>, current: seq<string>, nParts: nat, total: nat)
    requires ClosedParts(closed, nParts, total)
    ensures
      var parts := closed + [Section(PartTitle(|closed| + 1), current)];
      ClosedButLast(parts, nParts, total) && Bodies(parts) == Bodies(closed) + current
  {
    var last := Section(PartTitle(|closed| + 1), current);
    BodiesSnoc(closed, last);
    assert (closed + [last])[..|closed|] == closed;
  }

  /** `synthetic_parts`: consecutive parts that together are the whole text, no more than one for each 6000 words
      begun; every part but the last was closed when the text so far reached its share. */
  method SyntheticParts(paragraphs: seq<string>) returns (parts: seq<Section>)
    ensures Bodies(parts) == paragraphs
    ensures 1 <= |parts| <= Max(1, CeilDiv(Words(paragraphs), SYNTHETIC_PART_WORDS))
    ensures ClosedButLast(parts, Max(1, CeilDiv(Words(paragraphs), SYNTHETIC_PART_WORDS)), Words(paragraphs))
  {
    var nParts := Max(1, CeilDiv(Words(paragraphs), SYNTHETIC_PART_WORDS));
    var closed, current := CloseParts(paragraphs, nParts);
    if current != [] || closed == [] {
      OpenPartIsLast(closed, current, nParts, Words(paragraphs));
      parts := closed + [Section(PartTitle(|closed| + 1), current)];
    } else {
      AppendNothing(Bodies(closed));
      parts := closed;
      ClosedPrefix(closed, |closed| - 1, nParts, Words(paragraphs));
    }
  }

  lemma ClosedPrefix(parts: seq<Section>, n: nat, nParts: nat, total: nat)
    requires ClosedParts(parts, nParts, total) && n <= |parts|
    ensures ClosedParts(parts[..n], nParts, total)
  {
    forall k | 0 <= k <= n
      ensures HasShare(parts[..n], k, nParts, total)
    {
      assert parts[..n][..k] == parts[..k] && HasShare(parts, k, nParts, total);
    }
  }

  // ----------------------------------------------------------------- headings

  predicate IsStrongAt(paragraphs: seq<string>, i: nat, h: Headings)
    requires i < |paragraphs|
  {
    h.titleOf(paragraphs[i]) != None && h.isStrong(paragraphs[i])
  }

  function CountStrong(paragraphs: seq<string>, i: nat, h: Headings): nat
    requires i <= |paragraphs|
    decreases |paragraphs| - i
  {
    if i == |paragraphs| then 0
    else (if IsStrongAt(paragraphs, i, h) then 1 else 0) + CountStrong(paragraphs, i + 1, h)
  }

  /** `_heading_map`: with two strong headings, a weak one counts only right after a kept heading or as the very
      last line; without, every heading counts. */
  predicate IsHeading(paragraphs: seq<string>, i: nat, h: Headings)
    requires i < |paragraphs|
    decreases i
  {
    && h.titleOf(paragraphs[i]) != None
    && (CountStrong(paragraphs, 0, h) < MIN_HEADINGS || IsStrongAt(paragraphs, i, h)
        || (i > 0 && IsHeading(paragraphs, i - 1, h)) || i == |paragraphs| - 1)
  }

  function CountHeadings(paragraphs: seq<string>, i: nat, h: Headings): nat
    requires i <= |paragraphs|
    decreases |paragraphs| - i
  {
    if i == |paragraphs| then 0
    else (if IsHeading(paragraphs, i, h) then 1 else 0) + CountHeadings(paragraphs, i + 1, h)
  }

  /** The first heading at or after `i`. */
  function FirstHeading(paragraphs: seq<string>, i: nat, h: Headings): (f: nat)
    requires i <= |paragraphs| && CountHeadings(paragraphs, i, h) > 0
    ensures i <= f < |paragraphs| && IsHeading(paragraphs, f, h) && forall j | i <= j < f :: !IsHeading(paragraphs, j, h)
    decreases |paragraphs| - i
  {
    if IsHeading(paragraphs, i, h) then i else FirstHeading(paragraphs, i + 1, h)
  }

  // ----------------------------------------------------------------- what survives detection

  predicate IsTitleCandidate(paragraph: string) {
    var text := Strip(paragraph);
    0 < |text| <= MAX_HEADING_CHARS && WordCount(text) <= MAX_TITLE_WORDS
  }

  /** The paragraphs before the first heading without the one taken as the title. */
  function Leftover(front: seq<string>): seq<string> {
    if front == [] then []
    else if IsTitleCandidate(front[0]) then front[1..]
    else [front[0]] + Leftover(front[1..])
  }

  predicate HasProse(paragraphs: seq<string>) {
    exists i | 0 <= i < |paragraphs| :: WordCount(paragraphs[i]) > MAX_TITLE_WORDS
  }

  predicate KeepsPrologue(leftover: seq<string>) {
    leftover != [] && (HasProse(leftover) || Words(leftover) > MAX_PROLOGUE_FREE_WORDS)
  }

  /** The paragraphs from `i` on that are not headings. */
  function Prose(paragraphs: seq<string>, i: nat, h: Headings): seq<string>
    requires i <= |paragraphs|
    decreases |paragraphs| - i
  {
    if i == |paragraphs| then []
    else (if IsHeading(paragraphs, i, h) then [] else [paragraphs[i]]) + Prose(paragraphs, i + 1, h)
  }

  /** Exactly the text that detection keeps: everything when there are fewer than two headings, else the prologue
      (if it is one) and every paragraph that is not a heading. */
  function Survivors(paragraphs: seq<string>, h: Headings): seq<string> {
    if CountHeadings(paragraphs, 0, h) < MIN_HEADINGS then paragraphs
    else
      var first := FirstHeading(paragraphs, 0, h);
      var leftover := Leftover(paragraphs[..first]);
      (if KeepsPrologue(leftover) then leftover else []) + Prose(paragraphs, first + 1, h)
  }

  // ----------------------------------------------------------------- detect_chapters

  /** The title is the first candidate's text, if there is one. */
  ghost predicate TitleFrom(front: seq<string>, n: nat, title: Option<string>)
    requires n <= |front|
  {
    && (title == None <==> forall j | 0 <= j < n :: !IsTitleCandidate(front[j]))
    && (title != None ==> exists j | 0 <= j < n :: IsTitleCandidate(front[j]) && title.value == Strip(front[j]))
  }

  lemma TitleStep(front: seq<string>, n: nat, title: Option<string>)
    requires n < |front| && TitleFrom(front, n, title)
    ensures TitleFrom(front, n + 1, if title == None && IsTitleCandidate(front[n]) then Some(Strip(front[n])) else title)
  {
  }

  /** What the scan will still put aside from paragraph `i` on. */
  function Remaining(front: seq<string>, i: nat, title: Option<string>): seq<string>
    requires i <= |front|
  {
    if title == None then Leftover(front[i..]) else front[i..]
  }

  lemma RemainingStep(front: seq<string>, i: nat, title: Option<string>, leftover: seq<string>)
    requires i < |front|
    ensures
      if title == None && IsTitleCandidate(front[i])
      then leftover + Remaining(front, i, title) == leftover + Remaining(front, i + 1, Some(Strip(front[i])))
      else leftover + Remaining(front, i, title) == (leftover + [front[i]]) + Remaining(front, i + 1, title)
  {
    SuffixStep(front, i);
    ConcatAssoc(leftover, [front[i]], Remaining(front, i + 1, title));
  }

  lemma NothingRemains(front: seq<string>, title: Option<string>, leftover: seq<string>)
    ensures leftover + Remaining(front, |front|, title) == leftover
  {
    assert front[|front|..] == [];
    AppendNothing(leftover);
  }

  lemma EverythingRemains(front: seq<string>)
    ensures [] + Remaining(front, 0, None) == Leftover(front)
  {
    assert front[0..] == front;
  }

  /** The scan before the first heading. */
  method TakeTitle(front: seq<string>) returns (title: Option<string>, leftover: seq<string>)
    ensures leftover == Leftover(front)
    ensures TitleFrom(front, |front|, title)
  {
    title, leftover := None, [];
    EverythingRemains(front);
    for i := 0 to |front|
      invariant leftover + Remaining(front, i, title) == Leftover(front)
      invariant TitleFrom(front, i, title)
    {
      TitleStep(front, i, title);
      RemainingStep(front, i, title, leftover);
      if title == None && IsTitleCandidate(front[i]) {
        title := Some(Strip(front[i]));
      } else {
        leftover := leftover + [front[i]];
      }
    }
    NothingRemains(front, title, leftover);
  }

  /** The loop over the paragraphs after the first heading. */
  method CutAtHeadings(paragraphs: seq<string>, first: nat, h: Headings) returns (chapters: seq<Section>)
    requires first < |paragraphs| && IsHeading(paragraphs, first, h)
    ensures chapters != [] && Bodies(chapters) == Prose(paragraphs, first + 1, h)
    ensures |chapters| == 1 + CountHeadings(paragraphs, first + 1, h)
    ensures Some(chapters[0].title) == h.titleOf(paragraphs[first])
  {
    chapters := [];
    var title, body := h.titleOf(paragraphs[first]).value, [];
    for i := first + 1 to |paragraphs|
      invariant Bodies(chapters) + body + Prose(paragraphs, i, h) == Prose(paragraphs, first + 1, h)
      invariant |chapters| + CountHeadings(paragraphs, i, h) == CountHeadings(paragraphs, first + 1, h)
      invariant Some(if chapters == [] then title else chapters[0].title) == h.titleOf(paragraphs[first])
    {
      if IsHeading(paragraphs, i, h) {
        BodiesSnoc(chapters, Section(title, body));
        chapters := chapters + [Section(title, body)];
        title, body := h.titleOf(paragraphs[i]).value, [];
        assert Bodies(chapters) + [] == Bodies(chapters);
      } else {
        ConcatAssoc(Bodies(chapters), body, [paragraphs[i]]);
        ConcatAssoc(Bodies(chapters) + body, [paragraphs[i]], Prose(paragraphs, i + 1, h));
        body := body + [paragraphs[i]];
      }
    }
    BodiesSnoc(chapters, Section(title, body));
    chapters := chapters + [Section(title, body)];
  }

  /** `detect_chapters`: whatever the headings are, the chapters' bodies in order are exactly the surviving
      paragraphs in order. */
  method DetectChapters(paragraphs: seq<string>, h: Headings) returns (title: Option<string>, sections: seq<Section>)
    ensures Bodies(sections) == Survivors(paragraphs, h)
    ensures CountHeadings(paragraphs, 0, h) < MIN_HEADINGS ==> title == None
    ensures CountHeadings(paragraphs, 0, h) >= MIN_HEADINGS ==> |sections| == 1 || AllLong(sections)
  {
    if CountHeadings(paragraphs, 0, h) < MIN_HEADINGS {
      sections := SyntheticParts(paragraphs);
      return None, sections;
    }
    var first := FirstHeading(paragraphs, 0, h);
    var leftover;
    title, leftover := TakeTitle(paragraphs[..first]);
    var cut := CutAtHeadings(paragraphs, first, h);
    var chapters := (if KeepsPrologue(leftover) then [Section("Prologue", leftover)] else []) + cut;
    BodiesConcat(if KeepsPrologue(leftover) then [Section("Prologue", leftover)] else [], cut);
    BodiesSnoc([], Section("Prologue", leftover));
    assert [] + [Section("Prologue", leftover)] == [Section("Prologue", leftover)];
    if title == None && chapters[0].body == [] && |chapters| > 1 && h.namesBook(chapters[0].title) {
      title := Some(chapters[0].title);
      assert [] + Bodies(chapters[1..]) == Bodies(chapters[1..]);
      chapters := chapters[1..];
    }
    sections := MergeShortChapters(chapters);
  }

  // ----------------------------------------------------------------- aligning scene-break flags

  ghost predicate Subsequence(xs: seq<string>, ys: seq<string>) {
    if xs == [] then true
    else if ys == [] then false
    else (xs[0] == ys[0] && Subsequence(xs[1..], ys[1..])) || Subsequence(xs, ys[1..])
  }

  lemma {:induction false} SubsequenceTail(xs: seq<string>, ys: seq<string>)
    requires xs != [] && Subsequence(xs, ys)
    ensures Subsequence(xs[1..], ys)
    decreases |ys|
  {
    if xs[1..] != [] {
      if xs[0] == ys[0] && Subsequence(xs[1..], ys[1..]) {
      } else {
        SubsequenceTail(xs, ys[1..]);
      }
    }
  }

  lemma {:induction false} SubsequenceOfMore(xs: seq<string>, ys: seq<string>, more: seq<string>)
    requires Subsequence(xs, ys)
    ensures Subsequence(xs, more + ys)
    decreases |more|
  {
    if more == [] {
      assert more + ys == ys;
    } else {
      SubsequenceOfMore(xs, ys, more[1..]);
      assert (more + ys)[1..] == more[1..] + ys;
    }
  }

  lemma {:induction false} SubsequencesConcat(xs: seq<string>, ys: seq<string>, xs': seq<string>, ys': seq<string>)
    requires Subsequence(xs, ys) && Subsequence(xs', ys')
    ensures Subsequence(xs + xs', ys + ys')
    decreases |ys|
  {
    if xs == [] {
      assert xs + xs' == xs';
      SubsequenceOfMore(xs', ys', ys);
    } else {
      assert (ys + ys')[1..] == ys[1..] + ys' && (xs + xs')[1..] == xs[1..] + xs';
      if xs[0] == ys[0] && Subsequence(xs[1..], ys[1..]) {
        SubsequencesConcat(xs[1..], ys[1..], xs', ys');
      } else {
        SubsequencesConcat(xs, ys[1..], xs', ys');
      }
    }
  }

  lemma {:induction false} SubsequenceRefl(xs: seq<string>)
    ensures Subsequence(xs, xs)
  {
    if xs != [] {
      SubsequenceRefl(xs[1..]);
    }
  }

  lemma {:induction false} LeftoverIsSubsequence(front: seq<string>)
    ensures Subsequence(Leftover(front), front)
  {
    if front != [] {
      if IsTitleCandidate(front[0]) {
        SubsequenceRefl(front[1..]);
        SubsequenceOfMore(front[1..], front[1..], [front[0]]);
        assert [front[0]] + front[1..] == front;
      } else {
        LeftoverIsSubsequence(front[1..]);
        assert ([front[0]] + Leftover(front[1..]))[1..] == Leftover(front[1..]);
      }
    }
  }

  lemma {:induction false} ProseIsSubsequence(paragraphs: seq<string>, i: nat, h: Headings)
    requires i <= |paragraphs|
    ensures Subsequence(Prose(paragraphs, i, h), paragraphs[i..])
    decreases |paragraphs| - i
  {
    if i < |paragraphs| {
      ProseIsSubsequence(paragraphs, i + 1, h);
      assert paragraphs[i..][1..] == paragraphs[i + 1..];
      var rest := Prose(paragraphs, i + 1, h);
      if IsHeading(paragraphs, i, h) {
        assert [] + rest == rest;
        SubsequenceOfMore(rest, paragraphs[i + 1..], [paragraphs[i]]);
        assert [paragraphs[i]] + paragraphs[i + 1..] == paragraphs[i..];
      } else {
        assert ([paragraphs[i]] + rest)[1..] == rest;
      }
    }
  }

  /** Chapter detection never duplicates or reorders text. */
  lemma SurvivorsAreASubsequence(paragraphs: seq<string>, h: Headings)
    ensures Subsequence(Survivors(paragraphs, h), paragraphs)
  {
    if CountHeadings(paragraphs, 0, h) < MIN_HEADINGS {
      SubsequenceRefl(paragraphs);
    } else {
      var first := FirstHeading(paragraphs, 0, h);
      var front, leftover := paragraphs[..first], Leftover(paragraphs[..first]);
      LeftoverIsSubsequence(front);
      ProseIsSubsequence(paragraphs, first + 1, h);
      var prose := Prose(paragraphs, first + 1, h);
      SubsequenceOfMore(prose, paragraphs[first + 1..], [paragraphs[first]]);
      SuffixStep(paragraphs, first);
      TakeAndDrop(paragraphs, first);
      SubsequencesConcat(if KeepsPrologue(leftover) then leftover else [], front, prose, paragraphs[first..]);
    }
  }

  datatype Block = Block(text: string, sceneBreak: bool)

  function Texts(blocks: seq<Block>): (ts: seq<string>)
    ensures |ts| == |blocks| && forall i | 0 <= i < |ts| :: ts[i] == blocks[i].text
  {
    seq(|blocks|, i requires 0 <= i < |blocks| => blocks[i].text)
  }

  /** Skipping a block with another text loses nothing; taking the first block with the right text neither. */
  lemma GreedyStep(texts: seq<string>, rest: seq<string>)
    requires texts != [] && rest != []
    ensures rest[0] != texts[0] ==> (Subsequence(texts, rest) <==> Subsequence(texts, rest[1..]))
    ensures rest[0] == texts[0] ==> (Subsequence(texts, rest) <==> Subsequence(texts[1..], rest[1..]))
  {
    if rest[0] == texts[0] && Subsequence(texts, rest[1..]) {
      SubsequenceTail(texts, rest[1..]);
    }
  }

  /** The inner loop: on to the next block with this text, or past the end. */
  method Seek(blocks: seq<Block>, texts: seq<string>, p: nat, start: nat) returns (cursor: nat)
    requires p < |texts|
    ensures start <= cursor && (start <= |blocks| ==> cursor <= |blocks|)
    ensures cursor < |blocks| ==> blocks[cursor].text == texts[p]
    ensures start <= |blocks| ==>
      (Subsequence(texts[p..], Texts(blocks)[start..]) <==> Subsequence(texts[p..], Texts(blocks)[cursor..]))
  {
    cursor := start;
    ghost var all := Texts(blocks);
    while cursor < |blocks| && blocks[cursor].text != texts[p]
      invariant start <= cursor && (start <= |blocks| ==> cursor <= |blocks|)
      invariant start <= |blocks| ==> (Subsequence(texts[p..], all[start..]) <==> Subsequence(texts[p..], all[cursor..]))
      decreases |blocks| - cursor
    {
      SuffixStep(all, cursor);
      GreedyStep(texts[p..], all[cursor..]);
      cursor := cursor + 1;
    }
  }

  /** The flags taken so far, each from a strictly later block with the same text. */
  ghost predicate Aligned(blocks: seq<Block>, texts: seq<string>, flags: seq<bool>, from: seq<nat>, cursor: nat) {
    && |flags| == |from| <= |texts|
    && (forall q | 0 <= q < |from| ::
         && from[q] < cursor && from[q] < |blocks| && blocks[from[q]].text == texts[q]
         && flags[q] == blocks[from[q]].sceneBreak)
    && (forall q, r | 0 <= q < r < |from| :: from[q] < from[r])
  }

  lemma AlignStep(blocks: seq<Block>, texts: seq<string>, flags: seq<bool>, from: seq<nat>, start: nat, cursor: nat)
    requires Aligned(blocks, texts, flags, from, start) && |from| < |texts| && start <= cursor < |blocks|
    requires blocks[cursor].text == texts[|from|]
    ensures Aligned(blocks, texts, flags + [blocks[cursor].sceneBreak], from + [cursor], cursor + 1)
  {
  }

  /** `_align_flags` over the chapters' texts in order.  The walk runs past the blocks if, and only if, the texts are
      not a subsequence of the blocks; otherwise each flag comes from a strictly later block with the same text. */
  method AlignFlags(blocks: seq<Block>, texts: seq<string>) returns (flags: seq<bool>, ghost from: seq<nat>, ghost past: bool)
    ensures |flags| == |texts|
    ensures Subsequence(texts, Texts(blocks)) ==> exists found :: Aligned(blocks, texts, flags, found, |blocks|)
    ensures |from| == |texts|
    ensures past <==> !Subsequence(texts, Texts(blocks))
    ensures !past ==> Aligned(blocks, texts, flags, from, |blocks|)
  {
    flags, from, past := [], [], false;
    var cursor := 0;
    ghost var all := Texts(blocks);
    assert all[0..] == all && texts[0..] == texts;
    for p := 0 to |texts|
      invariant |flags| == |from| == p
      invariant !past ==> cursor <= |blocks| && (Subsequence(texts[p..], all[cursor..]) <==> Subsequence(texts, all))
      invariant past ==> !Subsequence(texts, all) && cursor > |blocks|
      invariant !past ==> Aligned(blocks, texts, flags, from, cursor)
    {
      ghost var start := cursor;
      cursor := Seek(blocks, texts, p, cursor);
      if cursor < |blocks| {
        SuffixStep(all, cursor);
        SuffixStep(texts, p);
        GreedyStep(texts[p..], all[cursor..]);
        AlignStep(blocks, texts, flags, from, start, cursor);
      }
      past := past || cursor >= |blocks|;
      flags := flags + [if cursor < |blocks| then blocks[cursor].sceneBreak else false];
      from := from + [cursor];
      cursor := cursor + 1;
    }
    assert !past ==> Aligned(blocks, texts, flags, from, |blocks|);
  }

  /** `_text_sections`: chapters, then the flags walked back from the blocks; the walk always succeeds. */
  method TextSections(blocks: seq<Block>, h: Headings) returns (sections: seq<Section>, flags: seq<bool>, ghost from: seq<nat>)
    ensures Bodies(sections) == Survivors(Texts(blocks), h)
    ensures |flags| == |Bodies(sections)| && Aligned(blocks, Bodies(sections), flags, from, |blocks|)
  {
    var title;
    title, sections := DetectChapters(Texts(blocks), h);
    SurvivorsAreASubsequence(Texts(blocks), h);
    ghost var past;
    flags, from, past := AlignFlags(blocks, Bodies(sections));
  }
}
