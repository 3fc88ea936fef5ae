/** Turning a chapter and its validated chunk analyses into the chapter script (`assemble_script`). */
module Assemble {
  import opened Book
  import opened Common
  import opened Text
  import opened Validate
  import Bible
  import CastRun
  import Chunker
  import Music
  import TimelineSfx

  /** A span in chapter order, with its paragraph and whether a new scene starts with it. */
  datatype Placed = Placed(span: Span, paragraph: int, sceneBreak: bool)

  function PlacedOf(paragraph: Paragraph): (ps: seq<Placed>)
    ensures |ps| == |paragraph.spans|
    ensures forall i | 0 <= i < |ps| ::
      ps[i] == Placed(paragraph.spans[i], paragraph.index, paragraph.sceneBreakBefore && i == 0)
  {
    seq(|paragraph.spans|, i requires 0 <= i < |paragraph.spans| =>
      Placed(paragraph.spans[i], paragraph.index, paragraph.sceneBreakBefore && i == 0))
  }

  function Ordered(paragraphs: seq<Paragraph>): seq<Placed> {
    if paragraphs == [] then []
    else Ordered(paragraphs[..|paragraphs| - 1]) + PlacedOf(paragraphs[|paragraphs| - 1])
  }

  function SpansIn(ps: seq<Placed>): (spans: seq<Span>)
    ensures |spans| == |ps| && forall i | 0 <= i < |ps| :: spans[i] == ps[i].span
  {
    seq(|ps|, i requires 0 <= i < |ps| => ps[i].span)
  }

  /** Every span of the chapter, in order. */
  lemma {:induction false} OrderedIsAllSpans(paragraphs: seq<Paragraph>)
    ensures SpansIn(Ordered(paragraphs)) == Chunker.SpansOf(paragraphs)
  {
    if paragraphs != [] {
      var n := |paragraphs| - 1;
      OrderedIsAllSpans(paragraphs[..n]);
      FrontAndLast(paragraphs);
      Chunker.SpansOfConcat(paragraphs[..n], [paragraphs[n]]);
      var own := PlacedOf(paragraphs[n]);
      assert SpansIn(Ordered(paragraphs[..n]) + own) == SpansIn(Ordered(paragraphs[..n])) + SpansIn(own);
      assert SpansIn(own) == paragraphs[n].spans;
      assert Chunker.SpanLists([paragraphs[n]]) == [paragraphs[n].spans];
      FlattenSnoc([], paragraphs[n].spans);
      assert [] + [paragraphs[n].spans] == [paragraphs[n].spans];
    }
  }

  /** The dictionary from span ids to positions. */
  ghost predicate IsIndex(indexOf: map<string, nat>, ps: seq<Placed>) {
    && (forall id | id in indexOf :: indexOf[id] < |ps| && ps[indexOf[id]].span.id == id)
    && forall i | 0 <= i < |ps| :: ps[i].span.id in indexOf
  }

  method OrderSpans(paragraphs: seq<Paragraph>) returns (ps: seq<Placed>, indexOf: map<string, nat>)
    ensures ps == Ordered(paragraphs) && IsIndex(indexOf, ps)
  {
    ps := [];
    for p := 0 to |paragraphs|
      invariant ps == Ordered(paragraphs[..p])
    {
      assert paragraphs[..p + 1][..p] == paragraphs[..p];
      ps := ps + PlacedOf(paragraphs[p]);
    }
    assert paragraphs[..|paragraphs|] == paragraphs;
    indexOf := map[];
    for i := 0 to |ps|
      invariant forall id | id in indexOf :: indexOf[id] < i && ps[indexOf[id]].span.id == id
      invariant forall j | 0 <= j < i :: ps[j].span.id in indexOf
    {
      indexOf := indexOf[ps[i].span.id := i];
    }
  }

  // ----------------------------------------------------------------- labels

  function AllLabels(analyses: seq<Analysis>): seq<Label> {
    if analyses == [] then [] else AllLabels(analyses[..|analyses| - 1]) + analyses[|analyses| - 1].labels
  }

  /** The dictionary of labels: for each span of the chapter the first label given to it. */
  ghost predicate FirstLabels(table: map<string, Label>, labels: seq<Label>, indexOf: map<string, nat>) {
    forall id :: if id in indexOf && FirstLabel(labels, id).Some?
      then id in table && table[id] == FirstLabel(labels, id).value else id !in table
  }

  lemma FirstLabelsSnoc(table: map<string, Label>, labels: seq<Label>, one: Label, indexOf: map<string, nat>)
    requires FirstLabels(table, labels, indexOf)
    ensures FirstLabels(
      if one.spanId in indexOf && one.spanId !in table then table[one.spanId := one] else table, labels + [one], indexOf)
  {
    assert (labels + [one])[..|labels|] == labels;
  }

  method CollectLabels(analyses: seq<Analysis>, indexOf: map<string, nat>) returns (table: map<string, Label>)
    ensures FirstLabels(table, AllLabels(analyses), indexOf)
  {
    table := map[];
    for a := 0 to |analyses|
      invariant FirstLabels(table, AllLabels(analyses[..a]), indexOf)
    {
      assert analyses[..a + 1][..a] == analyses[..a];
      ghost var before := AllLabels(analyses[..a]);
      var labels := analyses[a].labels;
      AppendNothing(before);
      for k := 0 to |labels|
        invariant FirstLabels(table, before + labels[..k], indexOf)
      {
        assert before + labels[..k + 1] == (before + labels[..k]) + [labels[k]];
        FirstLabelsSnoc(table, before + labels[..k], labels[k], indexOf);
        if labels[k].spanId in indexOf && labels[k].spanId !in table {
          table := table[labels[k].spanId := labels[k]];
        }
      }
      assert labels[..|labels|] == labels;
    }
    assert analyses[..|analyses|] == analyses;
  }

  // ----------------------------------------------------------------- segments

  /** Why a quote is given to the narrator although nobody said so. */
  datatype Warning = NoLabel(id: string) | NotInBible(id: string)

  /** `_resolve_speaker`. */
  function Speaker(given: Option<Label>, span: Span, cast: Bible.Cast): (string, Option<Warning>) {
    match given
    case None => (NARRATOR, Some(NoLabel(span.id)))
    case Some(l) =>
      match CastRun.ResolveSpeaker(l.speaker, cast)
      case Narrator => (NARRATOR, None)
      case Character(name) => (name, None)
      case NotInBible => (NARRATOR, Some(NotInBible(span.id)))
  }

  function SegmentOf(p: Placed, given: Option<Label>, cast: Bible.Cast): Segment {
    if p.span.kind == Narration then
      Segment(p.span.id, p.paragraph, NARRATOR, true, p.span.text, "neutral", "normal", p.sceneBreak)
    else
      Segment(
        p.span.id, p.paragraph, Speaker(given, p.span, cast).0, false, p.span.text,
        if given.Some? then given.value.emotion else "neutral", if given.Some? then given.value.delivery else "normal",
        p.sceneBreak)
  }

  function Given(labels: seq<Label>, id: string): Option<Label> {
    FirstLabel(labels, id)
  }

  /** Warnings of the segments of `ps`, in order. */
  function SegmentWarnings(ps: seq<Placed>, labels: seq<Label>, cast: Bible.Cast): seq<Warning> {
    if ps == [] then []
    else
      var last := ps[|ps| - 1];
      var w := Speaker(Given(labels, last.span.id), last.span, cast).1;
      SegmentWarnings(ps[..|ps| - 1], labels, cast) + if last.span.kind == Quote && w.Some? then [w.value] else []
  }

  lemma WarningsStep(ps: seq<Placed>, i: nat, labels: seq<Label>, cast: Bible.Cast)
    requires i < |ps|
    ensures
      var w := Speaker(Given(labels, ps[i].span.id), ps[i].span, cast).1;
      SegmentWarnings(ps[..i + 1], labels, cast) ==
        SegmentWarnings(ps[..i], labels, cast) + if ps[i].span.kind == Quote && w.Some? then [w.value] else []
  {
    assert ps[..i + 1][..i] == ps[..i];
  }

  /** The first `n` segments, as they should be. */
  ghost predicate SegmentsSoFar(segments: seq<Segment>, ps: seq<Placed>, labels: seq<Label>, cast: Bible.Cast) {
    && |segments| <= |ps|
    && forall i | 0 <= i < |segments| :: segments[i] == SegmentOf(ps[i], Given(labels, ps[i].span.id), cast)
  }

  lemma OneMoreSegment(segments: seq<Segment>, ps: seq<Placed>, labels: seq<Label>, cast: Bible.Cast)
    requires SegmentsSoFar(segments, ps, labels, cast) && |segments| < |ps|
    ensures
      var p := ps[|segments|];
      SegmentsSoFar(segments + [SegmentOf(p, Given(labels, p.span.id), cast)], ps, labels, cast)
  {
  }

  lemma TableGives(table: map<string, Label>, labels: seq<Label>, indexOf: map<string, nat>, ps: seq<Placed>, i: nat)
    requires IsIndex(indexOf, ps) && FirstLabels(table, labels, indexOf) && i < |ps|
    ensures var id := ps[i].span.id; (if id in table then Some(table[id]) else None) == Given(labels, id)
  {
    assert ps[i].span.id in indexOf;
  }

  /** The segment loop: one segment for each span, text and order untouched. */
  method BuildSegments(ps: seq<Placed>, table: map<string, Label>, ghost labels: seq<Label>, ghost indexOf: map<string, nat>,
                       cast: Bible.Cast)
    returns (segments: seq<Segment>, warnings: seq<Warning>)
    requires IsIndex(indexOf, ps) && FirstLabels(table, labels, indexOf)
    ensures |segments| == |ps| && SegmentsSoFar(segments, ps, labels, cast)
    ensures warnings == SegmentWarnings(ps, labels, cast)
  {
    segments, warnings := [], [];
    for i := 0 to |ps|
      invariant |segments| == i && SegmentsSoFar(segments, ps, labels, cast)
      invariant warnings == SegmentWarnings(ps[..i], labels, cast)
    {
      WarningsStep(ps, i, labels, cast);
      OneMoreSegment(segments, ps, labels, cast);
      TableGives(table, labels, indexOf, ps, i);
      var p := ps[i];
      var given := if p.span.id in table then Some(table[p.span.id]) else None;
      var w := Speaker(given, p.span, cast).1;
      if p.span.kind == Quote && w.Some? {
        warnings := warnings + [w.value];
      }
      segments := segments + [SegmentOf(p, given, cast)];
    }
    assert ps[..|ps|] == ps;
  }

  // ----------------------------------------------------------------- sound effects

  predicate StartsWith(text: string, part: string) {
    |part| <= |text| && text[..|part|] == part
  }

  /** `text.find(part)` for a non-empty part. */
  function Find(text: string, part: string): (at: Option<nat>)
    requires part != ""
    ensures at.Some? ==> at.value + |part| <= |text| && text[at.value..at.value + |part|] == part
  {
    if text == "" then None
    else if StartsWith(text, part) then Some(0)
    else match Find(text[1..], part)
      case Some(n) =>
        SliceOfTail(text, n, |part|);
        Some(n + 1)
      case None => None
  }

  lemma {:induction false} FindIsFirst(text: string, part: string, k: nat)
    requires part != "" && k + |part| <= |text| && text[k..k + |part|] == part
    ensures Find(text, part).Some? && Find(text, part).value <= k
  {
    if k > 0 {
      SliceOfTail(text, k - 1, |part|);
      FindIsFirst(text[1..], part, k - 1);
    }
  }

  function Offset(cue: SfxCueRaw, span: Span): (n: nat)
  {
    if cue.anchorText == "" then 0
    else match Find(Lower(span.text), Lower(cue.anchorText)) case Some(n) => n case None => 0
  }

  /** `_ambient_end`: position of the last span before the next scene break. */
  function AmbientEnd(ps: seq<Placed>, start: nat): (end: nat)
    requires start < |ps|
    ensures start <= end < |ps|
    ensures forall k | start < k <= end :: !ps[k].sceneBreak
    ensures end + 1 < |ps| ==> ps[end + 1].sceneBreak
    decreases |ps| - start
  {
    if start + 1 == |ps| || ps[start + 1].sceneBreak then start else AmbientEnd(ps, start + 1)
  }

  /** The loop of `_ambient_end`. */
  method FindAmbientEnd(ps: seq<Placed>, start: nat) returns (end: nat)
    requires start < |ps|
    ensures end == AmbientEnd(ps, start)
  {
    end := |ps| - 1;
    var index := start + 1;
    while index < |ps|
      invariant start < index <= |ps| && end == |ps| - 1
      invariant AmbientEnd(ps, index - 1) == AmbientEnd(ps, start)
    {
      if ps[index].sceneBreak {
        return index - 1;
      }
      index := index + 1;
    }
  }

  /** The effect with its scene's last span, if it is ambient. */
  function SfxCueUntil(span: Span, cue: SfxCueRaw, id: string, endSpanId: Option<string>): SfxCue
    requires cue.durationS >= 0.0
  {
    DurationIsNat(cue.durationS);
    SfxCue(
      id, cue.spanId, cue.anchorText, Offset(cue, span), cue.description, cue.kind,
      TimelineSfx.RoundHalfEven(cue.durationS * 1000.0), cue.intensity, endSpanId)
  }

  function SfxCueOf(ps: seq<Placed>, index: nat, cue: SfxCueRaw, id: string): SfxCue
    requires index < |ps| && cue.durationS >= 0.0
  {
    SfxCueUntil(
      ps[index].span, cue, id, if cue.kind == Ambient then Some(ps[AmbientEnd(ps, index)].span.id) else None)
  }

  lemma DurationIsNat(d: real)
    requires d >= 0.0
    ensures TimelineSfx.RoundHalfEven(d * 1000.0) >= 0
  {
    assert d * 1000.0 >= 0.0;
  }

  function AllSfx(analyses: seq<Analysis>): seq<SfxCueRaw> {
    if analyses == [] then [] else AllSfx(analyses[..|analyses| - 1]) + analyses[|analyses| - 1].sfx
  }

  ghost predicate NonNegative(cues: seq<SfxCueRaw>) {
    forall c | 0 <= c < |cues| :: cues[c].durationS >= 0.0
  }

  /** The effects of the known spans, numbered from 1. */
  function PlaceSfx(cues: seq<SfxCueRaw>, ps: seq<Placed>, indexOf: map<string, nat>, idOf: nat -> string): seq<SfxCue>
    requires NonNegative(cues) && forall id | id in indexOf :: indexOf[id] < |ps|
  {
    if cues == [] then []
    else
      var front, last := PlaceSfx(cues[..|cues| - 1], ps, indexOf, idOf), cues[|cues| - 1];
      if last.spanId in indexOf then front + [SfxCueOf(ps, indexOf[last.spanId], last, idOf(|front| + 1))] else front
  }

  method BuildSfx(cues: seq<SfxCueRaw>, ps: seq<Placed>, indexOf: map<string, nat>, idOf: nat -> string)
    returns (sfx: seq<SfxCue>)
    requires NonNegative(cues) && IsIndex(indexOf, ps)
    ensures sfx == PlaceSfx(cues, ps, indexOf, idOf)
  {
    sfx := [];
    for c := 0 to |cues|
      invariant sfx == PlaceSfx(cues[..c], ps, indexOf, idOf)
    {
      assert cues[..c + 1][..c] == cues[..c];
      if cues[c].spanId !in indexOf {
        continue;
      }
      var index, endSpanId := indexOf[cues[c].spanId], None;
      if cues[c].kind == Ambient {
        var end := FindAmbientEnd(ps, index);
        endSpanId := Some(ps[end].span.id);
      }
      sfx := sfx + [SfxCueUntil(ps[index].span, cues[c], idOf(|sfx| + 1), endSpanId)];
    }
    assert cues[..|cues|] == cues;
  }

  // ----------------------------------------------------------------- the script

  function AllMusic(analyses: seq<Analysis>): seq<MusicCueRaw> {
    if analyses == [] then [] else AllMusic(analyses[..|analyses| - 1]) + analyses[|analyses| - 1].music
  }

  function MusicCueOf(ps: seq<Placed>, region: Music.Region, id: string): MusicCue
    requires region.start < |ps| && region.end < |ps|
  {
    MusicCue(id, ps[region.start].span.id, ps[region.end].span.id, region.bed.mood, region.bed.energy, region.bed.prompt)
  }

  /** How ids are formatted, and the stock prompt of a mood. */
  datatype Formats = Formats(sfxId: nat -> string, musicId: nat -> string, prompts: Music.Prompts)

  /** The script's segments are the chapter's spans. */
  ghost predicate SegmentsFollow(script: Script, ps: seq<Placed>, labels: seq<Label>, cast: Bible.Cast) {
    && |script.segments| == |ps|
    && forall i | 0 <= i < |ps| :: script.segments[i] == SegmentOf(ps[i], Given(labels, ps[i].span.id), cast)
  }

  /** The script's music is the resolved regions, by span id. */
  ghost predicate MusicFollows(script: Script, ps: seq<Placed>, regions: seq<Music.Region>, formats: Formats) {
    && |script.music| == |regions|
    && forall k | 0 <= k < |regions| ::
      && regions[k].start < |ps| && regions[k].end < |ps|
      && script.music[k] == MusicCueOf(ps, regions[k], formats.musicId(k + 1))
  }

  /** The regions are ordered, apart, non-empty and inside the chapter; they show at every span what the cues leave
      playing there, and if that is nothing throughout, they are one calm region. */
  ghost predicate RegionsResolve(
    regions: seq<Music.Region>, events: seq<Music.Event>, spanCount: nat, priorMood: string, prompts: Music.Prompts)
  {
    && Music.Disjoint(regions) && (forall k | 0 <= k < |regions| :: regions[k].end < spanCount)
    && (regions == [] <==> spanCount == 0)
    && (spanCount > 0 ==>
         || Music.Faithful(regions, events, Music.Opening(priorMood, prompts), prompts, spanCount)
         || (Music.Silent(events, Music.Opening(priorMood, prompts), prompts, spanCount)
             && regions == [Music.Region(
                  0, spanCount - 1, Music.Bed(Music.DEFAULT_MOOD, Music.CARRY_ENERGY, prompts(Music.DEFAULT_MOOD)))]))
  }

  method BuildMusic(ps: seq<Placed>, regions: seq<Music.Region>, formats: Formats) returns (music: seq<MusicCue>)
    requires forall k | 0 <= k < |regions| :: regions[k].start < |ps| && regions[k].end < |ps|
    ensures |music| == |regions|
    ensures forall k | 0 <= k < |regions| :: music[k] == MusicCueOf(ps, regions[k], formats.musicId(k + 1))
  {
    music := [];
    for k := 0 to |regions|
      invariant |music| == k
      invariant forall j | 0 <= j < k :: music[j] == MusicCueOf(ps, regions[j], formats.musicId(j + 1))
    {
      music := music + [MusicCueOf(ps, regions[k], formats.musicId(k + 1))];
    }
  }

  /** The regions of the chapter's music, with what `ResolveMusic` promises about them. */
  method ResolveChapterMusic(cues: seq<MusicCueRaw>, ps: seq<Placed>, indexOf: map<string, nat>, priorMood: string,
                             formats: Formats)
    returns (regions: seq<Music.Region>, ghost events: seq<Music.Event>)
    requires IsIndex(indexOf, ps)
    ensures events == Music.Placed(cues, indexOf, 0)
    ensures RegionsResolve(regions, Music.Placed(cues, indexOf, 0), |ps|, priorMood, formats.prompts)
  {
    var placed, dropped := Music.PlaceCues(cues, indexOf);
    events := placed;
    regions := Music.ResolveMusic(placed, |ps|, priorMood, formats.prompts);
  }

  /** `assemble_script`. */
  method AssembleScript(
    chapter: Chapter, analyses: seq<Analysis>, cast: Bible.Cast, priorMood: string, formats: Formats)
    returns (script: Script, warnings: seq<Warning>, ghost indexOf: map<string, nat>, ghost regions: seq<Music.Region>)
    requires NonNegative(AllSfx(analyses))
    ensures SegmentsFollow(script, Ordered(chapter.paragraphs), AllLabels(analyses), cast)
    ensures warnings == SegmentWarnings(Ordered(chapter.paragraphs), AllLabels(analyses), cast)
    ensures
      var ps := Ordered(chapter.paragraphs);
      && IsIndex(indexOf, ps)
      && script.sfx == PlaceSfx(AllSfx(analyses), ps, indexOf, formats.sfxId)
      && MusicFollows(script, ps, regions, formats)
      && RegionsResolve(regions, Music.Placed(AllMusic(analyses), indexOf, 0), |ps|, priorMood, formats.prompts)
  {
    var ps, index := OrderSpans(chapter.paragraphs);
    indexOf := index;
    var table := CollectLabels(analyses, index);
    var segments;
    segments, warnings := BuildSegments(ps, table, AllLabels(analyses), index, cast);
    var sfx := BuildSfx(AllSfx(analyses), ps, index, formats.sfxId);
    var found, events := ResolveChapterMusic(AllMusic(analyses), ps, index, priorMood, formats);
    regions := found;
    var music := BuildMusic(ps, found, formats);
    script := Script(segments, sfx, music);
  }
}
