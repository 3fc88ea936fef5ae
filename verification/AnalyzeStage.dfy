/** The analyze stage chunk by chunk: every chunk is analyzed under the bible, the mood and the speakers that the chunks
    before it left.  Validated analyses label every quote, and the final bible knows their speakers, so assembling has
    nothing to warn about; the script is fit for the timeline. */
module AnalyzeStage {
  import opened Assemble
  import opened Book
  import opened Common
  import opened Paragraphs
  import opened Validate
  import Bible
  import CastRun
  import Chunker
  import IngestIds
  import Music
  import Timeline
  import TimelineBuild

  // ----------------------------------------------------------------- the run, chunk by chunk

  /** A chunk as it was analyzed, with what came of it and the number of its chapter. */
  datatype Step = Step(chunk: Chunk, analysis: Analysis, chapter: int)

  /** What the analyzer answers to chunk number `n` (nothing if it fails), and the heuristic labels for a chunk. */
  datatype Inputs = Inputs(
    reply: (nat, Chunk, Bible.Cast) -> Option<Analysis>, heuristic: (Chunk, Bible.Cast) -> seq<Label>)

  function AnalysesOf(steps: seq<Step>): (analyses: seq<Analysis>)
    ensures |analyses| == |steps| && forall n | 0 <= n < |steps| :: analyses[n] == steps[n].analysis
  {
    seq(|steps|, n requires 0 <= n < |steps| => steps[n].analysis)
  }

  function ChunksOf(steps: seq<Step>): (chunks: seq<Chunk>)
    ensures |chunks| == |steps| && forall n | 0 <= n < |steps| :: chunks[n] == steps[n].chunk
  {
    seq(|steps|, n requires 0 <= n < |steps| => steps[n].chunk)
  }

  /** The speakers of the labels other than the narrator, in order. */
  function SpeakersOf(labels: seq<Label>): seq<string> {
    if labels == [] then []
    else
      SpeakersOf(labels[..|labels| - 1])
      + if labels[|labels| - 1].speaker == NARRATOR then [] else [labels[|labels| - 1].speaker]
  }

  function CastChunk(step: Step): CastRun.Chunk {
    CastRun.Chunk(step.analysis.characters, SpeakersOf(step.analysis.labels), step.chapter)
  }

  /** What the bible sees of the run. */
  function CastChunks(steps: seq<Step>): (cs: seq<CastRun.Chunk>)
    ensures |cs| == |steps| && forall n | 0 <= n < |steps| :: cs[n] == CastChunk(steps[n])
  {
    seq(|steps|, n requires 0 <= n < |steps| => CastChunk(steps[n]))
  }

  function BibleAfter(steps: seq<Step>): Bible.Cast {
    CastRun.AfterChunks(CastChunks(steps))
  }

  function CarriedMood(steps: seq<Step>): string {
    Music.MoodLeft(AllMusic(AnalysesOf(steps)), Music.NO_MOOD)
  }

  /** The speakers carried on after these chunks of a chapter. */
  function SpeakersAfter(part: seq<Step>): seq<string> {
    if part == [] then []
    else
      var last := part[|part| - 1];
      Chunker.RememberAll(SpeakersAfter(part[..|part| - 1]), Chunker.Heard(last.chunk.spans, last.analysis.labels))
  }

  /** Step `n` is the validated reply of the analyzer for its chunk, under the bible and the mood of that moment. */
  ghost predicate StepOk(steps: seq<Step>, n: nat, inputs: Inputs)
    requires n < |steps|
  {
    var chunk, before := steps[n].chunk, BibleAfter(steps[..n]);
    var reply := inputs.reply(n, chunk, before);
    && reply.Some? && Repaired(reply.value, chunk, before, inputs.heuristic(chunk, before)) == Ok(steps[n].analysis)
    && chunk.priorMood == CarriedMood(steps[..n])
  }

  ghost predicate RunOk(steps: seq<Step>, inputs: Inputs) {
    forall n: nat | n < |steps| :: StepOk(steps, n, inputs)
  }

  lemma StepOkInFront(steps: seq<Step>, m: nat, n: nat, inputs: Inputs)
    requires n < m <= |steps|
    ensures StepOk(steps[..m], n, inputs) <==> StepOk(steps, n, inputs)
  {
    assert steps[..m][..n] == steps[..n];
  }

  lemma OneMoreStep(steps: seq<Step>, step: Step, inputs: Inputs)
    requires RunOk(steps, inputs) && StepOk(steps + [step], |steps|, inputs)
    ensures RunOk(steps + [step], inputs)
  {
    var more := steps + [step];
    assert more[..|steps|] == steps;
    forall n: nat | n < |more|
      ensures StepOk(more, n, inputs)
    {
      if n < |steps| {
        StepOkInFront(more, |steps|, n, inputs);
      }
    }
  }

  lemma BibleStep(steps: seq<Step>, step: Step)
    ensures BibleAfter(steps + [step]) == CastRun.AfterChunk(BibleAfter(steps), CastChunk(step))
  {
    var cs := CastChunks(steps + [step]);
    assert cs[..|steps|] == CastChunks(steps);
  }

  lemma MoodStep(steps: seq<Step>, step: Step)
    ensures CarriedMood(steps + [step]) == Music.MoodLeft(step.analysis.music, CarriedMood(steps))
  {
    var all := AnalysesOf(steps + [step]);
    assert all[..|steps|] == AnalysesOf(steps);
    Music.MoodLeftConcat(AllMusic(AnalysesOf(steps)), step.analysis.music, Music.NO_MOOD);
  }

  lemma SpeakersStep(part: seq<Step>, step: Step)
    ensures SpeakersAfter(part + [step]) ==
      Chunker.RememberAll(SpeakersAfter(part), Chunker.Heard(step.chunk.spans, step.analysis.labels))
  {
    assert (part + [step])[..|part|] == part;
  }

  // ----------------------------------------------------------------- validation gives what assembling needs

  ghost predicate LabelsChunks(steps: seq<Step>) {
    forall n | 0 <= n < |steps| :: NamesEachQuoteOnce(LabelIds(steps[n].analysis.labels), steps[n].chunk.spans)
  }

  /** The label's speaker is what validation made of some name that the bible, the chunk's updates or nobody knew (and
      then not one of the four descriptors). */
  ghost predicate ValidSpeaker(l: Label, before: Bible.Cast, analysis: Analysis) {
    exists raw: string ::
      l.speaker == CastRun.CanonicalSpeaker(raw, before, analysis.characters)
      && CastRun.Settled(raw, before, analysis.characters)
  }

  ghost predicate ValidSpeakers(steps: seq<Step>) {
    forall n, l | 0 <= n < |steps| && 0 <= l < |steps[n].analysis.labels| ::
      ValidSpeaker(steps[n].analysis.labels[l], BibleAfter(steps[..n]), steps[n].analysis)
  }

  /** The name that the analyzer, or the heuristic in its place, gave for a quote of step `n`. */
  function RawSpeaker(steps: seq<Step>, n: nat, inputs: Inputs, id: string): string
    requires n < |steps|
  {
    var chunk, before := steps[n].chunk, BibleAfter(steps[..n]);
    match inputs.reply(n, chunk, before)
    case Some(reply) => LabelFor(reply.labels, inputs.heuristic(chunk, before), id).speaker
    case None => NARRATOR
  }

  /** No unknown speaker is one of the four descriptors. */
  ghost predicate AllSettled(steps: seq<Step>, inputs: Inputs) {
    forall n, l | 0 <= n < |steps| && 0 <= l < |steps[n].analysis.labels| ::
      CastRun.Settled(
        RawSpeaker(steps, n, inputs, steps[n].analysis.labels[l].spanId), BibleAfter(steps[..n]), steps[n].analysis.characters)
  }

  /** Validated analyses label every quote of their chunk exactly once, whatever the ids are. */
  lemma ValidatedChunksAreLabelled(steps: seq<Step>, inputs: Inputs)
    requires RunOk(steps, inputs)
    ensures LabelsChunks(steps)
  {
    forall n: nat | n < |steps|
      ensures NamesEachQuoteOnce(LabelIds(steps[n].analysis.labels), steps[n].chunk.spans)
    {
      assert StepOk(steps, n, inputs);
    }
  }

  /** And their speakers are what validation makes of the given names. */
  lemma ValidatedSpeakersAreValid(steps: seq<Step>, inputs: Inputs)
    requires RunOk(steps, inputs) && AllSettled(steps, inputs)
    ensures ValidSpeakers(steps)
  {
    forall n: nat, l: nat | n < |steps| && l < |steps[n].analysis.labels|
      ensures ValidSpeaker(steps[n].analysis.labels[l], BibleAfter(steps[..n]), steps[n].analysis)
    {
      assert StepOk(steps, n, inputs);
      var one := steps[n].analysis.labels[l];
      var before := BibleAfter(steps[..n]);
      var reply := inputs.reply(n, steps[n].chunk, before).value;
      var given := LabelFor(reply.labels, inputs.heuristic(steps[n].chunk, before), OrderOf(steps[n].chunk)[l]);
      assert one == Canonical(given, before, reply.characters);
      assert given.speaker == RawSpeaker(steps, n, inputs, one.spanId);
    }
  }

  // ----------------------------------------------------------------- every quote has its label

  lemma AllSpansStep(chunks: seq<Chunk>)
    requires chunks != []
    ensures Chunker.AllSpans(chunks) == Chunker.AllSpans(chunks[..|chunks| - 1]) + chunks[|chunks| - 1].spans
  {
    FrontAndLast(chunks);
    Chunker.AllSpansSnoc(chunks[..|chunks| - 1], chunks[|chunks| - 1]);
  }

  lemma {:induction false} LabelsOfAllChunks(part: seq<Step>, id: string)
    requires LabelsChunks(part) && id in QuoteIds(Chunker.AllSpans(ChunksOf(part)))
    ensures id in LabelIds(AllLabels(AnalysesOf(part)))
  {
    if part != [] {
      var n := |part| - 1;
      var front := part[..n];
      AllSpansStep(ChunksOf(part));
      assert ChunksOf(part)[..n] == ChunksOf(front) && AnalysesOf(part)[..n] == AnalysesOf(front);
      QuoteIdsConcat(Chunker.AllSpans(ChunksOf(front)), part[n].chunk.spans);
      var before, own := AllLabels(AnalysesOf(front)), part[n].analysis.labels;
      LabelIdsConcat(before, own);
      if id in QuoteIds(part[n].chunk.spans) {
        assert id in LabelIds(own);
      } else {
        LabelsOfAllChunks(front, id);
      }
    }
  }

  lemma LabelIdsConcat(a: seq<Label>, b: seq<Label>)
    ensures LabelIds(a + b) == LabelIds(a) + LabelIds(b)
  {
  }

  lemma {:induction false} LabelledIsFound(labels: seq<Label>, id: string)
    requires id in LabelIds(labels)
    ensures FirstLabel(labels, id).Some? && FirstLabel(labels, id).value in labels
  {
    var n := |labels| - 1;
    var i :| 0 <= i < |labels| && LabelIds(labels)[i] == id;
    if i < n {
      assert LabelIds(labels[..n])[i] == id;
      LabelledIsFound(labels[..n], id);
    } else if FirstLabel(labels[..n], id).Some? {
      FoundIsIn(labels[..n], id);
    }
  }

  lemma {:induction false} FoundIsIn(labels: seq<Label>, id: string)
    requires FirstLabel(labels, id).Some?
    ensures FirstLabel(labels, id).value in labels
  {
    var n := |labels| - 1;
    if FirstLabel(labels[..n], id).Some? {
      FoundIsIn(labels[..n], id);
    }
  }

  /** Every quote of the chapter gets the label of some chunk: the "no label" branch is never taken. */
  lemma EveryQuoteHasALabel(chapter: Chapter, part: seq<Step>, i: nat)
    requires LabelsChunks(part) && Chunker.AllSpans(ChunksOf(part)) == Chunker.SpansOf(chapter.paragraphs)
    requires i < |Ordered(chapter.paragraphs)| && Ordered(chapter.paragraphs)[i].span.kind == Quote
    ensures
      var given := Given(AllLabels(AnalysesOf(part)), Ordered(chapter.paragraphs)[i].span.id);
      given.Some? && given.value in AllLabels(AnalysesOf(part))
  {
    var spans := Chunker.SpansOf(chapter.paragraphs);
    OrderedIsAllSpans(chapter.paragraphs);
    QuoteIdsMembers(spans);
    assert spans[i] == Ordered(chapter.paragraphs)[i].span;
    LabelsOfAllChunks(part, spans[i].id);
    LabelledIsFound(AllLabels(AnalysesOf(part)), spans[i].id);
  }

  // ----------------------------------------------------------------- every speaker is in the bible

  lemma {:induction false} SpeakerIsListed(labels: seq<Label>, l: nat) returns (k: nat)
    requires l < |labels| && labels[l].speaker != NARRATOR
    ensures k < |SpeakersOf(labels)| && SpeakersOf(labels)[k] == labels[l].speaker
  {
    var n := |labels| - 1;
    if l < n {
      k := SpeakerIsListed(labels[..n], l);
    } else {
      k := |SpeakersOf(labels[..n])|;
    }
  }

  lemma ValidLabelResolves(steps: seq<Step>, n: nat, l: nat)
    requires ValidSpeakers(steps) && n < |steps| && l < |steps[n].analysis.labels|
    ensures CastRun.ResolveSpeaker(steps[n].analysis.labels[l].speaker, CastRun.FinalCast(CastChunks(steps))) != CastRun.NotInBible
  {
    var cs, before := CastChunks(steps), BibleAfter(steps[..n]);
    var one := steps[n].analysis.labels[l];
    assert cs[..n] == CastChunks(steps[..n]);
    if one.speaker == NARRATOR {
      CastRun.NarratorIsNarrator();
    } else {
      assert ValidSpeaker(one, before, steps[n].analysis);
      var raw: string :| one.speaker == CastRun.CanonicalSpeaker(raw, before, steps[n].analysis.characters)
        && CastRun.Settled(raw, before, steps[n].analysis.characters);
      var k := SpeakerIsListed(steps[n].analysis.labels, l);
      CastRun.ValidatedSpeakersAreFound(cs, n, k, raw);
    }
  }

  lemma {:induction false} LabelComesFromAChunk(analyses: seq<Analysis>, one: Label) returns (c: nat, l: nat)
    requires one in AllLabels(analyses)
    ensures c < |analyses| && l < |analyses[c].labels| && analyses[c].labels[l] == one
  {
    var n := |analyses| - 1;
    if one in analyses[n].labels {
      c := n;
      l :| 0 <= l < |analyses[n].labels| && analyses[n].labels[l] == one;
    } else {
      c, l := LabelComesFromAChunk(analyses[..n], one);
    }
  }

  lemma LabelComesFromAStep(steps: seq<Step>, from: nat, to: nat, one: Label) returns (n: nat, l: nat)
    requires from <= to <= |steps| && one in AllLabels(AnalysesOf(steps[from..to]))
    ensures n < |steps| && l < |steps[n].analysis.labels| && steps[n].analysis.labels[l] == one
  {
    var part := steps[from..to];
    n, l := LabelComesFromAChunk(AnalysesOf(part), one);
    assert part[n] == steps[from + n];
    n := from + n;
  }

  lemma {:induction false} NoWarningsWhenAllResolve(ps: seq<Placed>, labels: seq<Label>, cast: Bible.Cast)
    requires forall i | 0 <= i < |ps| && ps[i].span.kind == Quote :: Speaker(Given(labels, ps[i].span.id), ps[i].span, cast).1.None?
    ensures SegmentWarnings(ps, labels, cast) == []
  {
    if ps != [] {
      NoWarningsWhenAllResolve(ps[..|ps| - 1], labels, cast);
    }
  }

  lemma ChapterLabelResolves(steps: seq<Step>, from: nat, to: nat, one: Label)
    requires from <= to <= |steps| && ValidSpeakers(steps) && one in AllLabels(AnalysesOf(steps[from..to]))
    ensures CastRun.ResolveSpeaker(one.speaker, CastRun.FinalCast(CastChunks(steps))) != CastRun.NotInBible
  {
    var n, l := LabelComesFromAStep(steps, from, to, one);
    ValidLabelResolves(steps, n, l);
  }

  lemma PartIsLabelled(steps: seq<Step>, inputs: Inputs, from: nat, to: nat)
    requires from <= to <= |steps| && RunOk(steps, inputs)
    ensures LabelsChunks(steps[from..to])
  {
    ValidatedChunksAreLabelled(steps, inputs);
    assert forall n | 0 <= n < |steps[from..to]| :: steps[from..to][n] == steps[from + n];
  }

  lemma NobodyIsMissing(chapter: Chapter, steps: seq<Step>, from: nat, to: nat, i: nat)
    requires from <= to <= |steps| && ValidSpeakers(steps) && LabelsChunks(steps[from..to])
    requires Chunker.AllSpans(ChunksOf(steps[from..to])) == Chunker.SpansOf(chapter.paragraphs)
    requires i < |Ordered(chapter.paragraphs)| && Ordered(chapter.paragraphs)[i].span.kind == Quote
    ensures
      var span := Ordered(chapter.paragraphs)[i].span;
      Speaker(Given(AllLabels(AnalysesOf(steps[from..to])), span.id), span, CastRun.FinalCast(CastChunks(steps))).1.None?
  {
    EveryQuoteHasALabel(chapter, steps[from..to], i);
    var given := Given(AllLabels(AnalysesOf(steps[from..to])), Ordered(chapter.paragraphs)[i].span.id);
    ChapterLabelResolves(steps, from, to, given.value);
  }

  /** A chapter's script never falls back on the narrator: its chunks label every quote, and every validated speaker of
      the book is in the final bible, whatever later chapters did to it. */
  lemma ValidatedChapterHasNoWarnings(chapter: Chapter, steps: seq<Step>, inputs: Inputs, from: nat, to: nat)
    requires from <= to <= |steps| && RunOk(steps, inputs) && AllSettled(steps, inputs)
    requires Chunker.AllSpans(ChunksOf(steps[from..to])) == Chunker.SpansOf(chapter.paragraphs)
    ensures SegmentWarnings(
      Ordered(chapter.paragraphs), AllLabels(AnalysesOf(steps[from..to])), CastRun.FinalCast(CastChunks(steps))) == []
  {
    var cast := CastRun.FinalCast(CastChunks(steps));
    var ps, labels := Ordered(chapter.paragraphs), AllLabels(AnalysesOf(steps[from..to]));
    PartIsLabelled(steps, inputs, from, to);
    ValidatedSpeakersAreValid(steps, inputs);
    forall i | 0 <= i < |ps| && ps[i].span.kind == Quote
      ensures Speaker(Given(labels, ps[i].span.id), ps[i].span, cast).1.None?
    {
      NobodyIsMissing(chapter, steps, from, to, i);
    }
    NoWarningsWhenAllResolve(ps, labels, cast);
  }

  // ----------------------------------------------------------------- what the timeline asks of a script

  /** The effects are numbered from 1. */
  ghost predicate NumberedFromOne(sfx: seq<SfxCue>, idOf: nat -> string) {
    forall k: nat | k < |sfx| :: sfx[k].id == idOf(k + 1)
  }

  lemma NumberedSnoc(sfx: seq<SfxCue>, cue: SfxCue, idOf: nat -> string)
    requires NumberedFromOne(sfx, idOf) && cue.id == idOf(|sfx| + 1)
    ensures NumberedFromOne(sfx + [cue], idOf)
  {
  }

  lemma {:induction false} SfxIdsAreNumbered(cues: seq<SfxCueRaw>, ps: seq<Placed>, indexOf: map<string, nat>, idOf: nat -> string)
    requires NonNegative(cues) && forall id | id in indexOf :: indexOf[id] < |ps|
    ensures NumberedFromOne(PlaceSfx(cues, ps, indexOf, idOf), idOf)
  {
    if cues != [] {
      var front, last := PlaceSfx(cues[..|cues| - 1], ps, indexOf, idOf), cues[|cues| - 1];
      SfxIdsAreNumbered(cues[..|cues| - 1], ps, indexOf, idOf);
      if last.spanId in indexOf {
        NumberedSnoc(front, SfxCueOf(ps, indexOf[last.spanId], last, idOf(|front| + 1)), idOf);
      }
    }
  }

  ghost predicate InjectiveIds(idOf: nat -> string) {
    forall m, n :: idOf(m) == idOf(n) ==> m == n
  }

  /** Segments have the ids of the spans and effects are numbered, so ids are unique where those are. */
  lemma AssembledIdsAreUnique(
    script: Script, chapter: Chapter, labels: seq<Label>, cast: Bible.Cast, cues: seq<SfxCueRaw>,
    indexOf: map<string, nat>, idOf: nat -> string)
    requires SegmentsFollow(script, Ordered(chapter.paragraphs), labels, cast) && IsIndex(indexOf, Ordered(chapter.paragraphs))
    requires NonNegative(cues) && script.sfx == PlaceSfx(cues, Ordered(chapter.paragraphs), indexOf, idOf)
    requires UniqueIds(Chunker.SpansOf(chapter.paragraphs)) && InjectiveIds(idOf)
    ensures TimelineBuild.UniqueScriptIds(script)
  {
    var ps := Ordered(chapter.paragraphs);
    OrderedIsAllSpans(chapter.paragraphs);
    SfxIdsAreNumbered(cues, ps, indexOf, idOf);
    forall i, j | 0 <= i < j < |script.segments|
      ensures script.segments[i].id != script.segments[j].id
    {
      assert SpansIn(ps)[i].id != SpansIn(ps)[j].id;
    }
    forall c, d | 0 <= c < d < |script.sfx|
      ensures script.sfx[c].id != script.sfx[d].id
    {
      assert script.sfx[c].id == idOf(c + 1) && script.sfx[d].id == idOf(d + 1);
    }
  }
}
