/** The analyze stage over a whole book (`stage_analyze`): chunking, one validated analysis after the other with the
    bible, the mood and the speakers threaded through, finalizing, and one script for each chapter. */
module AnalyzeBook {
  import opened Assemble
  import opened AnalyzeStage
  import opened Book
  import opened Common
  import opened Paragraphs
  import opened Validate
  import Bible
  import CastRun
  import Chunker
  import Finalize
  import IngestIds
  import Music
  import TimelineBuild

  datatype Failure = ChunkLimitBelowOne | AnalyzerFailed | Rejected(why: Invalid)

  // ----------------------------------------------------------------- one chunk

  /** `_analyze_chunk`.  A cached analysis is one that was validated under the same chunk and bible. */
  method AnalyzeChunk(n: nat, chunk: Chunk, cast: Bible.Cast, inputs: Inputs) returns (r: Result<Analysis, Failure>)
    ensures
      match inputs.reply(n, chunk, cast)
      case None => r == Err(AnalyzerFailed)
      case Some(reply) =>
        match Repaired(reply, chunk, cast, inputs.heuristic(chunk, cast))
        case Ok(analysis) => r == Ok(analysis)
        case Err(why) => r == Err(Rejected(why))
  {
    var reply := inputs.reply(n, chunk, cast);
    if reply.None? {
      return Err(AnalyzerFailed);
    }
    var repaired := ValidateChunk(reply.value, chunk, cast, inputs.heuristic(chunk, cast));
    match repaired
    case Ok(analysis) => r := Ok(analysis);
    case Err(why) => r := Err(Rejected(why));
  }

  /** The bible after the chunk: its updates, then one line for each label of a quote that is not the narrator's. */
  method CountChunk(cast: Bible.Cast, chunk: Chunk, analysis: Analysis, chapter: int) returns (out: Bible.Cast)
    requires forall id | id in LabelIds(analysis.labels) :: id in QuoteIds(chunk.spans)
    ensures out == CastRun.AfterChunk(cast, CastChunk(Step(chunk, analysis, chapter)))
  {
    out := Bible.ApplyUpdates(cast, analysis.characters, chapter);
    ghost var start := out;
    var labels := analysis.labels;
    for l := 0 to |labels|
      invariant out == CastRun.RegisterAll(start, SpeakersOf(labels[..l]), chapter)
    {
      SpeakersOfStep(labels, l);
      assert LabelIds(labels)[l] == labels[l].spanId;
      if labels[l].spanId in QuoteIds(chunk.spans) && labels[l].speaker != NARRATOR {
        RegisterSnoc(start, SpeakersOf(labels[..l]), labels[l].speaker, chapter);
        var canonical;
        out, canonical := Bible.RegisterSpeaker(out, labels[l].speaker, chapter);
      }
    }
    assert labels[..|labels|] == labels;
  }

  lemma RegisterSnoc(cast: Bible.Cast, speakers: seq<string>, name: string, chapter: int)
    ensures CastRun.RegisterAll(cast, speakers + [name], chapter) ==
      Bible.Registered(CastRun.RegisterAll(cast, speakers, chapter), name, chapter)
  {
    assert (speakers + [name])[..|speakers|] == speakers;
  }

  lemma SpeakersOfStep(labels: seq<Label>, l: nat)
    requires l < |labels|
    ensures SpeakersOf(labels[..l + 1]) ==
      if labels[l].speaker == NARRATOR then SpeakersOf(labels[..l]) else SpeakersOf(labels[..l]) + [labels[l].speaker]
  {
    assert labels[..l + 1][..l] == labels[..l];
  }

  // ----------------------------------------------------------------- one chapter

  /** The steps of a chapter: its chunks, with the speakers of the chunks before. */
  ghost predicate Threaded(part: seq<Step>, chunks: seq<Chunk>, chapter: int) {
    && |part| == |chunks|
    && forall k | 0 <= k < |part| :: IsThreaded(part, chunks, chapter, k)
  }

  ghost predicate IsThreaded(part: seq<Step>, chunks: seq<Chunk>, chapter: int, k: nat)
    requires k < |part| && k < |chunks|
  {
    && part[k].chapter == chapter
    && part[k].chunk == chunks[k].(priorMood := part[k].chunk.priorMood, priorSpeakers := SpeakersAfter(part[..k]))
  }

  lemma OneMoreThreaded(part: seq<Step>, chunks: seq<Chunk>, chapter: int, step: Step)
    requires |part| < |chunks| && Threaded(part, chunks[..|part|], chapter)
    requires step.chapter == chapter
    requires step.chunk == chunks[|part|].(priorMood := step.chunk.priorMood, priorSpeakers := SpeakersAfter(part))
    ensures Threaded(part + [step], chunks[..|part| + 1], chapter)
  {
    var more, upTo := part + [step], chunks[..|part| + 1];
    assert more[..|part|] == part;
    forall k: nat | k < |more|
      ensures IsThreaded(more, upTo, chapter, k)
    {
      if k < |part| {
        assert IsThreaded(part, chunks[..|part|], chapter, k);
        assert more[..k] == part[..k];
      }
    }
  }

  lemma ThreadedSpans(part: seq<Step>, chunks: seq<Chunk>, chapter: int)
    requires Threaded(part, chunks, chapter)
    ensures Chunker.AllSpans(ChunksOf(part)) == Chunker.AllSpans(chunks)
  {
    forall k | 0 <= k < |part|
      ensures part[k].chunk.spans == chunks[k].spans
    {
      assert IsThreaded(part, chunks, chapter, k);
    }
    assert Chunker.ChunkSpans(ChunksOf(part)) == Chunker.ChunkSpans(chunks);
  }

  /** Where the run stands: the bible and the mood, and how many chunks were analyzed. */
  datatype State = State(cast: Bible.Cast, mood: string, done: nat)

  ghost predicate Reached(state: State, steps: seq<Step>, inputs: Inputs) {
    RunOk(steps, inputs) && state == State(BibleAfter(steps), CarriedMood(steps), |steps|)
  }

  lemma OneMoreReached(state: State, steps: seq<Step>, step: Step, inputs: Inputs, reply: Analysis)
    requires Reached(state, steps, inputs) && step.chunk.priorMood == state.mood
    requires inputs.reply(state.done, step.chunk, state.cast) == Some(reply)
    requires Repaired(reply, step.chunk, state.cast, inputs.heuristic(step.chunk, state.cast)) == Ok(step.analysis)
    ensures Reached(
      State(CastRun.AfterChunk(state.cast, CastChunk(step)), Music.MoodLeft(step.analysis.music, state.mood), state.done + 1),
      steps + [step], inputs)
  {
    var more := steps + [step];
    assert more[..|steps|] == steps;
    assert StepOk(more, |steps|, inputs);
    OneMoreStep(steps, step, inputs);
    BibleStep(steps, step);
    MoodStep(steps, step);
  }

  /** One turn of the inner loop. */
  method RunChunk(
    chunk: Chunk, chapter: int, state: State, speakers: seq<string>, inputs: Inputs, ghost steps: seq<Step>)
    returns (r: Result<(State, seq<string>, Step), Failure>)
    requires Reached(state, steps, inputs)
    ensures r.Ok? ==>
      var (after, heard, step) := r.value;
      && Reached(after, steps + [step], inputs) && step.chapter == chapter
      && step.chunk == chunk.(priorMood := state.mood, priorSpeakers := speakers)
      && heard == Chunker.RememberAll(speakers, Chunker.Heard(step.chunk.spans, step.analysis.labels))
  {
    var prepared := chunk.(priorMood := state.mood, priorSpeakers := speakers);
    var outcome := AnalyzeChunk(state.done, prepared, state.cast, inputs);
    if outcome.Err? {
      return Err(outcome.error);
    }
    var analysis := outcome.value;
    var step := Step(prepared, analysis, chapter);
    ghost var reply := inputs.reply(state.done, prepared, state.cast).value;
    OneMoreReached(state, steps, step, inputs, reply);
    var cast := CountChunk(state.cast, prepared, analysis, chapter);
    var mood := Music.LastMood(analysis.music, state.mood);
    var heard := Chunker.CarrySpeakers(speakers, prepared, analysis.labels);
    r := Ok((State(cast, mood, state.done + 1), heard, step));
  }

  /** The inner loop of `stage_analyze`. */
  method RunChapter(chapter: int, chunks: seq<Chunk>, start: State, inputs: Inputs, ghost before: seq<Step>)
    returns (r: Result<(State, seq<Step>), Failure>)
    requires Reached(start, before, inputs)
    ensures r.Ok? ==> Reached(r.value.0, before + r.value.1, inputs) && Threaded(r.value.1, chunks, chapter)
  {
    var state, speakers, part: seq<Step> := start, [], [];
    AppendNothing(before);
    for c := 0 to |chunks|
      invariant |part| == c && Reached(state, before + part, inputs) && Threaded(part, chunks[..c], chapter)
      invariant speakers == SpeakersAfter(part)
    {
      var turn := RunChunk(chunks[c], chapter, state, speakers, inputs, before + part);
      if turn.Err? {
        return Err(turn.error);
      }
      var step := turn.value.2;
      ConcatAssoc(before, part, [step]);
      SpeakersStep(part, step);
      OneMoreThreaded(part, chunks, chapter, step);
      state, speakers, part := turn.value.0, turn.value.1, part + [step];
    }
    assert chunks[..|chunks|] == chunks;
    r := Ok((state, part));
  }

  // ----------------------------------------------------------------- the whole book

  /** Chapter `i` owns the steps from `starts[i]` up to `starts[i + 1]`. */
  ghost predicate Divides(starts: seq<nat>, steps: seq<Step>, chapters: nat) {
    && |starts| == chapters + 1 && starts[0] == 0 && starts[chapters] == |steps|
    && forall i, j | 0 <= i <= j <= chapters :: starts[i] <= starts[j]
  }

  function PartOf(steps: seq<Step>, starts: seq<nat>, i: nat): seq<Step>
    requires i + 1 < |starts| && starts[i] <= starts[i + 1] <= |steps|
  {
    steps[starts[i]..starts[i + 1]]
  }

  /** The chapter's chunks were analyzed, all of its spans, in order. */
  ghost predicate ChapterRun(chapter: Chapter, part: seq<Step>, maxChars: int) {
    && Chunker.AllSpans(ChunksOf(part)) == Chunker.SpansOf(chapter.paragraphs)
    && exists chunks, groups :: Packs(chapter, chunks, groups, maxChars) && Threaded(part, chunks, chapter.index)
  }

  /** The chunks are those of a packing of the chapter's paragraphs. */
  ghost predicate Packs(chapter: Chapter, chunks: seq<Chunk>, groups: seq<Chunker.Group>, maxChars: int) {
    && Chunker.ValidPacking(groups, chapter.paragraphs, maxChars) && |chunks| == |groups|
    && forall k | 0 <= k < |groups| :: Chunker.IsChunk(chapter, groups, k, chunks[k])
  }

  ghost predicate ChaptersRun(book: seq<Chapter>, steps: seq<Step>, starts: seq<nat>, maxChars: int) {
    && Divides(starts, steps, |book|)
    && forall i | 0 <= i < |book| :: ChapterRun(book[i], PartOf(steps, starts, i), maxChars)
  }

  lemma OneMoreChapter(book: seq<Chapter>, n: nat, steps: seq<Step>, starts: seq<nat>, part: seq<Step>, maxChars: int)
    requires n < |book| && ChaptersRun(book[..n], steps, starts, maxChars) && ChapterRun(book[n], part, maxChars)
    ensures ChaptersRun(book[..n + 1], steps + part, starts + [|steps| + |part|], maxChars)
  {
    var all, bounds := steps + part, starts + [|steps| + |part|];
    forall i | 0 <= i < n + 1
      ensures ChapterRun(book[..n + 1][i], PartOf(all, bounds, i), maxChars)
    {
      if i < n {
        assert ChapterRun(book[..n][i], PartOf(steps, starts, i), maxChars);
        assert PartOf(all, bounds, i) == PartOf(steps, starts, i);
      } else {
        assert PartOf(all, bounds, i) == part;
      }
    }
  }

  /** A chapter's chunking and inner loop. */
  method ChunkAndRun(chapter: Chapter, maxChars: int, start: State, inputs: Inputs, ghost before: seq<Step>)
    returns (r: Result<(State, seq<Step>), Failure>)
    requires Reached(start, before, inputs)
    ensures maxChars < 1 ==> r == Err(ChunkLimitBelowOne)
    ensures r.Ok? ==> Reached(r.value.0, before + r.value.1, inputs) && ChapterRun(chapter, r.value.1, maxChars)
  {
    var made, groups := Chunker.MakeChunks(chapter, maxChars);
    if made.BadLimit? {
      return Err(ChunkLimitBelowOne);
    }
    r := RunChapter(chapter.index, made.chunks, start, inputs, before);
    if r.Ok? {
      ThreadedSpans(r.value.1, made.chunks, chapter.index);
      assert Packs(chapter, made.chunks, groups, maxChars);
    }
  }

  /** The outer loop: the parts of the run chapter by chapter, the moods they start in, and the state at the end. */
  method RunBook(book: seq<Chapter>, maxChars: int, inputs: Inputs)
    returns (r: Result<(Bible.Cast, seq<seq<Analysis>>, seq<string>), Failure>, ghost steps: seq<Step>, ghost starts: seq<nat>)
    ensures book != [] && maxChars < 1 ==> r == Err(ChunkLimitBelowOne)
    ensures r.Ok? ==>
      var (cast, analyses, moods) := r.value;
      && RunOk(steps, inputs) && ChaptersRun(book, steps, starts, maxChars) && cast == BibleAfter(steps)
      && Collected(analyses, moods, steps, starts, |book|)
  {
    var state := State([], Music.NO_MOOD, 0);
    var analyses, moods := [], [];
    steps, starts := [], [0];
    assert book[..0] == [];
    for i := 0 to |book|
      invariant i > 0 ==> maxChars >= 1
      invariant Reached(state, steps, inputs) && ChaptersRun(book[..i], steps, starts, maxChars)
      invariant Collected(analyses, moods, steps, starts, i)
    {
      var run := ChunkAndRun(book[i], maxChars, state, inputs, steps);
      if run.Err? {
        return Err(run.error), steps, starts;
      }
      var part := run.value.1;
      OneMoreChapter(book, i, steps, starts, part, maxChars);
      OneMoreCollected(analyses, moods, steps, starts, i, part);
      moods := moods + [state.mood];
      analyses := analyses + [AnalysesOf(part)];
      starts := starts + [|steps| + |part|];
      steps := steps + part;
      state := run.value.0;
    }
    assert book[..|book|] == book;
    r := Ok((state.cast, analyses, moods));
  }

  /** The analyses of the first `n` chapters and the moods they start in. */
  ghost predicate Collected(
    analyses: seq<seq<Analysis>>, moods: seq<string>, steps: seq<Step>, starts: seq<nat>, n: nat)
  {
    && |analyses| == |moods| == n && Divides(starts, steps, n)
    && forall k | 0 <= k < n ::
      analyses[k] == AnalysesOf(PartOf(steps, starts, k)) && moods[k] == CarriedMood(steps[..starts[k]])
  }

  lemma OneMoreCollected(
    analyses: seq<seq<Analysis>>, moods: seq<string>, steps: seq<Step>, starts: seq<nat>, n: nat, part: seq<Step>)
    requires Collected(analyses, moods, steps, starts, n)
    ensures Collected(
      analyses + [AnalysesOf(part)], moods + [CarriedMood(steps)], steps + part, starts + [|steps| + |part|], n + 1)
  {
    PartsStay(steps, starts, part, n);
  }

  lemma PartsStay(steps: seq<Step>, starts: seq<nat>, part: seq<Step>, n: nat)
    requires Divides(starts, steps, n)
    ensures
      var all, bounds := steps + part, starts + [|steps| + |part|];
      && Divides(bounds, all, n + 1)
      && (forall k | 0 <= k < n :: PartOf(all, bounds, k) == PartOf(steps, starts, k))
      && (forall k | 0 <= k <= n :: all[..bounds[k]] == steps[..starts[k]])
      && PartOf(all, bounds, n) == part && all[..bounds[n]] == steps
  {
  }

  // ----------------------------------------------------------------- scripts

  /** A script together with its segment warnings. */
  datatype Assembled = Assembled(script: Script, warnings: seq<Warning>)

  /** Effects and music of a script, read off the chapter's analyses and the mood it starts in. */
  ghost predicate Resolves(
    script: Script, chapter: Chapter, analyses: seq<Analysis>, mood: string, formats: Formats,
    indexOf: map<string, nat>, regions: seq<Music.Region>)
  {
    var ps := Ordered(chapter.paragraphs);
    && IsIndex(indexOf, ps) && NonNegative(AllSfx(analyses))
    && script.sfx == PlaceSfx(AllSfx(analyses), ps, indexOf, formats.sfxId)
    && MusicFollows(script, ps, regions, formats)
    && RegionsResolve(regions, Music.Placed(AllMusic(analyses), indexOf, 0), |ps|, mood, formats.prompts)
  }

  /** What the stage writes for a chapter. */
  ghost predicate IsAssembled(
    out: Assembled, chapter: Chapter, analyses: seq<Analysis>, cast: Bible.Cast, mood: string, formats: Formats)
  {
    var ps := Ordered(chapter.paragraphs);
    && SegmentsFollow(out.script, ps, AllLabels(analyses), cast)
    && out.warnings == SegmentWarnings(ps, AllLabels(analyses), cast)
    && exists indexOf, regions :: Resolves(out.script, chapter, analyses, mood, formats, indexOf, regions)
  }

  lemma {:induction false} ValidatedSfxAreNonNegative(part: seq<Step>)
    requires forall n | 0 <= n < |part| :: CuesInRange(part[n].analysis)
    ensures NonNegative(AllSfx(AnalysesOf(part)))
  {
    if part != [] {
      var n := |part| - 1;
      ValidatedSfxAreNonNegative(part[..n]);
      assert AnalysesOf(part)[..n] == AnalysesOf(part[..n]);
      assert CuesInRange(part[n].analysis);
    }
  }

  lemma PartSfxAreNonNegative(steps: seq<Step>, inputs: Inputs, from: nat, to: nat)
    requires from <= to <= |steps| && RunOk(steps, inputs)
    ensures NonNegative(AllSfx(AnalysesOf(steps[from..to])))
  {
    var part := steps[from..to];
    forall n | 0 <= n < |part|
      ensures CuesInRange(part[n].analysis)
    {
      assert part[n] == steps[from + n] && StepOk(steps, from + n, inputs);
    }
    ValidatedSfxAreNonNegative(part);
  }

  /** Assembling one chapter. */
  method AssembleChapter(chapter: Chapter, analyses: seq<Analysis>, cast: Bible.Cast, mood: string, formats: Formats)
    returns (out: Assembled)
    requires NonNegative(AllSfx(analyses))
    ensures IsAssembled(out, chapter, analyses, cast, mood, formats)
  {
    var script, warnings, indexOf, regions := AssembleScript(chapter, analyses, cast, mood, formats);
    out := Assembled(script, warnings);
    assert Resolves(script, chapter, analyses, mood, formats, indexOf, regions);
  }

  /** The second loop of `stage_analyze`. */
  method AssembleAll(
    book: seq<Chapter>, analyses: seq<seq<Analysis>>, cast: Bible.Cast, moods: seq<string>, formats: Formats)
    returns (scripts: seq<Assembled>)
    requires |analyses| == |moods| == |book| && forall i | 0 <= i < |book| :: NonNegative(AllSfx(analyses[i]))
    ensures |scripts| == |book|
    ensures forall i | 0 <= i < |book| :: IsAssembled(scripts[i], book[i], analyses[i], cast, moods[i], formats)
  {
    scripts := [];
    for i := 0 to |book|
      invariant |scripts| == i
      invariant forall k | 0 <= k < i :: IsAssembled(scripts[k], book[k], analyses[k], cast, moods[k], formats)
    {
      var out := AssembleChapter(book[i], analyses[i], cast, moods[i], formats);
      scripts := scripts + [out];
    }
  }

  /** Everything that a finished stage leaves, in terms of its run. */
  ghost predicate StageDone(
    book: seq<Chapter>, maxChars: int, inputs: Inputs, formats: Formats, cast: Bible.Cast, scripts: seq<Assembled>,
    steps: seq<Step>, starts: seq<nat>)
  {
    && RunOk(steps, inputs) && ChaptersRun(book, steps, starts, maxChars)
    && cast == CastRun.FinalCast(CastChunks(steps)) && |scripts| == |book|
    && forall i | 0 <= i < |book| ::
      IsAssembled(
        scripts[i], book[i], AnalysesOf(PartOf(steps, starts, i)), cast, CarriedMood(steps[..starts[i]]), formats)
  }

  /** `stage_analyze`: it fails with the first chunk that fails, or writes the bible and one script for each chapter. */
  method StageAnalyze(book: seq<Chapter>, maxChars: int, inputs: Inputs, formats: Formats)
    returns (r: Result<(Bible.Cast, seq<Assembled>), Failure>, ghost steps: seq<Step>, ghost starts: seq<nat>)
    ensures book != [] && maxChars < 1 ==> r == Err(ChunkLimitBelowOne)
    ensures r.Ok? ==> StageDone(book, maxChars, inputs, formats, r.value.0, r.value.1, steps, starts)
  {
    var run;
    run, steps, starts := RunBook(book, maxChars, inputs);
    if run.Err? {
      return Err(run.error), steps, starts;
    }
    var cast := Finalize.FinalizeBible(run.value.0);
    forall i | 0 <= i < |book|
      ensures NonNegative(AllSfx(run.value.1[i]))
    {
      PartSfxAreNonNegative(steps, inputs, starts[i], starts[i + 1]);
    }
    var scripts := AssembleAll(book, run.value.1, cast, run.value.2, formats);
    r := Ok((cast, scripts));
  }

  // ----------------------------------------------------------------- what holds of every finished stage

  /** No script of a finished stage lets the narrator speak for want of a label or of a bible entry, unless an unknown
      speaker was one of the four descriptors. */
  lemma StageNeverWarns(
    book: seq<Chapter>, maxChars: int, inputs: Inputs, formats: Formats, cast: Bible.Cast, scripts: seq<Assembled>,
    steps: seq<Step>, starts: seq<nat>, i: nat)
    requires StageDone(book, maxChars, inputs, formats, cast, scripts, steps, starts) && i < |book|
    requires AllSettled(steps, inputs)
    ensures scripts[i].warnings == []
  {
    assert ChapterRun(book[i], PartOf(steps, starts, i), maxChars);
    ValidatedChapterHasNoWarnings(book[i], steps, inputs, starts[i], starts[i + 1]);
  }

  /** The labels of all chunks that are not the narrator's. */
  function SpokenLines(steps: seq<Step>): nat {
    if steps == [] then 0
    else SpokenLines(steps[..|steps| - 1]) + CastRun.SpokenIn(SpeakersOf(steps[|steps| - 1].analysis.labels))
  }

  lemma {:induction false} SpokenLinesAreSpoken(steps: seq<Step>)
    ensures CastRun.SpokenInAll(CastChunks(steps)) == SpokenLines(steps)
  {
    if steps != [] {
      var n := |steps| - 1;
      SpokenLinesAreSpoken(steps[..n]);
      assert CastChunks(steps)[..n] == CastChunks(steps[..n]);
    }
  }

  /** The line counts of the bible add up to the spoken labels of the book. */
  lemma StageCountsEveryLine(
    book: seq<Chapter>, maxChars: int, inputs: Inputs, formats: Formats, cast: Bible.Cast, scripts: seq<Assembled>,
    steps: seq<Step>, starts: seq<nat>)
    requires StageDone(book, maxChars, inputs, formats, cast, scripts, steps, starts)
    ensures Bible.Lines(cast) == SpokenLines(steps)
  {
    CastRun.NoLineIsLost(CastChunks(steps));
    SpokenLinesAreSpoken(steps);
  }

  // ----------------------------------------------------------------- moods from chapter to chapter

  lemma {:induction false} AllMusicConcat(a: seq<Analysis>, b: seq<Analysis>)
    ensures AllMusic(a + b) == AllMusic(a) + AllMusic(b)
    decreases |b|
  {
    if b == [] {
      assert a + b == a;
    } else {
      var n := |b| - 1;
      AllMusicConcat(a, b[..n]);
      assert (a + b)[..|a| + n] == a + b[..n];
      ConcatAssoc(AllMusic(a), AllMusic(b[..n]), b[n].music);
    }
  }

  /** The mood a chapter hands on is the mood its cues leave, from the mood it started in. */
  lemma MoodIsHandedOn(steps: seq<Step>, from: nat, to: nat)
    requires from <= to <= |steps|
    ensures CarriedMood(steps[..to]) ==
      Music.MoodLeft(AllMusic(AnalysesOf(steps[from..to])), CarriedMood(steps[..from]))
  {
    assert AnalysesOf(steps[..to]) == AnalysesOf(steps[..from]) + AnalysesOf(steps[from..to]);
    AllMusicConcat(AnalysesOf(steps[..from]), AnalysesOf(steps[from..to]));
    Music.MoodLeftConcat(
      AllMusic(AnalysesOf(steps[..from])), AllMusic(AnalysesOf(steps[from..to])), Music.NO_MOOD);
  }

  /** The music cues are listed in such an order that none is placed after the last one. */
  ghost predicate LastCueIsLatest(cues: seq<MusicCueRaw>, indexOf: map<string, nat>) {
    forall k | 0 <= k < |cues| && cues[k].spanId in indexOf && cues[|cues| - 1].spanId in indexOf ::
      indexOf[cues[k].spanId] <= indexOf[cues[|cues| - 1].spanId]
  }

  lemma {:induction false} CuesHaveASpan(part: seq<Step>, k: nat)
    requires forall n | 0 <= n < |part| :: CuesInside(part[n].analysis, part[n].chunk.spans)
    requires k < |AllMusic(AnalysesOf(part))|
    ensures AllMusic(AnalysesOf(part))[k].spanId in SpanIds(Chunker.AllSpans(ChunksOf(part)))
  {
    var n := |part| - 1;
    var front, own := Chunker.AllSpans(ChunksOf(part[..n])), part[n].chunk.spans;
    assert AnalysesOf(part)[..n] == AnalysesOf(part[..n]) && ChunksOf(part)[..n] == ChunksOf(part[..n]);
    AllSpansStep(ChunksOf(part));
    assert SpanIds(front + own) == SpanIds(front) + SpanIds(own);
    var earlier := AllMusic(AnalysesOf(part[..n]));
    if k < |earlier| {
      CuesHaveASpan(part[..n], k);
    } else {
      assert CuesInside(part[n].analysis, own);
      assert InChunk(part[n].analysis.music[k - |earlier|].spanId, own);
    }
  }

  lemma PartCuesAreInside(steps: seq<Step>, inputs: Inputs, from: nat, to: nat)
    requires from <= to <= |steps| && RunOk(steps, inputs)
    ensures forall n | 0 <= n < |steps[from..to]| ::
      CuesInside(steps[from..to][n].analysis, steps[from..to][n].chunk.spans)
  {
    var part := steps[from..to];
    forall n | 0 <= n < |part|
      ensures CuesInside(part[n].analysis, part[n].chunk.spans)
    {
      assert part[n] == steps[from + n] && StepOk(steps, from + n, inputs);
    }
  }

  /** Every music cue of a chapter has a place in it. */
  lemma CuesArePlaced(chapter: Chapter, steps: seq<Step>, inputs: Inputs, from: nat, to: nat, indexOf: map<string, nat>, k: nat)
    requires from <= to <= |steps| && RunOk(steps, inputs)
    requires Chunker.AllSpans(ChunksOf(steps[from..to])) == Chunker.SpansOf(chapter.paragraphs)
    requires IsIndex(indexOf, Ordered(chapter.paragraphs)) && k < |AllMusic(AnalysesOf(steps[from..to]))|
    ensures AllMusic(AnalysesOf(steps[from..to]))[k].spanId in indexOf
  {
    var spans, id := Chunker.SpansOf(chapter.paragraphs), AllMusic(AnalysesOf(steps[from..to]))[k].spanId;
    PartCuesAreInside(steps, inputs, from, to);
    CuesHaveASpan(steps[from..to], k);
    OrderedIsAllSpans(chapter.paragraphs);
    var i :| 0 <= i < |spans| && SpanIds(spans)[i] == id;
    assert Ordered(chapter.paragraphs)[i].span == spans[i];
  }

  lemma ChapterHandsOnFinalMood(
    chapter: Chapter, steps: seq<Step>, inputs: Inputs, prompts: Music.Prompts, from: nat, to: nat,
    indexOf: map<string, nat>, last: nat)
    requires from <= to <= |steps| && RunOk(steps, inputs)
    requires Chunker.AllSpans(ChunksOf(steps[from..to])) == Chunker.SpansOf(chapter.paragraphs)
    requires IsIndex(indexOf, Ordered(chapter.paragraphs)) && |Ordered(chapter.paragraphs)| == last + 1
    requires LastCueIsLatest(AllMusic(AnalysesOf(steps[from..to])), indexOf)
    ensures
      CarriedMood(steps[..to]) ==
        Music.FinalMood(
          Music.Placed(AllMusic(AnalysesOf(steps[from..to])), indexOf, 0), CarriedMood(steps[..from]), prompts, last)
  {
    var cues := AllMusic(AnalysesOf(steps[from..to]));
    MoodIsHandedOn(steps, from, to);
    forall k | 0 <= k < |cues|
      ensures cues[k].spanId in indexOf
    {
      CuesArePlaced(chapter, steps, inputs, from, to, indexOf, k);
    }
    Music.OrderedCuesCarryTheFinalMood(cues, indexOf, CarriedMood(steps[..from]), prompts, last);
  }

  /** A chapter opens in the mood in which the chapter before it ended, if that chapter's cues were listed in order. */
  lemma ChapterOpensInFinalMood(
    book: seq<Chapter>, maxChars: int, inputs: Inputs, formats: Formats, cast: Bible.Cast, scripts: seq<Assembled>,
    steps: seq<Step>, starts: seq<nat>, i: nat, indexOf: map<string, nat>, last: nat)
    requires StageDone(book, maxChars, inputs, formats, cast, scripts, steps, starts) && i < |book|
    requires IsIndex(indexOf, Ordered(book[i].paragraphs)) && |Ordered(book[i].paragraphs)| == last + 1
    requires LastCueIsLatest(AllMusic(AnalysesOf(PartOf(steps, starts, i))), indexOf)
    ensures
      var cues, opening := AllMusic(AnalysesOf(PartOf(steps, starts, i))), CarriedMood(steps[..starts[i]]);
      CarriedMood(steps[..starts[i + 1]]) ==
        Music.FinalMood(Music.Placed(cues, indexOf, 0), opening, formats.prompts, last)
  {
    assert ChapterRun(book[i], PartOf(steps, starts, i), maxChars);
    ChapterHandsOnFinalMood(book[i], steps, inputs, formats.prompts, starts[i], starts[i + 1], indexOf, last);
  }

  // ----------------------------------------------------------------- books as ingest makes them

  lemma IngestedChunksAreLabelled(
    chapter: Chapter, number: nat, steps: seq<Step>, inputs: Inputs, from: nat, to: nat, n: nat)
    requires from <= to <= |steps| && RunOk(steps, inputs) && n < to - from
    requires Chunker.AllSpans(ChunksOf(steps[from..to])) == Chunker.SpansOf(chapter.paragraphs)
    requires IngestIds.Ingested(chapter.paragraphs, number)
    ensures WellLabelled(steps[from + n])
  {
    var part := steps[from..to];
    assert part[n] == steps[from + n] && StepOk(steps, from + n, inputs);
    IngestIds.ChunksAreWellFormed(chapter, number, ChunksOf(part), n);
  }

  lemma IngestedIdsAreUnique(
    out: Assembled, chapter: Chapter, number: nat, analyses: seq<Analysis>, cast: Bible.Cast, mood: string, formats: Formats)
    requires IsAssembled(out, chapter, analyses, cast, mood, formats)
    requires IngestIds.Ingested(chapter.paragraphs, number) && InjectiveIds(formats.sfxId)
    ensures TimelineBuild.UniqueScriptIds(out.script)
  {
    var indexOf, regions :| Resolves(out.script, chapter, analyses, mood, formats, indexOf, regions);
    IngestIds.ParagraphsAreNumbered(chapter.paragraphs, number);
    AssembledIdsAreUnique(
      out.script, chapter, AllLabels(analyses), cast, AllSfx(analyses), indexOf, formats.sfxId);
  }

  /** Every chunk that is analyzed has unique ids and no returning paragraph, so its labels name its quotes in order; and
      segment and effect ids of every script are unique. */
  lemma IngestedBookIsWellFormed(
    book: seq<Chapter>, maxChars: int, inputs: Inputs, formats: Formats, cast: Bible.Cast, scripts: seq<Assembled>,
    steps: seq<Step>, starts: seq<nat>, i: nat, number: nat)
    requires StageDone(book, maxChars, inputs, formats, cast, scripts, steps, starts) && i < |book|
    requires IngestIds.Ingested(book[i].paragraphs, number) && InjectiveIds(formats.sfxId)
    ensures TimelineBuild.UniqueScriptIds(scripts[i].script)
    ensures forall n: nat | starts[i] <= n < starts[i + 1] :: WellLabelled(steps[n])
  {
    assert TimelineBuild.UniqueScriptIds(scripts[i].script) by {
      IngestedIdsAreUnique(
        scripts[i], book[i], number, AnalysesOf(PartOf(steps, starts, i)), cast, CarriedMood(steps[..starts[i]]), formats);
    }
    IngestedStepsAreLabelled(book, maxChars, inputs, steps, starts, i, number);
  }

  lemma IngestedStepsAreLabelled(
    book: seq<Chapter>, maxChars: int, inputs: Inputs, steps: seq<Step>, starts: seq<nat>, i: nat, number: nat)
    requires RunOk(steps, inputs) && ChaptersRun(book, steps, starts, maxChars) && i < |book|
    requires IngestIds.Ingested(book[i].paragraphs, number)
    ensures forall n: nat | starts[i] <= n < starts[i + 1] :: WellLabelled(steps[n])
  {
    assert ChapterRun(book[i], PartOf(steps, starts, i), maxChars);
    forall n: nat | starts[i] <= n < starts[i + 1]
      ensures WellLabelled(steps[n])
    {
      IngestedChunksAreLabelled(book[i], number, steps, inputs, starts[i], starts[i + 1], n - starts[i]);
    }
  }

  /** Unique ids, no returning paragraph, and the labels are the quotes in span order. */
  ghost predicate WellLabelled(step: Step) {
    && UniqueIds(step.chunk.spans) && Contiguous(step.chunk.spans, IngestIds.ParagraphKey)
    && LabelIds(step.analysis.labels) == QuoteIds(step.chunk.spans)
  }
}
