# bookreader: a verified model of its algorithms

bookreader turns a book into timed audio: it splits the text into spans of narration and speech, lets a language
model (or a heuristic) label who speaks, threads a cast of characters through the book, plans and renders speech,
music and sound effects through a shared cache, and lays every chapter out on a timeline. Around this sit a job store,
a worker queue and an HTTP API. This project models the decisions these parts make and proves what they are for.

The modules, by the part of the program they follow:

- `Analyzer`, `Validate`, `Paragraphs`, `QuoteOrder`, `Heuristic`: labelling one chunk, with an arbitrary stream of model
  replies, one repair request, halving after truncation, and the heuristic as the last resort.
- `Names`, `Bible`, `Finalize`, `CastRun`: the cast bible, from comparing names to a whole book of updates and lines.
- `Assemble`, `Music`, `AnalyzeStage`, `AnalyzeBook`: the chapter script, its music regions, and the analyze stage end to end.
- `IngestIds`: span ids as ingest writes them and the analyzers read them.
- `JobRows`, `JobStore`, `JobSystem`, `WorkQueue`: the job store, a run of the pipeline, the queue, and all of them
  together as one transition system with crashes and restarts.
- `ClipCache`, `Render`, `RequestKeys`, `SplitText`, `TtsPlan`: planning speech requests, the cache and its eviction,
  and rendering a chapter while other jobs change the cache.
- `Timeline`, `TimelineSfx`, `TimelineBuild`: laying out voice, effects and music.
- `Spans`, `Chapters`, `Chunker`: cutting text into spans, chapters and chunks.
- `FftSize`, `Ducking`: two numeric loops.
- `Book`, `Common`, `Text`: shared data and strings as Python sees them.

Loops and objects of the program are methods and classes here, each proved against a function or a direct property;
recursion and expressions are functions. Intensities and energies, which are only compared, clamped and passed on, are
whole numbers of 10^-18. Regular expressions, providers, content hashes, clocks and file contents are parameters.
Nothing is assumed about them beyond what a precondition says: matches lie inside the text, keys of different requests
differ, the provider answers the same request with the same clip.

Where the code does not do what one might expect, the exact condition is proved:

- A label that only `resolve_descriptor` matched leaves no alias behind (`RegisteredNameFoundIff`); one way to lose such a
  name is given (`DescriptorOfANewcomerIsLost`), and exactly when a name is found at the end (`FoundAtTheEndIff`, `KnownIff`).
- The heuristic regroups spans by paragraph key, so its labels can leave span order (`QuotesKeepOrderIff`,
  `LabelsKeepOrderIff`, with an input in `RefusedChunkIsReordered`); chunks of ingested chapters never meet this case
  (`ChunksAreWellFormed`).
- Ambient beds are merged in the order of the cues: when a cue joins a running bed that started later, what it asked for
  before that bed is not played (`BedsPlayIff`, with inputs in `EarlierStartIsLost` and `EarlierWindIsNotHeard`).
- Starting `run_job` with a restart stage, instead of through `requeue`, can break the prefix of completed stages
  (`DirectRestartKeepsPrefixIff`).
- The mood carried into the next chapter is taken from the last listed cue, not from the last span
  (`CarriedMoodIsFinalMood`, `OutOfOrderCuesCarryAnotherMood`).
- Music beds overwrite each other's ends, so a stop between two regions is not silent in the timeline
  (`TimelineBuild.OverlapRegions` models the overwriting as coded).

`dafny verify dfyconfig.toml` checks the whole project.

## Model

| member | source | states |
|---|---|---|
| `Analyzer.RequestsAreBounded` | bookreader/providers/anthropic/analysis.py:292-319 | For every stream of replies and every chunk with g >= 1 paragraphs the recursion ends after at least one and at most 4g - 2 requests (one less when it starts as a repair; 2 for a chunk without spans) |
| `Analyzer.LimitIsReached` | bookreader/providers/anthropic/analysis.py:292-319 | The bound is tight: for every g >= 1 there are replies (unusable, then truncated, down to single paragraphs) after which the analysis succeeds with exactly 4g - 2 requests |
| `Analyzer.EveryQuoteIsLabelledOnce` | bookreader/providers/anthropic/analysis.py:292-319 | Whatever mix of replies, repairs, halvings and fallbacks produced it, a returned analysis names each quote span exactly once, in span order, if in the chunk and in every part that halving can cut from it the quotes are first seen in order (unique span ids) |
| `Analyzer.LabelsKeepOrderIff` | bookreader/providers/anthropic/analysis.py:292-413 | That condition is exact: the labels are in span order for every stream of replies if and only if it holds of the chunk's spans; otherwise there is a stream of replies that brings them out of order |
| `Analyzer.ContiguousPartsKeepOrder` | bookreader/providers/anthropic/analysis.py:154-198 | The condition holds of every chunk in which no paragraph key comes back after another one |
| `IngestIds.ChunksAreWellFormed` | bookreader/analysis/chunker.py:39-79 | Every chunk made of a chapter as ingest numbers it has unique span ids and no paragraph key that comes back |
| `Analyzer.IngestedChunkIsLabelledInOrder` | bookreader/providers/anthropic/analysis.py:292-413 | So every returned analysis of a real chunk names each quote exactly once, in span order, whatever the model replies |
| `IngestIds.SpanIdIsRead` | bookreader/providers/anthropic/analysis.py:75 | The pattern reads the paragraph number back from every span id that ingest writes |
| `IngestIds.SpanIdsAreInjective` | bookreader/ingest/spans.py:207-214 | Span ids differ for different paragraphs or spans of a chapter |
| `Analyzer.EveryQuoteIsNamedOnce` | bookreader/providers/anthropic/analysis.py:390-413 | Without any assumption on paragraph keys: each quote is still named exactly once, by some label |
| `Analyzer.FallbackKeepsOrderIff` | bookreader/providers/anthropic/analysis.py:390-392 | After a refusal or an exceeded context the labels are in span order if and only if the paragraph keys of the quotes are first seen in the order of the quotes |
| `Analyzer.RefusedChunkIsReordered` | bookreader/providers/anthropic/analysis.py:390-392 | An input that fails: a refused chunk with quotes c1p1s0, c1p2s0, c1p1s1 comes back labelled as c1p1s0, c1p1s1, c1p2s0 |
| `Analyzer.ModelCuesAreInside` | bookreader/providers/anthropic/analysis.py:321-332 | An analysis that is the model's own in all its parts has every cue on a span of the chunk, with durations, intensities and energies in range |
| `Analyzer.FailureHasACause` | bookreader/providers/anthropic/analysis.py:394-403 | The analysis fails only because its last request raised, or because the last reply was truncated for a single paragraph |
| `Analyzer.HalvesMakeTheChunk` | bookreader/providers/anthropic/analysis.py:173-198 | Both halves of a split are non-empty, their spans together are the chunk's in order, and they have half of its paragraphs each, rounded down and up |
| `Analyzer.HalvingKeepsSpeakers` | bookreader/providers/anthropic/analysis.py:404-413 | The speakers that the second half carries on are the speakers that the merged analysis of the whole chunk carries on: halving does not change the conversation (unique span ids) |
| `Analyzer.AnalyzeWhole` | bookreader/providers/anthropic/analysis.py:292-319 | Reply by reply: a raised error and a truncated single paragraph fail, a refusal and an exceeded context go to the heuristic analyzer, a reply that validates is the result, and one that does not leads to exactly one repair request and then to the heuristic analyzer |
| `Analyzer.AnalyzeHalves` | bookreader/providers/anthropic/analysis.py:394-413 | A truncated reply runs the first half, then the second with the speakers of the first, and fails if either fails |
| `Paragraphs.ParagraphGroups` | bookreader/providers/anthropic/analysis.py:154-165 | The grouping loop computes the runs of spans with equal keys |
| `Paragraphs.RunsCutWhereTheKeyChanges` | bookreader/providers/anthropic/analysis.py:154-165 | The groups concatenate to the spans and are cut exactly where the key changes |
| `Paragraphs.RunsAreUnique` | bookreader/providers/anthropic/analysis.py:154-165 | There is only one such cut, so a part of the groups is the grouping of its own spans |
| `Paragraphs.ParagraphsOf` | bookreader/providers/mock/analysis.py:361-369 | The dictionary loop computes one group for each key, in order of first occurrence |
| `Paragraphs.ByKeyKeepsOrderIff` | bookreader/providers/mock/analysis.py:361-369 | Grouping by a dictionary keeps the spans in order if and only if no key comes back after another one, and then it is the same as grouping by runs |
| `QuoteOrder.QuotesKeepOrderIff` | bookreader/providers/mock/analysis.py:361-369 | The quotes stay in span order under grouping by key if and only if their keys are first seen in that order |
| `QuoteOrder.GroupedQuotesAreNamedOnce` | bookreader/providers/mock/analysis.py:361-369 | Grouping by key neither drops nor repeats a quote |
| `Heuristic.Nearest` | bookreader/providers/mock/analysis.py:876 | The resolved quote that is nearest, the later one on a tie |
| `Heuristic.NearestIsNeighbour` | bookreader/providers/mock/analysis.py:875-877 | Although the dictionary grows while it is searched, the nearest resolved quote always gives the speaker of the quote before, or of the next quote with a hit when that is at least as near |
| `Heuristic.FillFromNeighbours` | bookreader/providers/mock/analysis.py:875-877 | Every quote of a paragraph with a hit ends up with the speaker of that closed form |
| `Heuristic.SomebodySpeaks` | bookreader/providers/mock/analysis.py:872-877 | In a paragraph with a hit no quote is left without a speaker |
| `Heuristic.FallbackAlternates` | bookreader/providers/mock/analysis.py:826-842 | Without a hit the quotes go to someone other than the last speaker and the person addressed whenever such a participant exists; they go to nobody only if nobody has spoken yet |
| `Heuristic.UnattributedParagraphAlternates` | bookreader/providers/mock/analysis.py:870-883 | In the run: in a paragraph where no rule finds a speaker every quote has the same one, who is neither the last speaker nor the person addressed whenever such a participant is there |
| `Heuristic.LabelsNameTheQuotes` | bookreader/providers/mock/analysis.py:405-425 | Whatever the rules find, the labels are the quotes of the paragraphs, each once, in order |
| `Heuristic.ChunkRun.ProcessParagraph` | bookreader/providers/mock/analysis.py:851-902 | Processing a paragraph appends one label for each of its quotes, in order: with the speaker of the closed form if some rule found a speaker in it, otherwise all with the fallback speaker of the conversation at that point; and it leaves the conversation as the names, lines and addressees of the paragraph say |
| `Heuristic.ChunkRun.Run` | bookreader/providers/mock/analysis.py:405-425 | The labels of a run are those of its paragraphs one after the other, each under the conversation that the paragraphs before it left; their ids are exactly the quotes of the grouped paragraphs, in their order |
| `Validate.Repaired` | bookreader/analysis/validate.py:49-113 | A reply is accepted if and only if at most a fifth of the quotes is unlabelled and every cue lies on a span of the chunk; then the labels name each quote id exactly once, whatever the ids are, in span order if they are distinct, and all cues are in range |
| `Validate.ValidateChunk` | bookreader/analysis/validate.py:49-113 | The loops over labels, missing quotes and cues compute that repair, or the reason for rejecting, also for repeated span ids |
| `Validate.AcceptLabels` | bookreader/analysis/validate.py:59-68 | Labels for unknown spans, for narration and all but the first label of a quote are dropped |
| `Validate.FillMissing` | bookreader/analysis/validate.py:77-82 | Each missing quote gets the heuristic label, or the narrator |
| `Validate.SortIds` | bookreader/analysis/validate.py:52-84 | Sorting the labels by the position dictionary gives each quote id once, in the order of the last span that has it |
| `Validate.OrderNamesEachQuoteOnce` | bookreader/analysis/validate.py:83-90 | For any ids that order names every quote exactly once |
| `Validate.OrderOfUnique` | bookreader/analysis/validate.py:83-90 | With distinct ids it is the order of the quotes |
| `Validate.CompleteReplyIsKept` | bookreader/analysis/validate.py:49-113 | A reply that is already complete, canonical and in range comes back unchanged |
| `Music.ResolveMusic` | bookreader/analysis/assemble.py:82-140 | The resolved regions are ordered, disjoint and non-empty, and show at every span exactly what the cues leave playing there, from the prior mood on; a chapter in which nothing plays gets one calm region |
| `Music.ResolveSorted` | bookreader/analysis/assemble.py:100-127 | The loop with `close` yields regions that agree with the per-span fold of the sorted actions |
| `Music.FoldMeansPlaysAt` | bookreader/analysis/assemble.py:99 | Folding the stably sorted actions means, at each span, the action placed last at or before it, the last listed one among those on one span |
| `Music.PlaysAtIsUnique` | bookreader/analysis/assemble.py:82-140 | That meaning determines one bed for each span |
| `Music.SortIsStable` | bookreader/analysis/assemble.py:99 | Sorting by span keeps every action and keeps the list order on equal spans |
| `Music.PlaceCues` | bookreader/analysis/assemble.py:92-98 | Cues of unknown spans are dropped, all others keep their order and get the index of their span |
| `Music.LastMood` | bookreader/pipeline/stages.py:254-258 | The mood that the last listed cue leaves, or the current one |
| `Music.CarriedMoodIsFinalMood` | bookreader/pipeline/stages.py:254-258 | The mood carried on from a raw list of cues is the mood playing at the chapter's last span if and only if the last listed cue leaves the mood of the cue governing that span, or the prior mood if no cue has a place in the chapter; always if there is no cue |
| `Music.OrderedCuesCarryTheFinalMood` | bookreader/pipeline/stages.py:254-258 | So it is whenever every cue has a place and none is placed after the last listed one |
| `Music.MoodLeftConcat` | bookreader/pipeline/stages.py:296 | Carrying the mood through two lists of cues is carrying it through both together |
| `Music.OutOfOrderCuesCarryAnotherMood` | bookreader/pipeline/stages.py:254-258 | Two cues listed out of span order for which the carried mood differs from the mood at the end |
| `Assemble.AssembleScript` | bookreader/analysis/assemble.py:143-228 | The script has one segment for each span in order with its text unchanged, the effects of the known spans numbered from 1, and, by span id, music regions that are ordered, disjoint, non-empty and inside the chapter and show what the cues leave playing at each span, or the one calm region of a silent chapter |
| `Assemble.OrderedIsAllSpans` | bookreader/analysis/assemble.py:157-161 | The spans that segments are made from are all spans of the chapter in order |
| `Assemble.CollectLabels` | bookreader/analysis/assemble.py:163-171 | The label used for a span is the first one given to it across the chunks |
| `Assemble.BuildSegments` | bookreader/analysis/assemble.py:173-198 | Each segment is what its span and its label make of it, and the warnings are exactly those of the quotes without label or character, in order |
| `Assemble.FindAmbientEnd` | bookreader/analysis/assemble.py:72-79 | An ambient cue ends with the last span before the next scene break, or with the chapter |
| `Assemble.AmbientEnd` | bookreader/analysis/assemble.py:72-79 | Between the cue and that span no scene begins, and right after it one does unless the chapter is over |
| `Assemble.FindIsFirst` | bookreader/analysis/assemble.py:208-211 | The anchor is placed at its first occurrence |
| `AnalyzeStage.EveryQuoteHasALabel` | bookreader/analysis/assemble.py:59-62 | When every chunk labels its quotes, every quote of the chapter gets a label, so the branch for a missing label is not reached |
| `AnalyzeStage.ValidatedChapterHasNoWarnings` | bookreader/pipeline/stages.py:261-308 | Over a whole run of validated analyses: no segment of a chapter goes to the narrator by default, whatever later chapters and `finalize` did to the bible, unless an unknown speaker was one of the four descriptors |
| `AnalyzeStage.ValidatedChunksAreLabelled` | bookreader/analysis/validate.py:49-113 | Validated analyses label every quote of their chunk exactly once |
| `AnalyzeStage.ValidatedSpeakersAreValid` | bookreader/analysis/validate.py:31-46 | The speakers of validated labels are what `canonical_speaker` makes of the given names under the bible of that moment |
| `AnalyzeStage.AssembledIdsAreUnique` | bookreader/analysis/assemble.py:173-224 | Segments and effects of the script have unique ids where the spans have |
| `AnalyzeBook.StageAnalyze` | bookreader/pipeline/stages.py:261-308 | The whole stage: chunks are packed, analyzed and validated in book order with bible, mood and speakers threaded through, the bible is finalized, and each chapter's script is assembled from its own analyses, the final bible and the mood its first chunk was given; any failure ends the stage |
| `AnalyzeBook.RunChapter` | bookreader/pipeline/stages.py:278-297 | The inner loop: every chunk gets the mood of the whole run so far and the speakers of the chapter so far |
| `AnalyzeBook.StageNeverWarns` | bookreader/analysis/assemble.py:57-69 | No script of a finished stage has a warning about a missing label or an unknown speaker, unless an unknown speaker was one of the four descriptors |
| `AnalyzeBook.StageCountsEveryLine` | bookreader/pipeline/stages.py:288-302 | The line counts of the bible that the stage writes add up to the labels of the book that are not the narrator's |
| `AnalyzeBook.ChapterOpensInFinalMood` | bookreader/pipeline/stages.py:279 | A chapter is given the mood in which the chapter before it really ended, if that chapter listed no cue after a later one |
| `AnalyzeBook.IngestedBookIsWellFormed` | bookreader/pipeline/stages.py:261-308 | For a book as ingest numbers it: every chunk has unique ids and no returning paragraph, its labels are its quotes in span order, and segment and effect ids of every script are unique |
| `Names.MergeAliases` | bookreader/analysis/bible.py:88-100 | The loop over the alias groups computes the ordered union without repeats, blanks and the canonical name |
| `Names.MergedKeepsKeys` | bookreader/analysis/bible.py:88-100 | No name becomes unfindable by merging alias lists: its comparison key is that of the canonical name or of a kept alias |
| `Names.MergedHasNoOtherKeys` | bookreader/analysis/bible.py:88-100 | Merging alias lists brings no comparison key that was not in one of them |
| `Names.MergedIsDistinct` | bookreader/analysis/bible.py:88-100 | No two merged aliases are equal up to case and whitespace, none repeats the canonical name, none is blank |
| `Names.StrippedFormsKeepKey` | bookreader/analysis/bible.py:49-55 | The stripped name or the full form carries the comparison key of the original name |
| `Names.TitleCaseKeepsKey` | bookreader/analysis/bible.py:58-60 | Capitalizing a name does not change what it is compared by |
| `Bible.MergeKeepsNames` | bookreader/analysis/bible.py:172-191 | An entry merged with an update is found under all its old names and under all names of the update, through every rename |
| `Bible.NewEntryHasNames` | bookreader/analysis/bible.py:194-206 | A new entry is found under the update's name and aliases |
| `Bible.ApplyUpdates` | bookreader/analysis/bible.py:209-237 | The loop applies the updates one after the other; blank names are ignored |
| `Bible.UpdatesKeepNames` | bookreader/analysis/bible.py:209-237 | Every name known before `apply_updates`, and every name and alias of its updates, is known afterwards; entries that last stay lasting |
| `Bible.UpdatesKeepLines` | bookreader/analysis/bible.py:209-237 | Applying updates changes no line count in total |
| `Bible.RegisterSpeaker` | bookreader/analysis/bible.py:240-264 | The line is counted for one entry, whose name is returned; a narrator name changes nothing |
| `Bible.RegisterKeepsNames` | bookreader/analysis/bible.py:240-264 | Counting a line loses no name |
| `Bible.RegisterCountsOneLine` | bookreader/analysis/bible.py:240-264 | The total of the line counts grows by one, by none for the narrator |
| `Bible.InCastIsFound` | bookreader/types.py:219-225 | A non-blank name other than the narrator's is found exactly if some entry has its comparison key |
| `Finalize.FinalizeBible` | bookreader/analysis/bible.py:281-311 | The two loops of `finalize` compute the absorbed, filtered and capitalized list |
| `Finalize.FinalizeKeepsNames` | bookreader/analysis/bible.py:281-311 | Every name of an entry with a proper name, or that has spoken, is still found after `finalize` |
| `Finalize.FinalizeFindsIff` | bookreader/analysis/bible.py:281-311 | And no other name is: a name is found after `finalize` if and only if an entry with a proper name, or that has spoken, was known by it before |
| `Finalize.FinalizeKeepsLines` | bookreader/analysis/bible.py:267-311 | `finalize` changes no line count in total, although `list.remove` takes the first equal entry |
| `Finalize.FinalizeIsComplete` | bookreader/analysis/bible.py:288-298 | Afterwards no single-token name is a token of exactly one multi-token name: all merging that could be done was done |
| `Finalize.AbsorbKeepsNames` | bookreader/analysis/bible.py:267-278 | A host is found under the names of the entry that it absorbed |
| `CastRun.AnalyzeCast` | bookreader/pipeline/stages.py:276-301 | The analyze loop threads one bible through all chunks: updates, then one registration for each line, and `finalize` at the end |
| `CastRun.SpokenNamesAreFound` | bookreader/pipeline/stages.py:288-306 | Every name that was registered by `find` or as a new entry is found in the final bible, whatever came later, so assembling never falls back for it |
| `CastRun.RegisteredNameFoundIff` | bookreader/analysis/bible.py:248-261 | Right after a line is counted its name is findable if and only if it was matched by `find` or newly created, that is, unless only the descriptor route matched |
| `CastRun.FoundAtTheEndIff` | bookreader/analysis/assemble.py:63-69 | Assembling finds a speaker's name, however it was matched, if and only if at the end of the analyze loop an entry with a proper name, or that has spoken, is known by it |
| `CastRun.KnownIff` | bookreader/pipeline/stages.py:288-292 | A name is known at the end of the loop if and only if some update named it or some line was registered under it as new; a line that only a descriptor matched makes no name known |
| `CastRun.CanonicalSpeakerIsByName` | bookreader/analysis/validate.py:34-46 | The speaker that validation hands over is registered by name, unless it is unknown to bible and updates and one of the four descriptors |
| `CastRun.ValidatedSpeakersAreFound` | bookreader/analysis/assemble.py:63-69 | The branch for a speaker missing from the bible is not reached for a validated speaker, with the same exception |
| `CastRun.DescriptorOfANewcomerIsLost` | bookreader/analysis/assemble.py:66-68 | The exception happens: a label "the boy" in the chunk that introduces the only boy is counted for him but not found when the chapter is assembled |
| `CastRun.NoLineIsLost` | bookreader/pipeline/stages.py:288-301 | The line counts of the final bible add up to the number of registered lines that were not the narrator's |
| `JobStore.JobStore.ClaimJob` | bookreader/jobs/db.py:262-276 | The claim succeeds exactly for a row in an allowed status and then clears its error |
| `JobStore.JobStore.RequeueJob` | bookreader/jobs/db.py:287-292 | Restarting sets the job queued and the stages from the given one on pending |
| `JobStore.JobStore.RequeueOrphans` | bookreader/jobs/db.py:294-310 | Exactly the running rows are put back in the queue, their running stages pending |
| `JobStore.JobStore.StagesToRun` | bookreader/pipeline/run.py:102-122 | The loop collects the stages to run and the forced ones |
| `JobStore.JobStore.RunStage` | bookreader/pipeline/run.py:174-212 | One stage: begun, then completed, or abandoned as the outcome says |
| `JobStore.JobStore.RunStages` | bookreader/pipeline/run.py:174-212 | The stage loop changes the row as the recursive meaning of the plan says and executes the stages up to the first that does not complete |
| `JobStore.JobStore.RunJob` | bookreader/pipeline/run.py:125-216 | A whole run: unknown jobs and failed claims change nothing, a cancelled job is closed, any other runs its plan |
| `JobRows.PlanIsTheUnfinishedSuffix` | bookreader/pipeline/run.py:102-122 | With the completed stages a prefix, the plan of a resumed run is exactly the rest of the pipeline in order |
| `JobRows.ForcedExactly` | bookreader/pipeline/run.py:102-122 | The forced stages are exactly the planned ones from the restart stage on that were already done |
| `JobRows.EffectsKeepRowOk` | bookreader/jobs/db.py:252-371 | Claim, reset, requeue and recovery keep the completed stages a prefix |
| `JobStore.QueuedRunKeepsPrefix` | bookreader/pipeline/run.py:125-216 | A run that was queued the normal way keeps the completed stages a prefix whatever its stages do, and ends done if and only if all five are complete |
| `JobStore.DirectRestartKeepsPrefixIff` | bookreader/pipeline/run.py:102-122 | Passing a restart stage straight to `run_job` keeps the prefix whatever the stages do if and only if no stage after it was complete |
| `JobSystem.StagesAreAlwaysAPrefix` | bookreader/pipeline/run.py:125-216 | In every reachable state of workers, API handlers, crash, boot and command line the completed stages are a prefix, a done job has all five, and exactly the failed and cancelled jobs carry an error |
| `JobSystem.OneWorkerPerJob` | bookreader/jobs/db.py:262-276 | In every reachable state at most one worker is between a successful claim and its exit write for a job, and until then the job is running |
| `JobSystem.RunsExecuteTheUnfinishedSuffix` | bookreader/pipeline/run.py:174-212 | In every reachable state what a run has executed is the front of a suffix of the pipeline, and when it may write done it has executed exactly that suffix |
| `JobSystem.PlanStartsAfterTheCompletedPrefix` | bookreader/pipeline/run.py:102-122 | In every reachable state the plan of a run starts right after the completed stages |
| `JobSystem.NoQueuedJobIsLost` | bookreader/api/app.py:104-114 | While the server is up and not stopping, a queued job has an entry in the queue, in a hand, or a worker about to claim it |
| `JobSystem.NoRunningJobIsOrphaned` | bookreader/api/routes.py:375-492 | While the server is up a running job has the worker that will write its exit status, through every handler |
| `JobSystem.StepKeepsInv` | bookreader/api/routes.py:345-492 | Every step of a worker, handler, queue, crash or boot keeps the invariant behind these |
| `WorkQueue.NoSubmitIsLost` | bookreader/jobs/queue.py:53-127 | For every interleaving of submits, discards and workers: accepted submits of an id equal its starts, plus its successful discards, plus one if it is pending |
| `WorkQueue.WaitingIdHasAnEntry` | bookreader/jobs/queue.py:53-127 | A pending id always has a queued entry, a put under way, or an entry in a worker's hand |
| `WorkQueue.DrainedQueueOwesNothing` | bookreader/jobs/queue.py:53-127 | When nothing is waiting, every accepted submit was started or discarded |
| `WorkQueue.DiscardedIsNotStarted` | bookreader/jobs/queue.py:63-70 | A discarded id is not started until it is submitted again |
| `WorkQueue.RepeatedSubmitIsIgnored` | bookreader/jobs/queue.py:53-61 | Submitting a pending id again changes nothing |
| `WorkQueue.InProcessQueue.DiscardId` | bookreader/jobs/queue.py:63-70 | Discarding removes the pending mark if there is one and leaves the stale entry |
| `WorkQueue.InProcessQueue.CheckEntry` | bookreader/jobs/queue.py:105-127 | A worker starts an id exactly if it is still pending |
| `ClipCache.ClipCache.Prune` | bookreader/pipeline/cache.py:105-135 | `prune` removes exactly the shortest prefix, in order of last use and path, of the removable files that brings the total within the cap, or all of them; a cap of 0 or less removes nothing |
| `ClipCache.ClipCache.RemoveOldest` | bookreader/pipeline/cache.py:120-135 | The removal loop, for any sorted listing |
| `ClipCache.ClipCache.Has` | bookreader/pipeline/cache.py:45-51 | Reports whether the file exists, readable or not, and marks a hit as used |
| `ClipCache.ClipCache.Get` | bookreader/pipeline/cache.py:53-65 | Gives the clip of a readable file, marking it used; drops an unreadable one |
| `ClipCache.EvictionOrderIsUnique` | bookreader/pipeline/cache.py:121 | The order of eviction is determined by the files, so what is removed is too |
| `ClipCache.OverTheCapOnlyProtectedSurvive` | bookreader/pipeline/cache.py:105-135 | If the cap is still exceeded, every survivor is protected or could not be removed |
| `ClipCache.UsedSinceFloorSurvives` | bookreader/pipeline/cache.py:124-125 | A file used at or after the floor survives whatever the cap |
| `ClipCache.EvictionIsLeastRecentlyUsed` | bookreader/pipeline/cache.py:121-133 | Once a removable file survives, so does every file used after it |
| `ClipCache.PathsAreInjective` | bookreader/pipeline/cache.py:37-39 | Kind and key are determined by the path |
| `Render.RenderTts` | bookreader/pipeline/stages.py:507-548 | Whatever the cache holds, loses or gains between any two steps, the durations of a chapter are those of rendering without a cache |
| `Render.LookUp` | bookreader/pipeline/stages.py:517-530 | Each distinct key is looked up once; it has a duration afterwards or is the one miss with that key |
| `Render.LoadClip` | bookreader/pipeline/stages.py:655-667 | The mixer's loader gives the provider's clip for the request behind the key, and fails only for a key with no recorded request |
| `Render.KindsAreRight` | bookreader/pipeline/stages.py:645 | The table of kinds by clip key is right although all tracks share it |
| `Render.LayoutIsServed` | bookreader/pipeline/stages.py:645-653 | Every placement of a timeline has its request in the table, so a missing clip cannot fail the mix |
| `Render.RenderChapter` | bookreader/pipeline/stages.py:507-678 | From script to loaded clips: durations, timeline and every clip handed to the mixer are those of rendering without a cache, under arbitrary evictions and arrivals between any two steps |
| `Render.CleanClipIsUnique` | bookreader/pipeline/stages.py:655-667 | The clip that a placement should get is determined |
| `Render.EvictionKeepsConsistent` | bookreader/pipeline/cache.py:105-135 | Pruning is one of the steps that the rendering withstands |
| `RequestKeys.KeyTextIsInjective` | bookreader/types.py:410-413 | Writing out the fields of a request, each with its length, tells all requests of all kinds apart: keys as rendering needs them exist |
| `RequestKeys.RenderingIsPossible` | bookreader/pipeline/stages.py:507-548 | For every provider, cast and parameters there are keys, other jobs, a store and known durations that meet everything rendering asks for at once |
| `RequestKeys.RenderFromScratch` | bookreader/pipeline/stages.py:507-678 | So with any provider a chapter can be rendered from an empty cache, and the mixer gets that provider's clips |
| `SplitText.Split` | bookreader/pipeline/stages.py:437-461 | `split_text` ends and returns non-empty pieces of at most `max_chars` whose text without whitespace is the input's without whitespace |
| `SplitText.PiecesKeepText` | bookreader/pipeline/stages.py:437-461 | The same for the recursive meaning of the splitting |
| `TtsPlan.PlanTts` | bookreader/pipeline/stages.py:487-504 | Planning gives the jobs of the segments in order, one for each piece |
| `TtsPlan.NeighbourText` | bookreader/pipeline/stages.py:464-476 | The scanning loop finds the neighbour of the same speaker in that direction |
| `TtsPlan.NeighboursAreInverse` | bookreader/pipeline/stages.py:464-476 | The forward and the backward scan are inverse: k is the next of i exactly if i is the previous of k, and both mean that k is the next segment of the speaker in reach |
| `TtsPlan.EditIsLocal` | bookreader/pipeline/stages.py:464-504 | Editing the text of one segment changes no other job, except `next_text` of the last piece of its previous neighbour and `previous_text` of the first piece of its next one |
| `TtsPlan.EditCostsItsPiecesPlusTwo` | bookreader/pipeline/stages.py:464-504 | Hence an edit brings at most as many new keys as the segment has pieces, plus two |
| `Timeline.LayoutVoice` | bookreader/audio/timeline.py:234-258 | The voice loop computes the timings, placements and cursor of the closed form and records where the gap of each blocking impact opens |
| `Timeline.CursorIsTheSum` | bookreader/audio/timeline.py:234-258 | The final cursor is intro, pauses, blocking gaps, piece gaps and clip durations, nothing else |
| `Timeline.VoiceInOrder` | bookreader/audio/timeline.py:245-256 | The voice placements are in order and do not overlap |
| `Timeline.VoiceInsideSegments` | bookreader/audio/timeline.py:245-258 | Each lies inside the timing of its segment |
| `Timeline.BlockingPrecedesWords` | bookreader/audio/timeline.py:237-244 | A blocking impact starts no earlier than the end of the previous segment, and its gap is over before the words begin |
| `Timeline.PauseBefore` | bookreader/audio/timeline.py:127-138 | The pause is the base pause scaled by the emotion, never outside 150 to 2500 ms |
| `TimelineSfx.PlaceCues` | bookreader/audio/timeline.py:263-288 | The cue loop computes the placements, the active beds and the requests of the recursive meaning |
| `TimelineSfx.AmbientBedsAreDisjoint` | bookreader/audio/timeline.py:274-288 | Ambient placements with the same clip are pairwise disjoint, for any order of the cues |
| `TimelineSfx.BedsCoverTheRequests` | bookreader/audio/timeline.py:274-288 | No bed sounds where no cue asked for it, in any order of the cues; with starts that do not go back, beds sound exactly where some cue asked for that clip |
| `TimelineSfx.BedsPlayIff` | bookreader/audio/timeline.py:274-288 | For cues in any order: a bed sounds at a time if and only if some cue asks for that time and, when it was placed, either no bed of its clip was running or the running one had started by then |
| `TimelineSfx.EarlierStartIsLost` | bookreader/audio/timeline.py:276-281 | An input that fails: two cues of one bed, the second with the earlier start; the time it asks for before the first one starts is not played |
| `TimelineSfx.EarlierWindIsNotHeard` | bookreader/audio/timeline.py:276-281 | With numbers: wind anchored at 5000 ms and then wind anchored at 1000 ms leaves 700 ms silent |
| `TimelineSfx.ImpactsArePlaced` | bookreader/audio/timeline.py:269-273 | Every known impact is placed, at its gap or just before its anchor word |
| `TimelineSfx.AnchorInsideSegment` | bookreader/audio/timeline.py:202-207 | The anchor lies inside the segment's timing |
| `TimelineSfx.PlacementsHaveRequests` | bookreader/audio/timeline.py:263-288 | Every effect placed has a request filed under its key |
| `TimelineBuild.LayoutMusic` | bookreader/audio/timeline.py:303-328 | Music beds follow each other without a gap (every bed but the last ends a fixed overlap after the next one's start, clamped), lie inside the chapter, and have their requests filed |
| `TimelineBuild.OverlapRegions` | bookreader/audio/timeline.py:316-319 | The overwriting loop gives each bed but the last the clamped overlap end |
| `TimelineBuild.BuildTimeline` | bookreader/audio/timeline.py:210-337 | The whole layout: voice, effects and music as above, and a duration that ends the outro after the last voice or effect |
| `TimelineBuild.EveryPlacementIsInside` | bookreader/audio/timeline.py:210-337 | Every placement lies between 0 and the chapter's duration |
| `TimelineBuild.VoiceKeysArePlanned` | bookreader/audio/timeline.py:245-256 | Every voice placement plays the clip of a planned job |
| `Chunker.PackParagraphs` | bookreader/analysis/chunker.py:47-60 | The packing loop partitions the paragraphs in order into groups within the limit, or single longer paragraphs |
| `Chunker.GreedyIsOptimal` | bookreader/analysis/chunker.py:47-60 | No partition into contiguous groups within the limit has fewer groups |
| `Chunker.MakeChunks` | bookreader/analysis/chunker.py:39-79 | The chunks are those of such a packing and their spans are the chapter's; a limit below 1 is refused |
| `Chunker.CarrySpeakers` | bookreader/analysis/chunker.py:22-36 | The carrying loop remembers the speakers of the quotes one after the other, each quote id once, also for repeated ids |
| `Chunker.CarriedAreTheLastTwoSpeakers` | bookreader/analysis/chunker.py:22-36 | From any previous speakers: once a chunk names speakers, what is carried is the last of them and, before it, the latest one heard in the chunk or before it who is somebody else |
| `Chunker.HeardIsSpoken` | bookreader/analysis/chunker.py:27-36 | With distinct span ids the remembered speakers are those of all quotes in span order |
| `Chunker.RememberAllConcat` | bookreader/analysis/chunker.py:22-36 | Carrying over one part and then the next is carrying over both |
| `Spans.SplitSpans` | bookreader/ingest/spans.py:188-216 | For every style: spans are ordered, disjoint, non-empty, stripped verbatim slices; the non-space characters outside them are exactly the marks of the style; kinds alternate |
| `Spans.SingleBoundaries` | bookreader/ingest/spans.py:92-112 | The loop records exactly the apostrophes that open or close a quote under the elision rule |
| `Spans.MarksAlternate` | bookreader/ingest/spans.py:92-112 | Recorded marks alternate between places where a quote can open and where it can close |
| `Spans.SkippedCloserIsMadeUpFor` | bookreader/ingest/spans.py:104-122 | A closer that is passed over as an elision is followed by a recorded mark that closes the same quote |
| `Spans.UnclosedQuoteHasNoCloser` | bookreader/ingest/spans.py:92-122 | A quote left open contains no apostrophe after the last mark that could have closed it |
| `Spans.AlternatingPieces` | bookreader/ingest/spans.py:125-136 | Cutting at the marks tiles the paragraph with alternating pieces |
| `Spans.DashPieces` | bookreader/ingest/spans.py:139-160 | Cutting at the dashes tiles the paragraph; without an opening dash it is one narration |
| `Chapters.MergeShortChapters` | bookreader/ingest/chapters.py:123-148 | The merging loop computes the recursive meaning |
| `Chapters.MergeIsConservative` | bookreader/ingest/chapters.py:123-148 | Merging moves no text and leaves a short chapter only when it is the only one |
| `Chapters.SyntheticParts` | bookreader/ingest/chapters.py:151-167 | Synthetic parts are the text in order, at most one for each 6000 words begun, each but the last closed once its share is reached |
| `Chapters.DetectChapters` | bookreader/ingest/chapters.py:170-216 | The chapters' text is exactly the prologue that is kept and every paragraph that is not a heading |
| `Chapters.SurvivorsAreASubsequence` | bookreader/ingest/chapters.py:170-216 | Detection never duplicates or reorders text |
| `Chapters.AlignFlags` | bookreader/ingest/__init__.py:48-61 | The walk runs past the blocks if and only if the texts are not a subsequence of them; otherwise each flag comes from a strictly later block with the same text |
| `Chapters.TextSections` | bookreader/ingest/__init__.py:40-45 | On detected chapters the walk always succeeds |
| `FftSize.Size` | bookreader/providers/mock/synth.py:74-89 | The nested search returns the smallest number of the form 2^a 3^b 5^c that is at least the target and at least 1, although `best` shrinks inside all three loops |
| `FftSize.SmoothIsProduct` | bookreader/providers/mock/synth.py:74-89 | The numbers reached by doubling, tripling and multiplying by five are exactly those of the form 2^a 3^b 5^c |
| `Ducking.LookAhead` | bookreader/audio/mixer.py:95-97 | The in-place loop marks a frame exactly if speech lies within 1 + 2 + ... + K frames after it, K the lead clamped to the array |
| `Ducking.LookAheadCoversLead` | bookreader/audio/mixer.py:95-97 | That is at least the documented lead |
| `Ducking.ReachIsTriangular` | bookreader/audio/mixer.py:95-97 | The reach is K(K + 1)/2 |
| `Ducking.GapRunsAreTheMaximalGaps` | bookreader/audio/mixer.py:54-62 | The edge pairing yields exactly the maximal runs without speech, each ending before the next one starts |
| `Ducking.GapTargets` | bookreader/audio/mixer.py:101-105 | A frame aims for the gap gain exactly if its maximal run is long enough |
| `Ducking.FrameGains` | bookreader/audio/mixer.py:65-116 | The smoothed frame curve follows its targets one pole at a time and stays between the two gains |
| `Ducking.DuckGain` | bookreader/audio/mixer.py:65-116 | So does every sample of the gain curve |

## Left out

- Analyzer.Analyze: the wording of prompts and repair notes, usage records and the provider's own retries; the replies after those retries are the arbitrary stream.
- Analyzer.EveryQuoteIsLabelledOnce: asks for distinct span ids, as ingest makes them, and for the condition that `LabelsKeepOrderIff` shows to be exact.
- Validate.ValidateChunk: the limit of a fifth is compared without floating point, and warning texts are left out.
- IngestIds.SpanIdIsRead: digits are ASCII, and a line break after an id is not modelled.
- Heuristic.ChunkRun.Run: what the name, mood and effect rules find in the text is arbitrary; the cues and character updates of the heuristic, pronoun tables and voice notes are not modelled.
- Bible.MergeUpdate: voice notes and the version counter; bibles are values, as every function of the source returns a new one. Lower-casing and honorifics are ASCII.
- CastRun.ValidatedSpeakersAreFound: excludes an unknown speaker that is one of the four descriptors, for which the statement is false.
- AnalyzeBook.StageAnalyze: progress, cancellation and the files written; a cached analysis counts as the validated reply for its chunk and bible.
- Assemble.AssembleScript: the source field of segments and the warnings about dropped labels and cues; cue durations are taken to be non-negative, as validation makes them.
- JobSystem.StepKeepsInv: an API handler's check and write are one step, one `start` per queue, and the command line runs only while the server is down; an exception while the last status is written is not modelled.
- JobStore.JobStore.RunJob: events, progress and usage rows, settings snapshots and secrets.
- WorkQueue.NoSubmitIsLost: liveness, timing and stopping followed by starting again.
- ClipCache.ClipCache.Get: errors while deleting an unreadable file, JSON entries with a time limit, and other processes changing files during one `prune`; removals that fail are a parameter.
- Render.RenderChapter: a clip read back from its file is taken to be the clip that was written; provider failures, cancellation, the mixer's own caching per track, the render-key shortcut and the bookkeeping of cache hits are left out. Misses complete in any order.
- Timeline.LayoutVoice: gains and fades; fractions are reals instead of floating point.
- TimelineSfx.BedsCoverTheRequests: that everything asked for is played needs starts that do not go back; for other orders `BedsPlayIff` says exactly what is played.
- Spans.SplitSpans: the character classes of the quote rules are arbitrary, and detecting the quote style is left out.
- Chapters.DetectChapters: heading tests are arbitrary, and the word quotas are compared without division.
- Ducking.DuckGain: envelopes, thresholds and decibels; gains and smoothing rates are reals.
- Casting, voice catalogues, pricing, manifests, encoding and every other stage that only reads, writes or formats.
- Audio synthesis, resampling, filters, limiter and fades, and the scaling of event lengths in the mock voice.
