/** `build_timeline` as a whole: the voice layout, the sound effects, the music beds and the chapter's length. */
module TimelineBuild {
  import opened Book
  import opened Common
  import opened Timeline
  import opened TimelineSfx

  // ----------------------------------------------------------------- music beds

  datatype Region = Region(cue: MusicCue, start: int, end: int)

  ghost predicate Within(regions: seq<Region>, duration: int) {
    forall k | 0 <= k < |regions| :: 0 <= regions[k].start <= regions[k].end <= duration
  }

  predicate HasSpans(cue: MusicCue, timings: map<string, Timing>) {
    cue.startSpanId in timings && cue.endSpanId in timings
  }

  function RegionOf(cue: MusicCue, timings: map<string, Timing>, duration: nat): (r: Region)
    requires HasSpans(cue, timings)
    ensures 0 <= r.start <= r.end <= duration
  {
    var start := Clamp(timings[cue.startSpanId].start - MUSIC_REGION_LEAD_MS, 0, duration);
    Region(cue, start, Clamp(timings[cue.endSpanId].end + MUSIC_REGION_TAIL_MS, start, duration))
  }

  /** The regions of the cues whose spans are known. */
  function RegionsOf(cues: seq<MusicCue>, timings: map<string, Timing>, duration: nat): seq<Region> {
    if cues == [] then []
    else
      var front := RegionsOf(cues[..|cues| - 1], timings, duration);
      if HasSpans(cues[|cues| - 1], timings) then front + [RegionOf(cues[|cues| - 1], timings, duration)] else front
  }

  lemma {:induction false} RegionsAreWithin(cues: seq<MusicCue>, timings: map<string, Timing>, duration: nat)
    ensures Within(RegionsOf(cues, timings, duration), duration)
  {
    if cues != [] {
      RegionsAreWithin(cues[..|cues| - 1], timings, duration);
    }
  }

  /** The end that a bed gets when another one follows it. */
  function OverlapEnd(region: Region, next: Region, duration: int): int {
    Clamp(next.start + MUSIC_OVERLAP_MS, region.start, duration)
  }

  /** Where bed `k` ends: the last one at its region's end. */
  function BedEnd(regions: seq<Region>, k: nat, duration: int): int
    requires k < |regions|
  {
    if k == |regions| - 1 then regions[k].end else OverlapEnd(regions[k], regions[k + 1], duration)
  }

  /** The second loop: every bed but the last now ends a fixed overlap after the next one's start. */
  method OverlapRegions(regions: seq<Region>, duration: int) returns (beds: seq<Region>)
    requires Within(regions, duration)
    ensures |beds| == |regions| && Within(beds, duration)
    ensures forall k | 0 <= k < |beds| :: beds[k].cue == regions[k].cue && beds[k].start == regions[k].start
    ensures forall k | 0 <= k < |beds| :: beds[k].end == BedEnd(regions, k, duration)
  {
    beds := regions;
    var index := 1;
    while index < |regions|
      invariant 1 <= index && (regions != [] ==> index <= |regions|)
      invariant |beds| == |regions| && Within(beds, duration)
      invariant forall k | 0 <= k < |beds| :: beds[k].cue == regions[k].cue && beds[k].start == regions[k].start
      invariant forall k | 0 <= k < |beds| :: beds[k].end == if k >= index - 1 then regions[k].end else BedEnd(regions, k, duration)
    {
      var start, prev := beds[index].start, beds[index - 1];
      beds := beds[index - 1 := prev.(end := Clamp(start + MUSIC_OVERLAP_MS, prev.start, duration))];
      index := index + 1;
    }
  }

  /** `music_request`. */
  function MusicRequestOf(region: Region, params: Params): MusicRequest {
    var prompt := if region.cue.prompt != "" then region.cue.prompt else params.defaultPrompt(region.cue.mood);
    MusicRequest(
      prompt, region.cue.mood, region.cue.energy,
      Clamp(Min(region.end - region.start + MUSIC_REQUEST_PAD_MS, MUSIC_REQUEST_CAP_MS), params.musicMinMs, params.musicMaxMs),
      params.musicSeed(region.cue.mood, prompt))
  }

  function BedOf(region: Region, params: Params): Placement {
    Placement(Music, params.musicKey(MusicRequestOf(region, params)), region.cue.id, region.start, region.end, true)
  }

  ghost predicate HasMusicRequest(jobs: map<Key, MusicRequest>, key: Key, params: Params) {
    key in jobs && params.musicKey(jobs[key]) == key
  }

  /** Every bed's request is filed under its own key. */
  ghost predicate MusicFiled(jobs: map<Key, MusicRequest>, params: Params) {
    forall key | key in jobs :: HasMusicRequest(jobs, key, params)
  }

  /** The third loop: one placement and one request for each bed. */
  method PlaceBeds(beds: seq<Region>, params: Params) returns (music: seq<Placement>, jobs: map<Key, MusicRequest>)
    ensures |music| == |beds| && forall k | 0 <= k < |beds| :: music[k] == BedOf(beds[k], params)
    ensures forall k | 0 <= k < |music| :: HasMusicRequest(jobs, music[k].key, params)
    ensures MusicFiled(jobs, params)
  {
    music, jobs := [], map[];
    for k := 0 to |beds|
      invariant |music| == k && forall j | 0 <= j < k :: music[j] == BedOf(beds[j], params)
      invariant forall key | key in jobs :: params.musicKey(jobs[key]) == key
      invariant forall j | 0 <= j < k :: music[j].key in jobs
    {
      var request := MusicRequestOf(beds[k], params);
      var key := params.musicKey(request);
      if key !in jobs {
        jobs := jobs[key := request];
      }
      music := music + [Placement(Music, key, beds[k].cue.id, beds[k].start, beds[k].end, true)];
    }
  }

  /** Beds follow each other without a gap. */
  ghost predicate NoMusicGap(music: seq<Placement>) {
    forall k, n | 0 <= k && n == k + 1 < |music| :: music[k].end >= music[n].start
  }

  ghost predicate PlacedWithin(ps: seq<Placement>, duration: int) {
    forall k | 0 <= k < |ps| :: 0 <= ps[k].start <= ps[k].end <= duration
  }

  /** The music part of `build_timeline`. */
  method LayoutMusic(cues: seq<MusicCue>, timings: map<string, Timing>, duration: nat, params: Params)
    returns (music: seq<Placement>, jobs: map<Key, MusicRequest>)
    ensures !params.musicEnabled ==> music == []
    ensures PlacedWithin(music, duration) && NoMusicGap(music)
    ensures forall k | 0 <= k < |music| :: music[k].track == Music && HasMusicRequest(jobs, music[k].key, params)
    ensures MusicFiled(jobs, params)
    ensures params.musicEnabled ==>
      var regions := RegionsOf(cues, timings, duration);
      |music| == |regions| && forall k | 0 <= k < |music| ::
        && music[k].refId == regions[k].cue.id && music[k].start == regions[k].start
        && music[k].end == BedEnd(regions, k, duration)
  {
    if !params.musicEnabled {
      return [], map[];
    }
    var regions: seq<Region> := [];
    for c := 0 to |cues|
      invariant regions == RegionsOf(cues[..c], timings, duration)
    {
      assert cues[..c + 1][..c] == cues[..c];
      if !HasSpans(cues[c], timings) {
        continue;
      }
      var start := Clamp(timings[cues[c].startSpanId].start - MUSIC_REGION_LEAD_MS, 0, duration);
      var end := Clamp(timings[cues[c].endSpanId].end + MUSIC_REGION_TAIL_MS, start, duration);
      regions := regions + [Region(cues[c], start, end)];
    }
    assert cues[..|cues|] == cues;
    RegionsAreWithin(cues, timings, duration);
    var beds := OverlapRegions(regions, duration);
    music, jobs := PlaceBeds(beds, params);
    forall k | 0 <= k < |music|
      ensures music[k].track == Music && music[k].refId == regions[k].cue.id && music[k].start == regions[k].start
      ensures music[k].end == BedEnd(regions, k, duration)
    {
      assert music[k] == BedOf(beds[k], params);
    }
  }

  // ----------------------------------------------------------------- gathering what a segment needs

  datatype TtsJob = TtsJob(segmentId: string, piece: nat, key: Key)

  function JobsOf(jobs: seq<TtsJob>, id: string): seq<TtsJob> {
    if jobs == [] then [] else (if jobs[0].segmentId == id then [jobs[0]] else []) + JobsOf(jobs[1..], id)
  }

  function InsertByPiece(job: TtsJob, sorted: seq<TtsJob>): seq<TtsJob> {
    if sorted == [] || job.piece <= sorted[0].piece then [job] + sorted else [sorted[0]] + InsertByPiece(job, sorted[1..])
  }

  function SortByPiece(jobs: seq<TtsJob>): seq<TtsJob> {
    if jobs == [] then [] else InsertByPiece(jobs[0], SortByPiece(jobs[1..]))
  }

  /** A clip without a measured duration is placed with length 0. */
  function ClipsOf(jobs: seq<TtsJob>, durations: map<Key, nat>): (clips: seq<Clip>)
    ensures |clips| == |jobs| && forall i | 0 <= i < |jobs| :: clips[i].key == jobs[i].key
  {
    seq(|jobs|, i requires 0 <= i < |jobs| =>
      Clip(jobs[i].key, if jobs[i].key in durations then durations[jobs[i].key] else 0))
  }

  function CuesOf(cues: seq<SfxCue>, id: string): seq<SfxCue> {
    if cues == [] then [] else (if cues[0].spanId == id then [cues[0]] else []) + CuesOf(cues[1..], id)
  }

  function PartOf(script: Script, i: nat, jobs: seq<TtsJob>, durations: map<Key, nat>, params: Params): Part
    requires i < |script.segments|
  {
    var seg := script.segments[i];
    Part(seg, ClipsOf(SortByPiece(JobsOf(jobs, seg.id)), durations), if params.sfxEnabled then CuesOf(script.sfx, seg.id) else [])
  }

  function PartsOf(script: Script, jobs: seq<TtsJob>, durations: map<Key, nat>, params: Params): (parts: seq<Part>)
    ensures |parts| == |script.segments|
    ensures forall i | 0 <= i < |parts| :: parts[i] == PartOf(script, i, jobs, durations, params)
  {
    seq(|script.segments|, i requires 0 <= i < |script.segments| => PartOf(script, i, jobs, durations, params))
  }

  ghost predicate UniqueScriptIds(script: Script) {
    && (forall i, j | 0 <= i < j < |script.segments| :: script.segments[i].id != script.segments[j].id)
    && DistinctIds(script.sfx)
  }

  lemma {:induction false} CuesOfMembers(cues: seq<SfxCue>, id: string)
    ensures forall x :: x in CuesOf(cues, id) <==> x in cues && x.spanId == id
  {
    if cues != [] {
      CuesOfMembers(cues[1..], id);
    }
  }

  lemma {:induction false} CuesOfDistinct(cues: seq<SfxCue>, id: string)
    requires DistinctIds(cues)
    ensures DistinctIds(CuesOf(cues, id))
  {
    if cues != [] {
      var first, later := cues[0], cues[1..];
      var rest := CuesOf(later, id);
      assert DistinctIds(later);
      CuesOfDistinct(later, id);
      CuesOfMembers(later, id);
      forall k | 0 <= k < |rest|
        ensures rest[k].id != first.id
      {
        assert rest[k] in rest;
        var l :| 0 <= l < |later| && later[l] == rest[k];
        assert cues[l + 1] == rest[k];
      }
      if first.spanId == id {
        DistinctCons(first, rest);
      } else {
        assert CuesOf(cues, id) == rest;
      }
    }
  }

  lemma DistinctCons(first: SfxCue, rest: seq<SfxCue>)
    requires DistinctIds(rest) && forall k | 0 <= k < |rest| :: rest[k].id != first.id
    ensures DistinctIds([first] + rest)
  {
  }

  lemma PartsAreDistinct(script: Script, jobs: seq<TtsJob>, durations: map<Key, nat>, params: Params)
    requires UniqueScriptIds(script)
    ensures AllDistinct(PartsOf(script, jobs, durations, params))
  {
    var parts := PartsOf(script, jobs, durations, params);
    forall i | 0 <= i < |parts|
      ensures DistinctIds(parts[i].cues)
    {
      CuesOfDistinct(script.sfx, script.segments[i].id);
    }
    forall i, j, c, d | 0 <= i < j < |parts| && 0 <= c < |parts[i].cues| && 0 <= d < |parts[j].cues|
      ensures parts[i].cues[c].id != parts[j].cues[d].id
    {
      CuesOfMembers(script.sfx, script.segments[i].id);
      CuesOfMembers(script.sfx, script.segments[j].id);
      assert parts[i].cues[c] in script.sfx && parts[j].cues[d] in script.sfx;
    }
  }

  // ----------------------------------------------------------------- build_timeline

  datatype Layout = Layout(
    durationMs: nat, timings: seq<Timing>, voice: seq<Placement>, sfx: seq<Placement>, music: seq<Placement>,
    sfxJobs: map<Key, SfxRequest>, musicJobs: map<Key, MusicRequest>)
  {
    function Placements(): seq<Placement> {
      voice + sfx + music
    }
  }

  /** The lookup tables by segment id. */
  method IndexById(segments: seq<Segment>, timings: seq<Timing>)
    returns (segs: map<string, Segment>, timingOf: map<string, Timing>)
    requires |timings| == |segments| && forall i | 0 <= i < |timings| :: timings[i].id == segments[i].id && timings[i].start <= timings[i].end
    ensures segs.Keys == timingOf.Keys
    ensures forall id | id in segs :: segs[id] in segments && timingOf[id] in timings && segs[id].id == timingOf[id].id == id
    ensures forall i | 0 <= i < |segments| :: segments[i].id in segs
  {
    segs, timingOf := map[], map[];
    for i := 0 to |segments|
      invariant segs.Keys == timingOf.Keys
      invariant forall id | id in segs :: segs[id] in segments && timingOf[id] in timings && segs[id].id == timingOf[id].id == id
      invariant forall j | 0 <= j < i :: segments[j].id in segs
    {
      segs := segs[segments[i].id := segments[i]];
      timingOf := timingOf[timings[i].id := timings[i]];
    }
  }

  /** `max([cursor] + [p.end_ms for p in sfx])`. */
  function LastEnd(cursor: nat, sfx: seq<Placement>): (e: nat)
    ensures e >= cursor && forall k | 0 <= k < |sfx| :: sfx[k].end <= e
    ensures e == cursor || exists k | 0 <= k < |sfx| :: sfx[k].end == e
  {
    if sfx == [] then cursor
    else
      var front := sfx[..|sfx| - 1];
      var e := LastEnd(cursor, front);
      assert forall k | 0 <= k < |front| :: front[k] == sfx[k];
      if sfx[|sfx| - 1].end > e then sfx[|sfx| - 1].end else e
  }

  /** What the voice part of a layout is. */
  ghost predicate VoiceOk(layout: Layout, parts: seq<Part>, intro: nat) {
    && |layout.timings| == |parts| && (forall i | 0 <= i < |parts| :: layout.timings[i] == TimingOf(parts, intro, i))
    && layout.voice == AllVoice(parts, intro, |parts|)
  }

  /** What the sound-effect part is: the placements of all cues, looked up in the segments' timings. */
  ghost predicate SfxOk(layout: Layout, script: Script, ctx: Context) {
    && layout.sfx == PlaceAll(script.sfx, ctx).placed && layout.sfxJobs == PlaceAll(script.sfx, ctx).jobs
    && ValidContext(ctx)
    && (forall id | id in ctx.segs :: ctx.segs[id] in script.segments && ctx.timings[id] in layout.timings
          && ctx.segs[id].id == ctx.timings[id].id == id)
    && (forall i | 0 <= i < |script.segments| :: script.segments[i].id in ctx.segs)
  }

  ghost predicate MusicOk(layout: Layout, script: Script, ctx: Context) {
    && NoMusicGap(layout.music) && MusicFiled(layout.musicJobs, ctx.params)
    && (forall k | 0 <= k < |layout.music| ::
         layout.music[k].track == Music && HasMusicRequest(layout.musicJobs, layout.music[k].key, ctx.params))
    && (if !ctx.params.musicEnabled then layout.music == [] else
        var regions := RegionsOf(script.music, ctx.timings, layout.durationMs);
        && |layout.music| == |regions|
        && forall k | 0 <= k < |regions| ::
          && layout.music[k].refId == regions[k].cue.id && layout.music[k].start == regions[k].start
          && layout.music[k].end == BedEnd(regions, k, layout.durationMs))
  }

  function IntroMs(params: Params): nat {
    if params.musicEnabled then MUSIC_INTRO_MS else INTRO_MS
  }

  /** `build_timeline`. */
  method BuildTimeline(script: Script, jobs: seq<TtsJob>, durations: map<Key, nat>, params: Params)
    returns (layout: Layout, ghost ctx: Context)
    ensures ctx.params == params
    ensures VoiceOk(layout, PartsOf(script, jobs, durations, params), IntroMs(params))
    ensures SfxOk(layout, script, ctx) && MusicOk(layout, script, ctx)
    ensures UniqueScriptIds(script) ==>
      Recorded(PartsOf(script, jobs, durations, params), IntroMs(params), |script.segments|, ctx.blocking)
    ensures layout.durationMs ==
      LastEnd(CursorAfter(PartsOf(script, jobs, durations, params), IntroMs(params), |script.segments|), layout.sfx) + OUTRO_MS
    ensures PlacedWithin(layout.music, layout.durationMs)
  {
    var parts := PartsOf(script, jobs, durations, params);
    var voice, timings, blocking, cursor := LayoutVoice(parts, IntroMs(params));
    if UniqueScriptIds(script) {
      PartsAreDistinct(script, jobs, durations, params);
    }
    TimingsAreOrdered(parts, IntroMs(params));
    var segs, timingOf := IndexById(script.segments, timings);
    var sfx, sfxJobs := PlaceCues(script.sfx, Context(segs, timingOf, blocking, params));
    var duration := LastEnd(cursor, sfx) + OUTRO_MS;
    var music, musicJobs := LayoutMusic(script.music, timingOf, duration, params);
    layout := Layout(duration, timings, voice, sfx, music, sfxJobs, musicJobs);
    ctx := Context(segs, timingOf, blocking, params);
  }

  lemma TimingsAreOrdered(parts: seq<Part>, intro: nat)
    ensures forall i | 0 <= i < |parts| :: StartOf(parts, intro, i) <= EndOf(parts, intro, i)
  {
  }

  /** Every placement of a layout lies in [0, duration]. */
  lemma EveryPlacementIsInside(layout: Layout, script: Script, parts: seq<Part>, intro: nat, ctx: Context)
    requires VoiceOk(layout, parts, intro) && SfxOk(layout, script, ctx)
    requires layout.durationMs == LastEnd(CursorAfter(parts, intro, |parts|), layout.sfx) + OUTRO_MS
    requires PlacedWithin(layout.music, layout.durationMs)
    ensures PlacedWithin(layout.Placements(), layout.durationMs)
  {
    VoiceInOrder(parts, intro, |parts|);
    AmbientBedsAreDisjoint(script.sfx, ctx);
    WithinConcat(layout.voice, layout.sfx, layout.durationMs);
    WithinConcat(layout.voice + layout.sfx, layout.music, layout.durationMs);
  }

  lemma WithinConcat(a: seq<Placement>, b: seq<Placement>, duration: int)
    requires PlacedWithin(a, duration) && PlacedWithin(b, duration)
    ensures PlacedWithin(a + b, duration)
  {
  }

  // ----------------------------------------------------------------- every clip has a request

  lemma {:induction false} SortKeepsJobs(jobs: seq<TtsJob>)
    ensures forall x :: x in SortByPiece(jobs) <==> x in jobs
  {
    if jobs != [] {
      SortKeepsJobs(jobs[1..]);
      InsertKeepsJobs(jobs[0], SortByPiece(jobs[1..]));
    }
  }

  lemma {:induction false} InsertKeepsJobs(job: TtsJob, sorted: seq<TtsJob>)
    ensures forall x :: x in InsertByPiece(job, sorted) <==> x == job || x in sorted
  {
    if sorted != [] && job.piece > sorted[0].piece {
      InsertKeepsJobs(job, sorted[1..]);
    }
  }

  lemma {:induction false} JobsOfMembers(jobs: seq<TtsJob>, id: string)
    ensures forall x :: x in JobsOf(jobs, id) <==> x in jobs && x.segmentId == id
  {
    if jobs != [] {
      JobsOfMembers(jobs[1..], id);
    }
  }

  ghost predicate IsJobKey(jobs: seq<TtsJob>, key: Key) {
    exists j | 0 <= j < |jobs| :: jobs[j].key == key
  }

  ghost predicate PlaysJobs(ps: seq<Placement>, jobs: seq<TtsJob>) {
    forall k | 0 <= k < |ps| :: ps[k].track == Voice && IsJobKey(jobs, ps[k].key)
  }

  /** The clips of a part are clips of planned jobs. */
  ghost predicate FedByJobs(part: Part, jobs: seq<TtsJob>) {
    forall k | 0 <= k < |part.clips| :: IsJobKey(jobs, part.clips[k].key)
  }

  lemma PartsAreFedByJobs(
    script: Script, jobs: seq<TtsJob>, durations: map<Key, nat>, params: Params, i: nat)
    requires i < |script.segments|
    ensures FedByJobs(PartOf(script, i, jobs, durations, params), jobs)
  {
    var id := script.segments[i].id;
    var mine := SortByPiece(JobsOf(jobs, id));
    SortKeepsJobs(JobsOf(jobs, id));
    JobsOfMembers(jobs, id);
    forall k | 0 <= k < |mine|
      ensures IsJobKey(jobs, mine[k].key)
    {
      assert mine[k] in jobs;
    }
  }

  lemma {:induction false} VoicePlaysJobs(parts: seq<Part>, intro: nat, n: nat, jobs: seq<TtsJob>)
    requires n <= |parts| && forall i | 0 <= i < |parts| :: FedByJobs(parts[i], jobs)
    ensures PlaysJobs(AllVoice(parts, intro, n), jobs)
  {
    if n > 0 {
      VoicePlaysJobs(parts, intro, n - 1, jobs);
      var own := VoiceOf(parts[n - 1], StartOf(parts, intro, n - 1));
      forall k | 0 <= k < |own|
        ensures own[k].track == Voice && IsJobKey(jobs, own[k].key)
      {
      }
      PlaysJobsConcat(AllVoice(parts, intro, n - 1), own, jobs);
    }
  }

  lemma PlaysJobsConcat(a: seq<Placement>, b: seq<Placement>, jobs: seq<TtsJob>)
    requires PlaysJobs(a, jobs) && PlaysJobs(b, jobs)
    ensures PlaysJobs(a + b, jobs)
  {
  }

  /** Every voice placement of a layout plays the clip of some planned job. */
  lemma VoiceKeysArePlanned(
    script: Script, jobs: seq<TtsJob>, durations: map<Key, nat>, params: Params, intro: nat)
    ensures PlaysJobs(AllVoice(PartsOf(script, jobs, durations, params), intro, |script.segments|), jobs)
  {
    forall i | 0 <= i < |script.segments|
      ensures FedByJobs(PartOf(script, i, jobs, durations, params), jobs)
    {
      PartsAreFedByJobs(script, jobs, durations, params, i);
    }
    VoicePlaysJobs(PartsOf(script, jobs, durations, params), intro, |script.segments|, jobs);
  }
}
