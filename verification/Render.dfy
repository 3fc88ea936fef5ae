/** Rendering one chapter through the shared clip cache.  Other jobs may add clips to the cache and evict clips from
    it between any two steps; the provider is deterministic and equal keys mean equal requests. */
module Render {
  import Book
  import opened Common
  import Cache = ClipCache
  import Speech = TtsPlan
  import Layouts = Timeline
  import Effects = TimelineSfx
  import Build = TimelineBuild

  /** Everything a provider can be asked for. */
  datatype Request = Speak(speech: Speech.Request) | Compose(music: Layouts.MusicRequest) | Generate(sfx: Layouts.SfxRequest)

  function KindOf(request: Request): Cache.Kind {
    match request case Speak(_) => Cache.Tts case Compose(_) => Cache.MusicBed case Generate(_) => Cache.Effect
  }

  function KindOfTrack(track: Layouts.Track): Cache.Kind {
    match track case Voice => Cache.Tts case Music => Cache.MusicBed case Sfx => Cache.Effect
  }

  /** The key of a request and the finished clip that the provider makes for it. */
  datatype World = World(key: Request -> string, render: Request -> Cache.Clip)

  ghost predicate Injective(w: World) {
    forall r, s :: w.key(r) == w.key(s) ==> r == s
  }

  function PathFor(w: World, r: Request): Cache.Path {
    Cache.PathOf(KindOf(r), w.key(r))
  }

  /** A readable file holds the clip of the request it is filed under. */
  ghost predicate Holds(files: Cache.Store, w: World, r: Request) {
    var path := PathFor(w, r);
    path in files && files[path].body.Some? ==> files[path].body.value == w.render(r)
  }

  ghost predicate Consistent(files: Cache.Store, w: World) {
    forall r :: Holds(files, w, r)
  }

  /** What the rest of the system does to the store at each step. */
  type Environment = (nat, Cache.Store) -> Cache.Store

  ghost predicate Friendly(env: Environment, w: World) {
    forall n, files :: Consistent(files, w) ==> Consistent(env(n, files), w)
  }

  lemma PutKeepsConsistent(files: Cache.Store, w: World, r: Request, now: int, size: nat)
    requires Injective(w) && Consistent(files, w)
    ensures Consistent(files[PathFor(w, r) := Cache.File(now, size, Some(w.render(r)))], w)
  {
    var files' := files[PathFor(w, r) := Cache.File(now, size, Some(w.render(r)))];
    forall s
      ensures Holds(files', w, s)
    {
      assert Holds(files, w, s);
      if PathFor(w, s) == PathFor(w, r) {
        Cache.PathsAreInjective(KindOf(s), w.key(s), KindOf(r), w.key(r));
      }
    }
  }

  lemma TouchKeepsConsistent(files: Cache.Store, w: World, path: Cache.Path, now: int, touchable: bool)
    requires Consistent(files, w) && path in files
    ensures Consistent(Cache.Touched(files, path, now, touchable), w)
  {
    var files' := Cache.Touched(files, path, now, touchable);
    forall s
      ensures Holds(files', w, s)
    {
      assert Holds(files, w, s);
    }
  }

  lemma DropKeepsConsistent(files: Cache.Store, w: World, gone: set<Cache.Path>)
    requires Consistent(files, w)
    ensures Consistent(files - gone, w)
  {
    forall s
      ensures Holds(files - gone, w, s)
    {
      assert Holds(files, w, s);
    }
  }

  /** Any pruning is a friendly step. */
  lemma {:induction false} EvictionKeepsConsistent(files: Cache.Store, w: World, order: seq<Cache.Entry>)
    requires Consistent(files, w)
    ensures Consistent(Cache.Without(files, order), w)
  {
    if order != [] {
      EvictionKeepsConsistent(files, w, order[..|order| - 1]);
      DropKeepsConsistent(Cache.Without(files, order[..|order| - 1]), w, {order[|order| - 1].path});
    }
  }

  // ----------------------------------------------------------------- the context of a job

  class Context {
    const cache: Cache.ClipCache
    const w: World
    const env: Environment
    const clock: nat -> int
    const touchable: nat -> bool
    const sizeOf: Cache.Clip -> nat
    var step: nat

    constructor (
      cache: Cache.ClipCache, w: World, env: Environment, clock: nat -> int, touchable: nat -> bool,
      sizeOf: Cache.Clip -> nat)
      requires Injective(w) && Friendly(env, w) && Consistent(cache.files, w)
      ensures Valid() && this.cache == cache && this.w == w
    {
      this.cache, this.w, this.env := cache, w, env;
      this.clock, this.touchable, this.sizeOf := clock, touchable, sizeOf;
      step := 0;
    }

    ghost predicate Valid()
      reads this, cache
    {
      Injective(w) && Friendly(env, w) && Consistent(cache.files, w)
    }

    /** The other jobs get their turn. */
    method Elsewhere()
      requires Valid()
      modifies this, cache
      ensures Valid()
    {
      cache.files := env(step, cache.files);
      step := step + 1;
    }

    method Has(kind: Cache.Kind, key: string) returns (hit: bool)
      requires Valid()
      modifies this, cache
      ensures Valid()
    {
      Elsewhere();
      ghost var before := cache.files;
      hit := cache.Has(kind, key, clock(step), touchable(step));
      if hit {
        TouchKeepsConsistent(before, w, Cache.PathOf(kind, key), clock(step), touchable(step));
      }
    }

    /** A clip found under the key of `r` is the clip of `r`. */
    method Get(kind: Cache.Kind, key: string, ghost r: Request) returns (clip: Option<Cache.Clip>)
      requires Valid() && kind == KindOf(r) && key == w.key(r)
      modifies this, cache
      ensures Valid()
      ensures clip.Some? ==> clip.value == w.render(r)
    {
      Elsewhere();
      ghost var before := cache.files;
      clip := cache.Get(kind, key, clock(step), touchable(step));
      assert Holds(before, w, r);
      if clip.Some? {
        TouchKeepsConsistent(before, w, Cache.PathOf(kind, key), clock(step), touchable(step));
      } else {
        DropKeepsConsistent(before, w, {Cache.PathOf(kind, key)});
      }
    }

    /** `_synthesize`, `_compose` and `_generate`. */
    method Produce(r: Request) returns (clip: Cache.Clip)
      requires Valid()
      modifies this, cache
      ensures Valid() && clip == w.render(r)
    {
      clip := w.render(r);
      Elsewhere();
      PutKeepsConsistent(cache.files, w, r, clock(step), sizeOf(clip));
      cache.Put(KindOf(r), w.key(r), clip, clock(step), sizeOf(clip));
    }
  }

  // ----------------------------------------------------------------- speech

  ghost predicate KeyedBy(jobs: seq<Speech.Job>, w: World) {
    forall j | 0 <= j < |jobs| :: jobs[j].key == w.key(Speak(jobs[j].request))
  }

  /** Planned jobs carry the keys of their requests. */
  lemma SegmentJobsAreKeyed(script: seq<Book.Segment>, i: nat, setup: Speech.Setup, w: World)
    requires i < |script| && setup.maxChars >= 1 && forall r :: setup.key(r) == w.key(Speak(r))
    ensures KeyedBy(Speech.SegmentJobs(script, i, setup), w)
  {
    var own := Speech.SegmentJobs(script, i, setup);
    forall p | 0 <= p < |own|
      ensures own[p].key == w.key(Speak(own[p].request))
    {
      assert own[p].key == setup.key(own[p].request);
    }
  }

  lemma KeyedByConcat(a: seq<Speech.Job>, b: seq<Speech.Job>, w: World)
    requires KeyedBy(a, w) && KeyedBy(b, w)
    ensures KeyedBy(a + b, w)
  {
  }

  lemma {:induction false} PlannedJobsAreKeyed(script: seq<Book.Segment>, i: nat, setup: Speech.Setup, w: World)
    requires i <= |script| && setup.maxChars >= 1 && forall r :: setup.key(r) == w.key(Speak(r))
    ensures KeyedBy(Speech.JobsFrom(script, i, setup), w)
    decreases |script| - i
  {
    if i < |script| {
      var own, rest := Speech.SegmentJobs(script, i, setup), Speech.JobsFrom(script, i + 1, setup);
      PlannedJobsAreKeyed(script, i + 1, setup, w);
      SegmentJobsAreKeyed(script, i, setup, w);
      assert Speech.JobsFrom(script, i, setup) == own + rest;
      KeyedByConcat(own, rest, w);
    }
  }

  function LengthOf(w: World, request: Speech.Request): nat {
    w.render(Speak(request)).durationMs
  }

  /** The durations when every request goes to the provider. */
  function CleanDurations(jobs: seq<Speech.Job>, w: World): map<string, nat> {
    if jobs == [] then map[]
    else
      var last := jobs[|jobs| - 1];
      CleanDurations(jobs[..|jobs| - 1], w)[last.key := LengthOf(w, last.request)]
  }

  ghost predicate HoldsLength(durations: map<string, nat>, w: World, request: Speech.Request) {
    var key := w.key(Speak(request));
    key in durations ==> durations[key] == LengthOf(w, request)
  }

  /** Every recorded duration is that of its clip. */
  ghost predicate Truthful(durations: map<string, nat>, w: World) {
    forall request :: HoldsLength(durations, w, request)
  }

  lemma RecordKeepsTruthful(durations: map<string, nat>, w: World, request: Speech.Request)
    requires Injective(w) && Truthful(durations, w)
    ensures Truthful(durations[w.key(Speak(request)) := LengthOf(w, request)], w)
  {
    var durations' := durations[w.key(Speak(request)) := LengthOf(w, request)];
    forall other
      ensures HoldsLength(durations', w, other)
    {
      assert HoldsLength(durations, w, other);
      if w.key(Speak(other)) == w.key(Speak(request)) {
        assert Speak(other) == Speak(request);
      }
    }
  }

  lemma {:induction false} CleanDurationsAreTruthful(jobs: seq<Speech.Job>, w: World)
    requires Injective(w) && KeyedBy(jobs, w)
    ensures Truthful(CleanDurations(jobs, w), w)
  {
    if jobs != [] {
      CleanDurationsAreTruthful(jobs[..|jobs| - 1], w);
      RecordKeepsTruthful(CleanDurations(jobs[..|jobs| - 1], w), w, jobs[|jobs| - 1].request);
    } else {
      forall request
        ensures HoldsLength(map[], w, request)
      {
      }
    }
  }

  /** The durations of the last run whose clips are still there. */
  method KeepPrevious(ctx: Context, previous: map<string, nat>) returns (durations: map<string, nat>)
    requires ctx.Valid() && Truthful(previous, ctx.w)
    modifies ctx, ctx.cache
    ensures ctx.Valid() && Truthful(durations, ctx.w)
  {
    durations := map[];
    var rest := previous.Keys;
    while rest != {}
      invariant ctx.Valid() && rest <= previous.Keys
      invariant forall key | key in durations :: key in previous && durations[key] == previous[key]
      decreases |rest|
    {
      var key :| key in rest;
      rest := rest - {key};
      var hit := ctx.Has(Cache.Tts, key);
      if hit {
        durations := durations[key := previous[key]];
      }
    }
    forall request
      ensures HoldsLength(durations, ctx.w, request)
    {
      assert HoldsLength(previous, ctx.w, request);
    }
  }

  /** Job `j` is accounted for: its duration is known, or its key is still to be rendered. */
  ghost predicate Covered(job: Speech.Job, durations: map<string, nat>, misses: seq<Speech.Job>) {
    job.key in durations || exists m | 0 <= m < |misses| :: misses[m].key == job.key
  }

  /** Look every job up once. */
  method LookUp(ctx: Context, jobs: seq<Speech.Job>, known: map<string, nat>)
    returns (durations: map<string, nat>, misses: seq<Speech.Job>)
    requires ctx.Valid() && KeyedBy(jobs, ctx.w) && Truthful(known, ctx.w)
    modifies ctx, ctx.cache
    ensures ctx.Valid() && Truthful(durations, ctx.w) && KeyedBy(misses, ctx.w)
    ensures forall j | 0 <= j < |jobs| :: Covered(jobs[j], durations, misses)
    ensures forall m, n | 0 <= m < n < |misses| :: misses[m].key != misses[n].key
  {
    durations, misses := known, [];
    var seen: set<string> := {};
    for j := 0 to |jobs|
      invariant ctx.Valid() && Truthful(durations, ctx.w) && KeyedBy(misses, ctx.w)
      invariant forall i | 0 <= i < j :: jobs[i].key in seen
      invariant forall key | key in seen :: key in durations || exists m | 0 <= m < |misses| :: misses[m].key == key
      invariant forall m | 0 <= m < |misses| :: misses[m].key in seen
      invariant forall m, n | 0 <= m < n < |misses| :: misses[m].key != misses[n].key
    {
      var job := jobs[j];
      if job.key in seen {
        continue;
      }
      seen := seen + {job.key};
      if job.key !in durations {
        var cached := ctx.Get(Cache.Tts, job.key, Speak(job.request));
        if cached.None? {
          ghost var before := misses;
          misses := misses + [job];
          assert misses[|before|].key == job.key;
          assert forall m | 0 <= m < |before| :: misses[m] == before[m];
          continue;
        }
        RecordKeepsTruthful(durations, ctx.w, job.request);
        durations := durations[job.key := cached.value.durationMs];
      }
    }
  }

  function UpTo(n: nat): (r: set<nat>)
    ensures forall m: nat :: m in r <==> m < n
  {
    if n == 0 then {} else UpTo(n - 1) + {n - 1}
  }

  /** Synthesize the misses; they complete in any order. */
  method SynthesizeAll(ctx: Context, misses: seq<Speech.Job>, known: map<string, nat>) returns (durations: map<string, nat>)
    requires ctx.Valid() && KeyedBy(misses, ctx.w) && Truthful(known, ctx.w)
    modifies ctx, ctx.cache
    ensures ctx.Valid() && Truthful(durations, ctx.w)
    ensures forall key | key in known :: key in durations
    ensures forall m | 0 <= m < |misses| :: misses[m].key in durations
  {
    durations := known;
    var rest := UpTo(|misses|);
    while rest != {}
      invariant ctx.Valid() && Truthful(durations, ctx.w)
      invariant forall m: nat :: m in rest ==> m < |misses|
      invariant forall key | key in known :: key in durations
      invariant forall m: nat | m < |misses| && m !in rest :: misses[m].key in durations
      decreases |rest|
    {
      var m: nat :| m in rest;
      rest := rest - {m};
      var clip := ctx.Produce(Speak(misses[m].request));
      RecordKeepsTruthful(durations, ctx.w, misses[m].request);
      durations := durations[misses[m].key := clip.durationMs];
    }
  }

  /** `_render_tts`: whatever the cache holds, loses or gains meanwhile, the durations are the clean ones. */
  method RenderTts(ctx: Context, jobs: seq<Speech.Job>, previous: map<string, nat>) returns (result: map<string, nat>)
    requires ctx.Valid() && KeyedBy(jobs, ctx.w) && Truthful(previous, ctx.w)
    modifies ctx, ctx.cache
    ensures ctx.Valid() && result == CleanDurations(jobs, ctx.w) && Truthful(result, ctx.w)
  {
    var durations := KeepPrevious(ctx, previous);
    var misses;
    durations, misses := LookUp(ctx, jobs, durations);
    var final := SynthesizeAll(ctx, misses, durations);
    result := map[];
    for j := 0 to |jobs|
      invariant result == CleanDurations(jobs[..j], ctx.w)
    {
      assert Covered(jobs[j], durations, misses);
      assert HoldsLength(final, ctx.w, jobs[j].request);
      assert jobs[..j + 1][..j] == jobs[..j];
      result := result[jobs[j].key := final[jobs[j].key]];
    }
    assert jobs[..|jobs|] == jobs;
    CleanDurationsAreTruthful(jobs, ctx.w);
  }

  // ----------------------------------------------------------------- music and sound effects

  /** `_render_music`, `_render_sfx`: render what is missing.  A clip may be evicted again right away. */
  method RenderMissing(ctx: Context, requests: map<string, Request>)
    requires ctx.Valid() && Filed(requests, ctx.w)
    modifies ctx, ctx.cache
    ensures ctx.Valid()
  {
    var rest := requests.Keys;
    while rest != {}
      invariant ctx.Valid() && rest <= requests.Keys
      decreases |rest|
    {
      var key :| key in rest;
      rest := rest - {key};
      var hit := ctx.Has(KindOf(requests[key]), key);
      if !hit {
        var _ := ctx.Produce(requests[key]);
      }
    }
  }

  // ----------------------------------------------------------------- mixing

  datatype RenderError = ClipMissing(key: string)

  /** The request behind a placement. */
  ghost predicate AsksFor(p: Layouts.Placement, w: World, r: Request) {
    KindOf(r) == KindOfTrack(p.track) && w.key(r) == p.key
  }

  /** What the mixer gets for a placement when there is no cache: the provider's clip for its request. */
  ghost predicate IsCleanClip(clip: Cache.Clip, p: Layouts.Placement, w: World) {
    exists r :: AsksFor(p, w, r) && clip == w.render(r)
  }

  /** Requests filed under their own keys. */
  ghost predicate Filed(requests: map<string, Request>, w: World) {
    forall key | key in requests :: w.key(requests[key]) == key
  }

  /** `setdefault` for each request. */
  function Default(requests: map<string, Request>, key: string, request: Request): map<string, Request> {
    if key in requests then requests else requests[key := request]
  }

  function SpeechRequests(jobs: seq<Speech.Job>): map<string, Request> {
    if jobs == [] then map[]
    else Default(SpeechRequests(jobs[..|jobs| - 1]), jobs[|jobs| - 1].key, Speak(jobs[|jobs| - 1].request))
  }

  lemma {:induction false} SpeechRequestsAreFiled(jobs: seq<Speech.Job>, w: World)
    requires KeyedBy(jobs, w)
    ensures Filed(SpeechRequests(jobs), w)
    ensures forall j | 0 <= j < |jobs| :: jobs[j].key in SpeechRequests(jobs)
  {
    if jobs != [] {
      SpeechRequestsAreFiled(jobs[..|jobs| - 1], w);
    }
  }

  function MusicRequests(jobs: map<string, Layouts.MusicRequest>): map<string, Request> {
    map key | key in jobs :: Compose(jobs[key])
  }

  function SfxRequests(jobs: map<string, Layouts.SfxRequest>): map<string, Request> {
    map key | key in jobs :: Generate(jobs[key])
  }

  /** Earlier entries win, as with `setdefault` in this order. */
  function Regenerate(jobs: seq<Speech.Job>, layout: Build.Layout): map<string, Request> {
    SfxRequests(layout.sfxJobs) + MusicRequests(layout.musicJobs) + SpeechRequests(jobs)
  }

  /** `{p.clip_key: TRACK_KIND[p.track]}`: later placements win. */
  function Kinds(ps: seq<Layouts.Placement>): map<string, Cache.Kind> {
    if ps == [] then map[] else Kinds(ps[..|ps| - 1])[ps[|ps| - 1].key := KindOfTrack(ps[|ps| - 1].track)]
  }

  /** Every placement asks for something that can be regenerated. */
  ghost predicate Served(ps: seq<Layouts.Placement>, regenerate: map<string, Request>, w: World) {
    forall k | 0 <= k < |ps| ::
      && ps[k].key in regenerate && w.key(regenerate[ps[k].key]) == ps[k].key
      && KindOf(regenerate[ps[k].key]) == KindOfTrack(ps[k].track)
  }

  /** Keys tell kinds apart, so the kind found for a key is right although tracks share one table. */
  lemma {:induction false} KindsAreRight(ps: seq<Layouts.Placement>, regenerate: map<string, Request>, w: World)
    requires Served(ps, regenerate, w)
    ensures forall k | 0 <= k < |ps| :: ps[k].key in Kinds(ps) && Kinds(ps)[ps[k].key] == KindOf(regenerate[ps[k].key])
    ensures forall key | key in Kinds(ps) :: key in regenerate && Kinds(ps)[key] == KindOf(regenerate[key])
  {
    if ps != [] {
      KindsAreRight(ps[..|ps| - 1], regenerate, w);
    }
  }

  /** `load_clip`. */
  method LoadClip(ctx: Context, kind: Cache.Kind, key: string, regenerate: map<string, Request>, ghost r: Request)
    returns (result: Result<Cache.Clip, RenderError>)
    requires ctx.Valid() && kind == KindOf(r) && key == ctx.w.key(r) && Filed(regenerate, ctx.w)
    modifies ctx, ctx.cache
    ensures ctx.Valid()
    ensures result.Ok? ==> result.value == ctx.w.render(r)
    ensures key in regenerate ==> result.Ok?
  {
    var clip := ctx.Get(kind, key, r);
    if clip.Some? {
      return Ok(clip.value);
    }
    if key !in regenerate {
      return Err(ClipMissing(key));
    }
    assert ctx.w.key(regenerate[key]) == ctx.w.key(r);
    var made := ctx.Produce(regenerate[key]);
    result := Ok(made);
  }

  /** The clips that the mixer loads, one for each placement; no load fails. */
  method LoadAll(ctx: Context, ps: seq<Layouts.Placement>, regenerate: map<string, Request>)
    returns (clips: seq<Cache.Clip>)
    requires ctx.Valid() && Filed(regenerate, ctx.w) && Served(ps, regenerate, ctx.w)
    modifies ctx, ctx.cache
    ensures ctx.Valid()
    ensures |clips| == |ps| && forall k | 0 <= k < |ps| :: IsCleanClip(clips[k], ps[k], ctx.w)
  {
    var kinds := Kinds(ps);
    KindsAreRight(ps, regenerate, ctx.w);
    clips := [];
    for k := 0 to |ps|
      invariant ctx.Valid()
      invariant |clips| == k && forall j | 0 <= j < k :: IsCleanClip(clips[j], ps[j], ctx.w)
    {
      ghost var r := regenerate[ps[k].key];
      var clip := LoadClip(ctx, kinds[ps[k].key], ps[k].key, regenerate, r);
      assert AsksFor(ps[k], ctx.w, r);
      clips := clips + [clip.value];
    }
  }

  // ----------------------------------------------------------------- one chapter

  /** The timeline computes its keys with the same key function. */
  ghost predicate SameKeys(params: Layouts.Params, w: World) {
    && (forall r :: params.sfxKey(r) == w.key(Generate(r)))
    && (forall r :: params.musicKey(r) == w.key(Compose(r)))
  }

  function PlayJobs(jobs: seq<Speech.Job>): (r: seq<Build.TtsJob>)
    ensures |r| == |jobs| && forall j | 0 <= j < |jobs| :: r[j].key == jobs[j].key
  {
    seq(|jobs|, j requires 0 <= j < |jobs| => Build.TtsJob(jobs[j].segmentId, jobs[j].piece, jobs[j].key))
  }

  /** The layout comes from the voice parts, the effects and the beds of this script. */
  ghost predicate LaidOut(
    layout: Build.Layout, script: Book.Script, jobs: seq<Speech.Job>, durations: map<string, nat>,
    params: Layouts.Params, ctx: Effects.Context)
  {
    && Build.VoiceOk(layout, Build.PartsOf(script, PlayJobs(jobs), durations, params), Build.IntroMs(params))
    && Build.SfxOk(layout, script, ctx) && Build.MusicOk(layout, script, ctx) && ctx.params == params
  }

  lemma VoiceIsServed(script: Book.Script, jobs: seq<Speech.Job>, durations: map<string, nat>, params: Layouts.Params,
                      intro: nat, w: World)
    requires KeyedBy(jobs, w)
    ensures
      var parts := Build.PartsOf(script, PlayJobs(jobs), durations, params);
      Served(Layouts.AllVoice(parts, intro, |parts|), SpeechRequests(jobs), w)
  {
    var parts := Build.PartsOf(script, PlayJobs(jobs), durations, params);
    var voice := Layouts.AllVoice(parts, intro, |parts|);
    Build.VoiceKeysArePlanned(script, PlayJobs(jobs), durations, params, intro);
    SpeechRequestsAreFiled(jobs, w);
    SpeechRequestsSpeak(jobs);
    PlannedVoiceIsServed(voice, jobs, w);
  }

  lemma PlannedVoiceIsServed(voice: seq<Layouts.Placement>, jobs: seq<Speech.Job>, w: World)
    requires KeyedBy(jobs, w) && Build.PlaysJobs(voice, PlayJobs(jobs))
    ensures Served(voice, SpeechRequests(jobs), w)
  {
    SpeechRequestsAreFiled(jobs, w);
    SpeechRequestsSpeak(jobs);
    forall k | 0 <= k < |voice|
      ensures voice[k].key in SpeechRequests(jobs) && voice[k].track == Layouts.Voice
    {
      assert Build.IsJobKey(PlayJobs(jobs), voice[k].key);
      var j :| 0 <= j < |jobs| && PlayJobs(jobs)[j].key == voice[k].key;
      assert jobs[j].key == voice[k].key;
    }
  }

  lemma {:induction false} SpeechRequestsSpeak(jobs: seq<Speech.Job>)
    ensures forall key | key in SpeechRequests(jobs) :: SpeechRequests(jobs)[key].Speak?
  {
    if jobs != [] {
      SpeechRequestsSpeak(jobs[..|jobs| - 1]);
    }
  }

  lemma EffectsAreServed(layout: Build.Layout, script: Book.Script, ctx: Effects.Context, w: World)
    requires Build.SfxOk(layout, script, ctx) && SameKeys(ctx.params, w)
    ensures Served(layout.sfx, SfxRequests(layout.sfxJobs), w) && Filed(SfxRequests(layout.sfxJobs), w)
  {
    Effects.PlacementsHaveRequests(script.sfx, ctx);
    var state := Effects.PlaceAll(script.sfx, ctx);
    forall k | 0 <= k < |layout.sfx|
      ensures layout.sfx[k].track == Layouts.Sfx && layout.sfx[k].key in layout.sfxJobs
      ensures w.key(Generate(layout.sfxJobs[layout.sfx[k].key])) == layout.sfx[k].key
    {
      assert Effects.HasRequest(state.jobs, layout.sfx[k].key, ctx);
    }
    forall key | key in layout.sfxJobs
      ensures w.key(Generate(layout.sfxJobs[key])) == key
    {
      assert Effects.HasRequest(state.jobs, key, ctx);
    }
  }

  lemma BedsAreServed(layout: Build.Layout, script: Book.Script, ctx: Effects.Context, w: World)
    requires Build.MusicOk(layout, script, ctx) && SameKeys(ctx.params, w)
    ensures Served(layout.music, MusicRequests(layout.musicJobs), w) && Filed(MusicRequests(layout.musicJobs), w)
  {
    forall key | key in layout.musicJobs
      ensures w.key(Compose(layout.musicJobs[key])) == key
    {
      assert Build.HasMusicRequest(layout.musicJobs, key, ctx.params);
    }
    forall k | 0 <= k < |layout.music|
      ensures layout.music[k].key in layout.musicJobs && layout.music[k].track == Layouts.Music
    {
      assert Build.HasMusicRequest(layout.musicJobs, layout.music[k].key, ctx.params);
    }
  }

  /** Requests found in one table stay found when tables with other kinds of requests come first. */
  lemma ServedInUnion(ps: seq<Layouts.Placement>, mine: map<string, Request>, all: map<string, Request>, w: World)
    requires Injective(w) && Served(ps, mine, w) && Filed(all, w) && mine.Keys <= all.Keys
    ensures Served(ps, all, w)
  {
    forall k | 0 <= k < |ps|
      ensures all[ps[k].key] == mine[ps[k].key]
    {
      assert w.key(all[ps[k].key]) == w.key(mine[ps[k].key]);
    }
  }

  lemma ServedConcat(a: seq<Layouts.Placement>, b: seq<Layouts.Placement>, all: map<string, Request>, w: World)
    requires Served(a, all, w) && Served(b, all, w)
    ensures Served(a + b, all, w)
  {
  }

  /** Every placement of a layout has its request in the table, so no clip can be missing. */
  lemma LayoutIsServed(
    layout: Build.Layout, script: Book.Script, jobs: seq<Speech.Job>, durations: map<string, nat>,
    params: Layouts.Params, ctx: Effects.Context, w: World)
    requires Injective(w) && KeyedBy(jobs, w) && SameKeys(params, w) && LaidOut(layout, script, jobs, durations, params, ctx)
    ensures Filed(Regenerate(jobs, layout), w) && Served(layout.Placements(), Regenerate(jobs, layout), w)
  {
    var all := Regenerate(jobs, layout);
    VoiceIsServed(script, jobs, durations, params, Build.IntroMs(params), w);
    EffectsAreServed(layout, script, ctx, w);
    BedsAreServed(layout, script, ctx, w);
    SpeechRequestsAreFiled(jobs, w);
    assert Filed(all, w);
    ServedInUnion(layout.voice, SpeechRequests(jobs), all, w);
    ServedInUnion(layout.sfx, SfxRequests(layout.sfxJobs), all, w);
    ServedInUnion(layout.music, MusicRequests(layout.musicJobs), all, w);
    ServedConcat(layout.voice, layout.sfx, all, w);
    ServedConcat(layout.voice + layout.sfx, layout.music, all, w);
  }

  /** Music, effects and the mixer's loads for a finished timeline. */
  method RenderLayout(
    ctx: Context, ghost script: Book.Script, jobs: seq<Speech.Job>, ghost params: Layouts.Params, layout: Build.Layout,
    ghost found: Effects.Context)
    returns (clips: seq<Cache.Clip>)
    requires ctx.Valid() && KeyedBy(jobs, ctx.w) && SameKeys(params, ctx.w)
    requires LaidOut(layout, script, jobs, CleanDurations(jobs, ctx.w), params, found)
    modifies ctx, ctx.cache
    ensures ctx.Valid() && |clips| == |layout.Placements()|
    ensures forall k | 0 <= k < |clips| :: IsCleanClip(clips[k], layout.Placements()[k], ctx.w)
  {
    EffectsAreServed(layout, script, found, ctx.w);
    BedsAreServed(layout, script, found, ctx.w);
    LayoutIsServed(layout, script, jobs, CleanDurations(jobs, ctx.w), params, found, ctx.w);
    RenderMissing(ctx, MusicRequests(layout.musicJobs));
    RenderMissing(ctx, SfxRequests(layout.sfxJobs));
    clips := LoadAll(ctx, layout.Placements(), Regenerate(jobs, layout));
  }

  /** The key functions of planning and of the timeline are those of the world. */
  ghost predicate UsesKeys(setup: Speech.Setup, params: Layouts.Params, w: World) {
    setup.maxChars >= 1 && SameKeys(params, w) && forall r :: setup.key(r) == w.key(Speak(r))
  }

  /** One chapter, from the script to the clips: what the mixer gets is what it would get with no cache. */
  method RenderChapter(
    ctx: Context, script: Book.Script, setup: Speech.Setup, previous: map<string, nat>, params: Layouts.Params)
    returns (durations: map<string, nat>, layout: Build.Layout, clips: seq<Cache.Clip>, ghost found: Effects.Context)
    requires ctx.Valid() && Truthful(previous, ctx.w) && UsesKeys(setup, params, ctx.w)
    modifies ctx, ctx.cache
    ensures ctx.Valid() && Truthful(durations, ctx.w)
    ensures
      var jobs := Speech.JobsFrom(script.segments, 0, setup);
      durations == CleanDurations(jobs, ctx.w) && LaidOut(layout, script, jobs, durations, params, found)
    ensures |clips| == |layout.Placements()|
    ensures forall k | 0 <= k < |clips| :: IsCleanClip(clips[k], layout.Placements()[k], ctx.w)
  {
    var jobs := Speech.PlanTts(script.segments, setup);
    PlannedJobsAreKeyed(script.segments, 0, setup, ctx.w);
    durations := RenderTts(ctx, jobs, previous);
    layout, found := Build.BuildTimeline(script, PlayJobs(jobs), durations, params);
    clips := RenderLayout(ctx, script, jobs, params, layout, found);
  }

  /** The clean clip of a placement is unique. */
  lemma CleanClipIsUnique(a: Cache.Clip, b: Cache.Clip, p: Layouts.Placement, w: World)
    requires Injective(w) && IsCleanClip(a, p, w) && IsCleanClip(b, p, w)
    ensures a == b
  {
    var r :| AsksFor(p, w, r) && a == w.render(r);
    var s :| AsksFor(p, w, s) && b == w.render(s);
    assert w.key(r) == w.key(s);
  }
}
