/** The sound-effect half of `build_timeline`: anchors, impacts, and ambient beds that are extended instead of
    being stacked when the same bed is still playing. */
module TimelineSfx {
  import opened Book
  import opened Common
  import opened Timeline

  // ----------------------------------------------------------------- anchors

  /** Python's `round` of a real: nearest integer, ties to even. */
  function RoundHalfEven(x: real): int {
    var f := x.Floor;
    var d := x - f as real;
    if d < 0.5 then f else if d > 0.5 then f + 1 else if f % 2 == 0 then f else f + 1
  }

  lemma RoundStaysBetween(x: real, low: int, high: int)
    requires low as real <= x <= high as real
    ensures low <= RoundHalfEven(x) <= high
  {
    assert x.Floor <= high;
    if x.Floor == high {
      assert x == high as real;
    }
  }

  /** Share of the segment that lies before the anchor, in [0, 1]. */
  function AnchorFraction(cue: SfxCue, seg: Segment): (f: real)
    ensures 0.0 <= f <= 1.0
  {
    if |seg.text| == 0 then 0.0
    else if cue.anchorOffset >= |seg.text| then 1.0
    else
      FractionInRange(cue.anchorOffset, |seg.text|);
      cue.anchorOffset as real / |seg.text| as real
  }

  lemma FractionInRange(a: nat, b: nat)
    requires a < b
    ensures 0.0 <= a as real / b as real <= 1.0
  {
    var q, d := a as real / b as real, b as real;
    assert q * d == a as real;
    SignOfProduct(q, d);
    SignOfProduct(1.0 - q, d);
    assert (1.0 - q) * d == d - a as real;
  }

  lemma SignOfProduct(x: real, y: real)
    requires y > 0.0
    ensures x < 0.0 ==> x * y < 0.0
  {
  }

  function ShareOf(whole: real, f: real): real {
    whole * f
  }

  lemma ShareInside(whole: real, f: real)
    requires whole >= 0.0 && 0.0 <= f <= 1.0
    ensures 0.0 <= ShareOf(whole, f) <= whole
  {
    ScaledBetween(whole, f);
  }

  /** The whole millisecond `part` after `start`. */
  function MsAfter(start: int, part: real): int {
    RoundHalfEven(start as real + part)
  }

  lemma MsAfterInside(start: int, end: int, part: real)
    requires 0.0 <= part <= (end - start) as real
    ensures start <= MsAfter(start, part) <= end
  {
    RoundStaysBetween(start as real + part, start, end);
  }

  /** `_anchor_ms`. */
  function AnchorMs(cue: SfxCue, timing: Timing, seg: Segment): int {
    MsAfter(timing.start, ShareOf((timing.end - timing.start) as real, AnchorFraction(cue, seg)))
  }

  /** The anchor lies inside the segment's timing. */
  lemma AnchorInsideSegment(cue: SfxCue, timing: Timing, seg: Segment)
    requires timing.start <= timing.end
    ensures timing.start <= AnchorMs(cue, timing, seg) <= timing.end
  {
    ShareInside((timing.end - timing.start) as real, AnchorFraction(cue, seg));
    MsAfterInside(timing.start, timing.end, ShareOf((timing.end - timing.start) as real, AnchorFraction(cue, seg)));
  }

  // ----------------------------------------------------------------- one cue

  /** What placing a cue looks up. */
  datatype Context = Context(
    segs: map<string, Segment>, timings: map<string, Timing>, blocking: map<string, nat>, params: Params)

  ghost predicate ValidContext(ctx: Context) {
    && ctx.segs.Keys == ctx.timings.Keys
    && forall id | id in ctx.timings :: ctx.timings[id].start <= ctx.timings[id].end
  }

  predicate Known(cue: SfxCue, ctx: Context) {
    ctx.params.sfxEnabled && cue.spanId in ctx.segs && cue.spanId in ctx.timings
  }

  /** `sfx_request`. */
  function RequestOf(cue: SfxCue, ctx: Context): SfxRequest {
    SfxRequest(
      cue.description, cue.kind,
      if cue.kind == Ambient then Min(AMBIENT_REQUEST_MS, ctx.params.sfxMaxMs)
      else Clamp(cue.durationMs, SFX_MIN_REQUEST_MS, ctx.params.sfxMaxMs),
      cue.kind == Ambient, cue.intensity, ctx.params.sfxSeed(cue.description))
  }

  function KeyOf(cue: SfxCue, ctx: Context): Key {
    ctx.params.sfxKey(RequestOf(cue, ctx))
  }

  /** Where the cue's segment, and its scene for an ambient cue, ends. */
  function EndTiming(cue: SfxCue, ctx: Context): Timing
    requires Known(cue, ctx)
  {
    match cue.endSpanId
    case Some(id) => if id in ctx.timings then ctx.timings[id] else ctx.timings[cue.spanId]
    case None => ctx.timings[cue.spanId]
  }

  function AmbientStart(cue: SfxCue, ctx: Context): nat
    requires Known(cue, ctx)
  {
    Max(0, AnchorMs(cue, ctx.timings[cue.spanId], ctx.segs[cue.spanId]) - AMBIENT_LEAD_MS)
  }

  function AmbientEnd(cue: SfxCue, ctx: Context): nat
    requires Known(cue, ctx)
  {
    Max(AmbientStart(cue, ctx), EndTiming(cue, ctx).end)
  }

  function ImpactStart(cue: SfxCue, ctx: Context): nat
    requires Known(cue, ctx)
  {
    if cue.id in ctx.blocking then ctx.blocking[cue.id]
    else Max(0, AnchorMs(cue, ctx.timings[cue.spanId], ctx.segs[cue.spanId]) - SFX_ONSET_LEAD_MS)
  }

  function ImpactOf(cue: SfxCue, ctx: Context): Placement
    requires Known(cue, ctx)
  {
    var start := ImpactStart(cue, ctx);
    Placement(Sfx, KeyOf(cue, ctx), cue.id, start, start + RequestOf(cue, ctx).durationMs, false)
  }

  function AmbientOf(cue: SfxCue, ctx: Context): Placement
    requires Known(cue, ctx)
  {
    Placement(Sfx, KeyOf(cue, ctx), cue.id, AmbientStart(cue, ctx), AmbientEnd(cue, ctx), true)
  }

  // ----------------------------------------------------------------- all cues

  /** `sfx`, `active_ambient` and `sfx_jobs`. */
  datatype State = State(placed: seq<Placement>, active: map<Key, nat>, jobs: map<Key, SfxRequest>)

  predicate Runs(s: State, key: Key, start: int) {
    key in s.active && s.active[key] < |s.placed| && s.placed[s.active[key]].end >= start
  }

  /** The state after one more cue. */
  function Place(s: State, cue: SfxCue, ctx: Context): State {
    if !Known(cue, ctx) then s
    else
      var key := KeyOf(cue, ctx);
      var jobs := if key in s.jobs then s.jobs else s.jobs[key := RequestOf(cue, ctx)];
      if cue.kind == Impact then State(s.placed + [ImpactOf(cue, ctx)], s.active, jobs)
      else if Runs(s, key, AmbientStart(cue, ctx)) then
        var i := s.active[key];
        State(s.placed[i := s.placed[i].(end := Max(s.placed[i].end, AmbientEnd(cue, ctx)))], s.active, jobs)
      else State(s.placed + [AmbientOf(cue, ctx)], s.active[key := |s.placed|], jobs)
  }

  const NOTHING := State([], map[], map[])

  function PlaceAll(cues: seq<SfxCue>, ctx: Context): State {
    if cues == [] then NOTHING else Place(PlaceAll(cues[..|cues| - 1], ctx), cues[|cues| - 1], ctx)
  }

  /** The sound-effect loop of `build_timeline`. */
  method PlaceCues(cues: seq<SfxCue>, ctx: Context) returns (placed: seq<Placement>, jobs: map<Key, SfxRequest>)
    ensures placed == PlaceAll(cues, ctx).placed && jobs == PlaceAll(cues, ctx).jobs
  {
    placed, jobs := [], map[];
    var active: map<Key, nat> := map[];
    for c := 0 to |cues|
      invariant State(placed, active, jobs) == PlaceAll(cues[..c], ctx)
    {
      var cue := cues[c];
      assert cues[..c + 1][..c] == cues[..c];
      if !Known(cue, ctx) {
        continue;
      }
      var request := RequestOf(cue, ctx);
      var key := ctx.params.sfxKey(request);
      if key !in jobs {
        jobs := jobs[key := request];
      }
      if cue.kind == Ambient {
        var start, end := AmbientStart(cue, ctx), AmbientEnd(cue, ctx);
        if key in active && active[key] < |placed| && placed[active[key]].end >= start {
          var running := active[key];
          placed := placed[running := placed[running].(end := Max(placed[running].end, end))];
          continue;
        }
        active := active[key := |placed|];
        placed := placed + [Placement(Sfx, key, cue.id, start, end, true)];
        continue;
      }
      var start := if cue.id in ctx.blocking then ctx.blocking[cue.id]
        else Max(0, AnchorMs(cue, ctx.timings[cue.spanId], ctx.segs[cue.spanId]) - SFX_ONSET_LEAD_MS);
      placed := placed + [Placement(Sfx, key, cue.id, start, start + request.durationMs, false)];
    }
    assert cues[..|cues|] == cues;
  }

  // ----------------------------------------------------------------- ambient beds never overlap

  /** The beds of one key come in order and apart, `active` points at the last one, and the index bound that the
      loop tests always holds. */
  ghost predicate Apart(s: State) {
    && (forall key | key in s.active ::
         s.active[key] < |s.placed| && s.placed[s.active[key]].key == key && s.placed[s.active[key]].looped)
    && (forall i | 0 <= i < |s.placed| :: s.placed[i].start <= s.placed[i].end && s.placed[i].start >= 0)
    && (forall i | 0 <= i < |s.placed| && s.placed[i].looped ::
         s.placed[i].key in s.active && i <= s.active[s.placed[i].key])
    && (forall i, j | 0 <= i < j < |s.placed| && s.placed[i].looped && s.placed[j].looped
          && s.placed[i].key == s.placed[j].key :: s.placed[i].end < s.placed[j].start)
  }

  lemma AppendImpact(s: State, p: Placement)
    requires Apart(s) && !p.looped && 0 <= p.start <= p.end
    ensures Apart(s.(placed := s.placed + [p]))
  {
  }

  lemma AppendBed(s: State, p: Placement)
    requires Apart(s) && p.looped && 0 <= p.start <= p.end && !Runs(s, p.key, p.start)
    ensures Apart(s.(placed := s.placed + [p], active := s.active[p.key := |s.placed|]))
  {
    forall i: nat | i < |s.placed| && s.placed[i].looped && s.placed[i].key == p.key
      ensures s.placed[i].end < p.start
    {
      EarlierBedsAreOver(s, p, i);
    }
  }

  lemma EarlierBedsAreOver(s: State, p: Placement, i: nat)
    requires Apart(s) && !Runs(s, p.key, p.start)
    requires i < |s.placed| && s.placed[i].looped && s.placed[i].key == p.key
    ensures s.placed[i].end < p.start
  {
    var last := s.active[p.key];
    assert i <= last && s.placed[last].end < p.start;
    if i < last {
      assert s.placed[i].end < s.placed[last].start <= s.placed[last].end;
    }
  }

  lemma ExtendBed(s: State, key: Key, end: int)
    requires Apart(s) && key in s.active
    ensures
      var i := s.active[key];
      Apart(s.(placed := s.placed[i := s.placed[i].(end := Max(s.placed[i].end, end))]))
  {
  }

  lemma PlaceKeepsApart(s: State, cue: SfxCue, ctx: Context)
    requires Apart(s)
    ensures Apart(Place(s, cue, ctx))
  {
    if Known(cue, ctx) {
      var key := KeyOf(cue, ctx);
      var filed := s.(jobs := if key in s.jobs then s.jobs else s.jobs[key := RequestOf(cue, ctx)]);
      ApartIgnoresJobs(s, filed.jobs);
      if cue.kind == Impact {
        AppendImpact(filed, ImpactOf(cue, ctx));
      } else if Runs(s, key, AmbientStart(cue, ctx)) {
        ExtendBed(filed, key, AmbientEnd(cue, ctx));
      } else {
        AppendBed(filed, AmbientOf(cue, ctx));
      }
    }
  }

  lemma ApartIgnoresJobs(s: State, jobs: map<Key, SfxRequest>)
    requires Apart(s)
    ensures Apart(s.(jobs := jobs))
  {
  }

  /** Placements of one ambient bed are pairwise disjoint, whatever the order of the cues. */
  lemma {:induction false} AmbientBedsAreDisjoint(cues: seq<SfxCue>, ctx: Context)
    ensures Apart(PlaceAll(cues, ctx))
  {
    if cues != [] {
      AmbientBedsAreDisjoint(cues[..|cues| - 1], ctx);
      PlaceKeepsApart(PlaceAll(cues[..|cues| - 1], ctx), cues[|cues| - 1], ctx);
    }
  }

  // ----------------------------------------------------------------- what the beds cover

  predicate PlaysBed(p: Placement, key: Key, t: int) {
    p.looped && p.key == key && p.start <= t <= p.end
  }

  ghost predicate Plays(s: State, key: Key, t: int) {
    exists i | 0 <= i < |s.placed| :: PlaysBed(s.placed[i], key, t)
  }

  /** The cue asks for `key` at time `t`. */
  predicate Asks(cue: SfxCue, ctx: Context, key: Key, t: int) {
    && Known(cue, ctx) && cue.kind == Ambient && KeyOf(cue, ctx) == key
    && AmbientStart(cue, ctx) <= t <= AmbientEnd(cue, ctx)
  }

  ghost predicate Requested(cues: seq<SfxCue>, ctx: Context, key: Key, t: int) {
    exists c | 0 <= c < |cues| :: Asks(cues[c], ctx, key, t)
  }

  /** The cue does not start before the other one, if both ask for the same bed. */
  predicate NotBefore(earlier: SfxCue, later: SfxCue, ctx: Context) {
    (Known(earlier, ctx) && Known(later, ctx) && earlier.kind == Ambient && later.kind == Ambient
     && KeyOf(earlier, ctx) == KeyOf(later, ctx)) ==> AmbientStart(earlier, ctx) <= AmbientStart(later, ctx)
  }

  /** Cues of the same bed are listed with nondecreasing starts. */
  ghost predicate StartsInOrder(cues: seq<SfxCue>, ctx: Context) {
    forall c, d | 0 <= c < d < |cues| :: NotBefore(cues[c], cues[d], ctx)
  }

  /** The bed starts where some cue asked it to. */
  ghost predicate StartsAsAsked(p: Placement, cues: seq<SfxCue>, ctx: Context) {
    p.looped ==> exists c | 0 <= c < |cues| :: Asks(cues[c], ctx, p.key, p.start) && p.start == AmbientStart(cues[c], ctx)
  }

  lemma {:induction false} BedsStartAsAsked(cues: seq<SfxCue>, ctx: Context, i: nat)
    requires i < |PlaceAll(cues, ctx).placed|
    ensures StartsAsAsked(PlaceAll(cues, ctx).placed[i], cues, ctx)
  {
    var front, cue := cues[..|cues| - 1], cues[|cues| - 1];
    var s := PlaceAll(front, ctx);
    var p := PlaceAll(cues, ctx).placed[i];
    if i < |s.placed| {
      BedsStartAsAsked(front, ctx, i);
      if p.looped {
        var c :| 0 <= c < |front| && Asks(front[c], ctx, p.key, p.start) && p.start == AmbientStart(front[c], ctx);
        assert Asks(cues[c], ctx, p.key, p.start);
      }
    } else if p.looped {
      assert Asks(cue, ctx, p.key, p.start);
    }
  }

  lemma AppendCovers(s: State, p: Placement, active: map<Key, nat>, jobs: map<Key, SfxRequest>, key: Key, t: int)
    ensures Plays(State(s.placed + [p], active, jobs), key, t) <==> Plays(s, key, t) || PlaysBed(p, key, t)
  {
    var more := s.placed + [p];
    if i :| 0 <= i < |s.placed| && PlaysBed(s.placed[i], key, t) {
      assert PlaysBed(more[i], key, t);
    }
    if PlaysBed(p, key, t) {
      assert PlaysBed(more[|s.placed|], key, t);
    }
  }

  /** Extending bed `j` adds exactly the time up to the new end. */
  lemma ExtendCovers(s: State, j: nat, end: int, jobs: map<Key, SfxRequest>, key: Key, t: int)
    requires j < |s.placed|
    ensures
      var longer := s.placed[j].(end := Max(s.placed[j].end, end));
      Plays(State(s.placed[j := longer], s.active, jobs), key, t) <==> Plays(s, key, t) || PlaysBed(longer, key, t)
  {
    var longer := s.placed[j].(end := Max(s.placed[j].end, end));
    var more := s.placed[j := longer];
    if i :| 0 <= i < |s.placed| && PlaysBed(s.placed[i], key, t) {
      assert PlaysBed(more[i], key, t);
    }
    if PlaysBed(longer, key, t) {
      assert PlaysBed(more[j], key, t);
    }
    if i :| 0 <= i < |more| && PlaysBed(more[i], key, t) {
      assert i == j || PlaysBed(s.placed[i], key, t);
    }
  }

  /** The cue adds time `t`: it asks for it, and does not join a bed that started after it. */
  predicate Adds(s: State, cue: SfxCue, ctx: Context, key: Key, t: int) {
    && Asks(cue, ctx, key, t)
    && (Runs(s, key, AmbientStart(cue, ctx)) ==> s.placed[s.active[key]].start <= t)
  }

  /** How one cue changes what plays: it adds its window, except the part before a bed that it joins. */
  lemma PlaceCovers(s: State, cue: SfxCue, ctx: Context, key: Key, t: int)
    requires Apart(s)
    ensures Plays(Place(s, cue, ctx), key, t) <==> Plays(s, key, t) || Adds(s, cue, ctx, key, t)
  {
    if Known(cue, ctx) {
      var mine := KeyOf(cue, ctx);
      var jobs := if mine in s.jobs then s.jobs else s.jobs[mine := RequestOf(cue, ctx)];
      if cue.kind == Impact {
        AppendCovers(s, ImpactOf(cue, ctx), s.active, jobs, key, t);
      } else if Runs(s, mine, AmbientStart(cue, ctx)) {
        var j := s.active[mine];
        ExtendCovers(s, j, AmbientEnd(cue, ctx), jobs, key, t);
        assert PlaysBed(s.placed[j], mine, t) ==> Plays(s, mine, t);
      } else {
        AppendCovers(s, AmbientOf(cue, ctx), s.active[mine := |s.placed|], jobs, key, t);
      }
    }
  }

  /** Cue number `c` adds time `t` when it is placed. */
  predicate AddedBy(cues: seq<SfxCue>, ctx: Context, c: nat, key: Key, t: int)
    requires c < |cues|
  {
    Adds(PlaceAll(cues[..c], ctx), cues[c], ctx, key, t)
  }

  ghost predicate Added(cues: seq<SfxCue>, ctx: Context, key: Key, t: int) {
    exists c: nat | c < |cues| :: AddedBy(cues, ctx, c, key, t)
  }

  lemma EarlierAdds(cues: seq<SfxCue>, ctx: Context, c: nat, key: Key, t: int)
    requires c < |cues| - 1
    ensures AddedBy(cues[..|cues| - 1], ctx, c, key, t) <==> AddedBy(cues, ctx, c, key, t)
  {
    var front := cues[..|cues| - 1];
    assert front[..c] == cues[..c] && front[c] == cues[c];
  }

  lemma AddedStep(cues: seq<SfxCue>, ctx: Context, key: Key, t: int)
    requires cues != []
    ensures
      var n := |cues| - 1;
      Added(cues, ctx, key, t) <==> Added(cues[..n], ctx, key, t) || AddedBy(cues, ctx, n, key, t)
  {
    var n := |cues| - 1;
    var front := cues[..n];
    forall c: nat | c < n
      ensures AddedBy(front, ctx, c, key, t) <==> AddedBy(cues, ctx, c, key, t)
    {
      EarlierAdds(cues, ctx, c, key, t);
    }
    if c: nat :| c < n && AddedBy(front, ctx, c, key, t) {
      assert AddedBy(cues, ctx, c, key, t);
    }
  }

  /** For cues in any order: a bed plays at `t` if and only if some cue asks for `t` and, when it was placed, either
      joined no running bed or joined one that had started by `t`. */
  lemma {:induction false} BedsPlayIff(cues: seq<SfxCue>, ctx: Context, key: Key, t: int)
    ensures Plays(PlaceAll(cues, ctx), key, t) <==> Added(cues, ctx, key, t)
  {
    if cues != [] {
      var n := |cues| - 1;
      BedsPlayIff(cues[..n], ctx, key, t);
      AmbientBedsAreDisjoint(cues[..n], ctx);
      PlaceCovers(PlaceAll(cues[..n], ctx), cues[n], ctx, key, t);
      AddedStep(cues, ctx, key, t);
    }
  }

  /** No bed plays where no cue asked for it; and when the cues of each bed are listed with nondecreasing starts, the
      bed plays exactly where some cue asked for it. */
  lemma BedsCoverTheRequests(cues: seq<SfxCue>, ctx: Context, key: Key, t: int)
    ensures Plays(PlaceAll(cues, ctx), key, t) ==> Requested(cues, ctx, key, t)
    ensures StartsInOrder(cues, ctx) && Requested(cues, ctx, key, t) ==> Plays(PlaceAll(cues, ctx), key, t)
  {
    BedsPlayIff(cues, ctx, key, t);
    if c: nat :| c < |cues| && AddedBy(cues, ctx, c, key, t) {
      assert Asks(cues[c], ctx, key, t);
    }
    if StartsInOrder(cues, ctx) && Requested(cues, ctx, key, t) {
      var c :| 0 <= c < |cues| && Asks(cues[c], ctx, key, t);
      OrderedCueAdds(cues, ctx, key, t, c);
    }
  }

  lemma OrderedCueAdds(cues: seq<SfxCue>, ctx: Context, key: Key, t: int, c: nat)
    requires StartsInOrder(cues, ctx) && c < |cues| && Asks(cues[c], ctx, key, t)
    ensures AddedBy(cues, ctx, c, key, t)
  {
    var upTo := cues[..c + 1];
    assert upTo[..c] == cues[..c] && upTo[c] == cues[c];
    assert StartsInOrder(upTo, ctx) by {
      forall d, e | 0 <= d < e < |upTo|
        ensures NotBefore(upTo[d], upTo[e], ctx)
      {
        assert NotBefore(cues[d], cues[e], ctx);
      }
    }
    if Runs(PlaceAll(cues[..c], ctx), key, AmbientStart(cues[c], ctx)) {
      JoinedBedStartsEarlier(upTo, ctx, key);
    }
  }

  /** Two cues of one bed, the second with the earlier start: what it asks for before the first one is not played. */
  lemma EarlierStartIsLost(first: SfxCue, second: SfxCue, ctx: Context, t: int)
    requires Known(first, ctx) && Known(second, ctx) && first.kind == Ambient && second.kind == Ambient
    requires KeyOf(first, ctx) == KeyOf(second, ctx)
    requires AmbientStart(second, ctx) <= t < AmbientStart(first, ctx) && t <= AmbientEnd(second, ctx)
    ensures Requested([first, second], ctx, KeyOf(second, ctx), t)
    ensures !Plays(PlaceAll([first, second], ctx), KeyOf(second, ctx), t)
  {
    var cues, key := [first, second], KeyOf(second, ctx);
    assert Asks(cues[1], ctx, key, t);
    BedsPlayIff(cues, ctx, key, t);
    assert cues[..0] == [] && cues[..1] == [first] && [first][..0] == [];
    assert PlaceAll(cues[..1], ctx) == Place(NOTHING, first, ctx);
    assert Place(NOTHING, first, ctx).placed == [AmbientOf(first, ctx)];
  }

  const LATE_SCENE := Segment("late", 2, NARRATOR, true, "", "neutral", "normal", false)
  const EARLY_SCENE := Segment("early", 1, NARRATOR, true, "", "neutral", "normal", false)

  function WindIn(id: string, segment: string): SfxCue {
    SfxCue(id, segment, "", 0, "wind", Ambient, 0, FULL, None)
  }

  /** For example wind at 5000 ms, and then wind at 1000 ms: with the first bed still on, nothing plays at 700 ms. */
  lemma EarlierWindIsNotHeard(params: Params)
    requires params.sfxEnabled
    ensures
      var ctx := Context(
        map["early" := EARLY_SCENE, "late" := LATE_SCENE],
        map["early" := Timing("early", 1000, 2000), "late" := Timing("late", 5000, 6000)], map[], params);
      var cues := [WindIn("x1", "late"), WindIn("x2", "early")];
      var key := KeyOf(cues[1], ctx);
      Requested(cues, ctx, key, 700) && !Plays(PlaceAll(cues, ctx), key, 700)
  {
    var ctx := Context(
      map["early" := EARLY_SCENE, "late" := LATE_SCENE],
      map["early" := Timing("early", 1000, 2000), "late" := Timing("late", 5000, 6000)], map[], params);
    var first, second := WindIn("x1", "late"), WindIn("x2", "early");
    assert AnchorMs(first, ctx.timings["late"], LATE_SCENE) == 5000;
    assert AnchorMs(second, ctx.timings["early"], EARLY_SCENE) == 1000;
    EarlierStartIsLost(first, second, ctx, 700);
  }

  lemma JoinedBedStartsEarlier(cues: seq<SfxCue>, ctx: Context, key: Key)
    requires cues != [] && StartsInOrder(cues, ctx)
    requires
      var cue := cues[|cues| - 1];
      && Known(cue, ctx) && cue.kind == Ambient && KeyOf(cue, ctx) == key
      && Runs(PlaceAll(cues[..|cues| - 1], ctx), key, AmbientStart(cue, ctx))
    ensures
      var s := PlaceAll(cues[..|cues| - 1], ctx);
      s.placed[s.active[key]].start <= AmbientStart(cues[|cues| - 1], ctx)
  {
    var n := |cues| - 1;
    var front := cues[..n];
    var s := PlaceAll(front, ctx);
    AmbientBedsAreDisjoint(front, ctx);
    var p := s.placed[s.active[key]];
    BedsStartAsAsked(front, ctx, s.active[key]);
    var c :| 0 <= c < |front| && Asks(front[c], ctx, p.key, p.start) && p.start == AmbientStart(front[c], ctx);
    assert NotBefore(cues[c], cues[n], ctx);
  }

  // ----------------------------------------------------------------- impacts and clip keys

  /** Each placement is one that a known cue of the script asked for, and its clip has a request with that key. */
  ghost predicate HasRequest(jobs: map<Key, SfxRequest>, key: Key, ctx: Context) {
    key in jobs && ctx.params.sfxKey(jobs[key]) == key
  }

  ghost predicate AllHaveRequests(s: State, ctx: Context) {
    && (forall key | key in s.jobs :: HasRequest(s.jobs, key, ctx))
    && (forall i | 0 <= i < |s.placed| :: s.placed[i].track == Sfx && HasRequest(s.jobs, s.placed[i].key, ctx))
  }

  lemma PlaceKeepsRequests(s: State, cue: SfxCue, ctx: Context)
    requires AllHaveRequests(s, ctx)
    ensures AllHaveRequests(Place(s, cue, ctx), ctx)
  {
    var s' := Place(s, cue, ctx);
    forall key | HasRequest(s.jobs, key, ctx)
      ensures HasRequest(s'.jobs, key, ctx)
    {
    }
    if Known(cue, ctx) {
      assert HasRequest(s'.jobs, KeyOf(cue, ctx), ctx);
    }
  }

  lemma {:induction false} PlacementsHaveRequests(cues: seq<SfxCue>, ctx: Context)
    ensures AllHaveRequests(PlaceAll(cues, ctx), ctx)
  {
    if cues != [] {
      PlacementsHaveRequests(cues[..|cues| - 1], ctx);
      PlaceKeepsRequests(PlaceAll(cues[..|cues| - 1], ctx), cues[|cues| - 1], ctx);
    }
  }

  /** A known impact is placed where its gap opened, or just before its anchor word, for exactly the requested time. */
  lemma {:induction false} ImpactsArePlaced(cues: seq<SfxCue>, ctx: Context, c: nat)
    requires c < |cues| && Known(cues[c], ctx) && cues[c].kind == Impact
    ensures ImpactOf(cues[c], ctx) in PlaceAll(cues, ctx).placed
  {
    var front := cues[..|cues| - 1];
    if c < |front| {
      ImpactsArePlaced(front, ctx, c);
      AmbientBedsAreDisjoint(front, ctx);
      ImpactStays(PlaceAll(front, ctx), cues[|cues| - 1], ctx, ImpactOf(cues[c], ctx));
    }
  }

  /** Later cues extend beds, and leave impacts alone. */
  lemma ImpactStays(s: State, cue: SfxCue, ctx: Context, p: Placement)
    requires Apart(s) && p in s.placed && !p.looped
    ensures p in Place(s, cue, ctx).placed
  {
    var i :| 0 <= i < |s.placed| && s.placed[i] == p;
    assert Place(s, cue, ctx).placed[i] == p;
  }
}
