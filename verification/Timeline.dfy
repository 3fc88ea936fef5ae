/** Laying out one chapter (`build_timeline`): sequential voice clips with pauses, anchored sound effects,
    ambient beds and overlapping music beds.  Times are milliseconds; gains and fades are left out. */
module Timeline {
  import opened Book
  import opened Common
  import opened Text

  const INTRO_MS := 500
  const MUSIC_INTRO_MS := 1500
  const PIECE_GAP_MS := 120
  const PAUSE_SAME_MS := 250
  const PAUSE_SPEAKER_CHANGE_MS := 400
  const PAUSE_PARAGRAPH_MS := 650
  const PAUSE_SCENE_BREAK_MS := 1500
  const PAUSE_MIN_MS := 150
  const PAUSE_MAX_MS := 2500
  const OUTRO_MS := 2500
  const SFX_ONSET_LEAD_MS := 120
  const BLOCKING_INTENSITY := 7 * FULL / 10
  const BLOCKING_GAP_MAX_MS := 1500
  const AMBIENT_LEAD_MS := 300
  const AMBIENT_REQUEST_MS := 15000
  const SFX_MIN_REQUEST_MS := 500
  const MUSIC_REGION_LEAD_MS := 800
  const MUSIC_REGION_TAIL_MS := 1500
  const MUSIC_OVERLAP_MS := 3000
  const MUSIC_REQUEST_PAD_MS := 4000
  const MUSIC_REQUEST_CAP_MS := 120000

  type Key = string

  datatype Clip = Clip(key: Key, durationMs: nat)

  datatype SfxRequest = SfxRequest(
    description: string, kind: SfxKind, durationMs: int, looped: bool, intensity: Level, seed: nat)

  datatype MusicRequest = MusicRequest(prompt: string, mood: string, energy: Level, durationMs: int, seed: nat)

  datatype Params = Params(
    musicEnabled: bool, sfxEnabled: bool, musicMinMs: int, musicMaxMs: int, sfxMaxMs: int,
    sfxKey: SfxRequest -> Key, musicKey: MusicRequest -> Key,
    sfxSeed: string -> nat, musicSeed: (string, string) -> nat, defaultPrompt: string -> string)

  datatype Track = Voice | Music | Sfx

  datatype Placement = Placement(track: Track, key: Key, refId: string, start: int, end: int, looped: bool)

  datatype Timing = Timing(id: string, start: nat, end: nat)

  function Clamp(value: int, low: int, high: int): int {
    Max(low, Min(high, value))
  }

  // ----------------------------------------------------------------- pauses and gaps

  /** Pause factors in tenths. */
  function PauseTenths(emotion: string): nat {
    if emotion == "urgent" then 6
    else if emotion == "hesitant" || emotion == "melancholy" || emotion == "weary" then 13
    else 10
  }

  function PauseBase(prev: Segment, seg: Segment): nat {
    if seg.sceneBreakBefore then PAUSE_SCENE_BREAK_MS
    else if seg.paragraph != prev.paragraph then PAUSE_PARAGRAPH_MS
    else if seg.speaker != prev.speaker then PAUSE_SPEAKER_CHANGE_MS
    else PAUSE_SAME_MS
  }

  /** `pause_before_ms`; all products are whole milliseconds. */
  function PauseBefore(prev: Segment, seg: Segment): (p: nat)
    ensures PAUSE_MIN_MS <= p <= PAUSE_MAX_MS
    ensures p * 10 == PauseBase(prev, seg) * PauseTenths(seg.emotion)
  {
    Clamp(PauseBase(prev, seg) * PauseTenths(seg.emotion) / 10, PAUSE_MIN_MS, PAUSE_MAX_MS)
  }

  predicate AnchorFound(cue: SfxCue, seg: Segment) {
    && cue.anchorText != "" && cue.anchorOffset + |cue.anchorText| <= |seg.text|
    && Lower(seg.text[cue.anchorOffset..cue.anchorOffset + |cue.anchorText|]) == Lower(cue.anchorText)
  }

  /** `is_blocking_impact`: a loud impact in the first quarter of a narration. */
  predicate IsBlocking(cue: SfxCue, seg: Segment) {
    && cue.kind == Impact && cue.intensity >= BLOCKING_INTENSITY && seg.isNarration && AnchorFound(cue, seg)
    && 4 * cue.anchorOffset < |seg.text|
  }

  /** `int(min(0.6 * duration, 1500))`. */
  function BlockingGap(cue: SfxCue): nat {
    Min(cue.durationMs * 3 / 5, BLOCKING_GAP_MAX_MS)
  }

  // ----------------------------------------------------------------- the voice layout, in closed form

  /** What the layout of a segment depends on: its clips and the sound effects anchored in it. */
  datatype Part = Part(seg: Segment, clips: seq<Clip>, cues: seq<SfxCue>)

  function GapsOf(cues: seq<SfxCue>, seg: Segment): nat {
    if cues == [] then 0
    else GapsOf(cues[..|cues| - 1], seg) + if IsBlocking(cues[|cues| - 1], seg) then BlockingGap(cues[|cues| - 1]) else 0
  }

  function ClipsMs(clips: seq<Clip>): nat {
    if clips == [] then 0 else ClipsMs(clips[..|clips| - 1]) + clips[|clips| - 1].durationMs
  }

  /** Offset of clip `p` from the start of its segment. */
  function ClipOffset(clips: seq<Clip>, p: nat): nat
    requires p <= |clips|
  {
    ClipsMs(clips[..p]) + p * PIECE_GAP_MS
  }

  function SpokenMs(clips: seq<Clip>): nat {
    if clips == [] then 0 else ClipsMs(clips) + (|clips| - 1) * PIECE_GAP_MS
  }

  /** The pause before part `i`. */
  function PauseAt(parts: seq<Part>, i: nat): nat
    requires i < |parts|
  {
    if i == 0 then 0 else PauseBefore(parts[i - 1].seg, parts[i].seg)
  }

  /** The cursor after the first `n` parts. */
  function CursorAfter(parts: seq<Part>, intro: nat, n: nat): nat
    requires n <= |parts|
  {
    if n == 0 then intro
    else
      CursorAfter(parts, intro, n - 1) + PauseAt(parts, n - 1)
      + GapsOf(parts[n - 1].cues, parts[n - 1].seg) + SpokenMs(parts[n - 1].clips)
  }

  /** The cursor before the gaps of part `i`. */
  function CursorBefore(parts: seq<Part>, intro: nat, i: nat): nat
    requires i < |parts|
  {
    CursorAfter(parts, intro, i) + PauseAt(parts, i)
  }

  function StartOf(parts: seq<Part>, intro: nat, i: nat): nat
    requires i < |parts|
  {
    CursorBefore(parts, intro, i) + GapsOf(parts[i].cues, parts[i].seg)
  }

  function EndOf(parts: seq<Part>, intro: nat, i: nat): nat
    requires i < |parts|
  {
    CursorAfter(parts, intro, i + 1)
  }

  function VoiceAt(part: Part, start: nat, p: nat): Placement
    requires p < |part.clips|
  {
    var at := start + ClipOffset(part.clips, p);
    Placement(Voice, part.clips[p].key, part.seg.id, at, at + part.clips[p].durationMs, false)
  }

  function VoiceOf(part: Part, start: nat): (ps: seq<Placement>)
    ensures |ps| == |part.clips| && forall p | 0 <= p < |ps| :: ps[p] == VoiceAt(part, start, p)
  {
    seq(|part.clips|, p requires 0 <= p < |part.clips| => VoiceAt(part, start, p))
  }

  function AllVoice(parts: seq<Part>, intro: nat, n: nat): seq<Placement>
    requires n <= |parts|
  {
    if n == 0 then [] else AllVoice(parts, intro, n - 1) + VoiceOf(parts[n - 1], StartOf(parts, intro, n - 1))
  }

  // ----------------------------------------------------------------- the voice loop

  /** What opening the gaps of one segment does to the recorded starts. */
  ghost predicate Opened(part: Part, cursor: nat, blocking: map<string, nat>, blocking': map<string, nat>, n: nat)
    requires n <= |part.cues|
  {
    && (forall id | id in blocking && (forall c | 0 <= c < |part.cues| :: part.cues[c].id != id) ::
         id in blocking' && blocking'[id] == blocking[id])
    && (DistinctIds(part.cues) ==> forall c | 0 <= c < n && IsBlocking(part.cues[c], part.seg) ::
         part.cues[c].id in blocking' && blocking'[part.cues[c].id] == cursor + GapsOf(part.cues[..c], part.seg))
  }

  /** The gaps that loud impacts open before the words of one segment. */
  method OpenGaps(part: Part, cursor: nat, blocking: map<string, nat>) returns (cursor': nat, blocking': map<string, nat>)
    ensures cursor' == cursor + GapsOf(part.cues, part.seg)
    ensures Opened(part, cursor, blocking, blocking', |part.cues|)
  {
    cursor', blocking' := cursor, blocking;
    for c := 0 to |part.cues|
      invariant cursor' == cursor + GapsOf(part.cues[..c], part.seg)
      invariant Opened(part, cursor, blocking, blocking', c)
    {
      GapsStep(part, c);
      OpenedStep(part, cursor, blocking, blocking', c);
      var cue := part.cues[c];
      if IsBlocking(cue, part.seg) {
        blocking' := blocking'[cue.id := cursor'];
        cursor' := cursor' + BlockingGap(cue);
      }
    }
    assert part.cues[..|part.cues|] == part.cues;
  }

  lemma GapsStep(part: Part, c: nat)
    requires c < |part.cues|
    ensures GapsOf(part.cues[..c + 1], part.seg) ==
      GapsOf(part.cues[..c], part.seg) + if IsBlocking(part.cues[c], part.seg) then BlockingGap(part.cues[c]) else 0
  {
    assert part.cues[..c + 1][..c] == part.cues[..c];
  }

  lemma OpenedStep(part: Part, cursor: nat, blocking: map<string, nat>, blocking': map<string, nat>, c: nat)
    requires c < |part.cues| && Opened(part, cursor, blocking, blocking', c)
    ensures
      var at := cursor + GapsOf(part.cues[..c], part.seg);
      Opened(
        part, cursor, blocking, if IsBlocking(part.cues[c], part.seg) then blocking'[part.cues[c].id := at] else blocking', c + 1)
  {
  }

  ghost predicate DistinctIds(cues: seq<SfxCue>) {
    forall c, d | 0 <= c < d < |cues| :: cues[c].id != cues[d].id
  }

  /** The clips of one segment, one after the other. */
  method SpeakSegment(part: Part, start: nat) returns (voice: seq<Placement>, cursor: nat)
    ensures voice == VoiceOf(part, start) && cursor == start + SpokenMs(part.clips)
  {
    voice, cursor := [], start;
    for p := 0 to |part.clips|
      invariant |voice| == p && forall q | 0 <= q < p :: voice[q] == VoiceAt(part, start, q)
      invariant cursor == start + if p == 0 then 0 else ClipOffset(part.clips, p) - PIECE_GAP_MS
    {
      assert part.clips[..p + 1][..p] == part.clips[..p];
      assert ClipsMs(part.clips[..p + 1]) == ClipsMs(part.clips[..p]) + part.clips[p].durationMs;
      assert ClipOffset(part.clips, p + 1) == ClipOffset(part.clips, p) + part.clips[p].durationMs + PIECE_GAP_MS;
      if p > 0 {
        cursor := cursor + PIECE_GAP_MS;
      }
      var duration := part.clips[p].durationMs;
      voice := voice + [Placement(Voice, part.clips[p].key, part.seg.id, cursor, cursor + duration, false)];
      cursor := cursor + duration;
    }
    assert part.clips[..|part.clips|] == part.clips;
  }

  /** Cue ids are distinct over the whole chapter. */
  ghost predicate AllDistinct(parts: seq<Part>) {
    && (forall i | 0 <= i < |parts| :: DistinctIds(parts[i].cues))
    && (forall i, j, c, d | 0 <= i < j < |parts| && 0 <= c < |parts[i].cues| && 0 <= d < |parts[j].cues| ::
         parts[i].cues[c].id != parts[j].cues[d].id)
  }

  /** The gap of every blocking impact of the first `n` parts is recorded where it opens. */
  ghost predicate Recorded(parts: seq<Part>, intro: nat, n: nat, blocking: map<string, nat>)
    requires n <= |parts|
  {
    forall i, c | 0 <= i < n && 0 <= c < |parts[i].cues| && IsBlocking(parts[i].cues[c], parts[i].seg) ::
      && parts[i].cues[c].id in blocking
      && blocking[parts[i].cues[c].id] == CursorBefore(parts, intro, i) + GapsOf(parts[i].cues[..c], parts[i].seg)
  }

  /** With distinct cue ids all gaps are recorded. */
  ghost predicate RecordedIfDistinct(parts: seq<Part>, intro: nat, n: nat, blocking: map<string, nat>)
    requires n <= |parts|
  {
    AllDistinct(parts) ==> Recorded(parts, intro, n, blocking)
  }

  lemma RecordedStep(parts: seq<Part>, intro: nat, i: nat, blocking: map<string, nat>, blocking': map<string, nat>)
    requires i < |parts| && AllDistinct(parts) && Recorded(parts, intro, i, blocking)
    requires Opened(parts[i], CursorBefore(parts, intro, i), blocking, blocking', |parts[i].cues|)
    ensures Recorded(parts, intro, i + 1, blocking')
  {
    forall j, c | 0 <= j <= i && 0 <= c < |parts[j].cues| && IsBlocking(parts[j].cues[c], parts[j].seg)
      ensures parts[j].cues[c].id in blocking'
      ensures blocking'[parts[j].cues[c].id] == CursorBefore(parts, intro, j) + GapsOf(parts[j].cues[..c], parts[j].seg)
    {
      if j < i {
        var id := parts[j].cues[c].id;
        assert id in blocking;
        assert forall d | 0 <= d < |parts[i].cues| :: parts[i].cues[d].id != id;
      }
    }
  }

  lemma RecordedIfDistinctStep(parts: seq<Part>, intro: nat, i: nat, blocking: map<string, nat>, blocking': map<string, nat>)
    requires i < |parts| && RecordedIfDistinct(parts, intro, i, blocking)
    requires AllDistinct(parts) ==> Opened(parts[i], CursorBefore(parts, intro, i), blocking, blocking', |parts[i].cues|)
    ensures RecordedIfDistinct(parts, intro, i + 1, blocking')
  {
    if AllDistinct(parts) {
      RecordedStep(parts, intro, i, blocking, blocking');
    }
  }

  function TimingOf(parts: seq<Part>, intro: nat, i: nat): Timing
    requires i < |parts|
  {
    Timing(parts[i].seg.id, StartOf(parts, intro, i), EndOf(parts, intro, i))
  }

  /** One turn of the voice loop. */
  method LayoutSegment(parts: seq<Part>, ghost intro: nat, i: nat, cursor: nat, blocking: map<string, nat>)
    returns (clips: seq<Placement>, timing: Timing, cursor': nat, blocking': map<string, nat>)
    requires i < |parts| && cursor == CursorAfter(parts, intro, i)
    requires RecordedIfDistinct(parts, intro, i, blocking)
    ensures clips == VoiceOf(parts[i], StartOf(parts, intro, i)) && timing == TimingOf(parts, intro, i)
    ensures cursor' == CursorAfter(parts, intro, i + 1)
    ensures RecordedIfDistinct(parts, intro, i + 1, blocking')
  {
    cursor' := cursor;
    if i > 0 {
      cursor' := cursor' + PauseBefore(parts[i - 1].seg, parts[i].seg);
    }
    cursor', blocking' := OpenGaps(parts[i], cursor', blocking);
    RecordedIfDistinctStep(parts, intro, i, blocking, blocking');
    var start := cursor';
    assert start == StartOf(parts, intro, i);
    clips, cursor' := SpeakSegment(parts[i], start);
    timing := Timing(parts[i].seg.id, start, cursor');
  }

  /** The timings of the first parts. */
  ghost predicate Timed(timings: seq<Timing>, parts: seq<Part>, intro: nat) {
    |timings| <= |parts| && forall i | 0 <= i < |timings| :: timings[i] == TimingOf(parts, intro, i)
  }

  /** What the voice loop has after `i` parts. */
  ghost predicate VoiceSoFar(voice: seq<Placement>, timings: seq<Timing>, parts: seq<Part>, intro: nat, i: nat) {
    |timings| == i && Timed(timings, parts, intro) && voice == AllVoice(parts, intro, i)
  }

  lemma OneMoreSegment(voice: seq<Placement>, timings: seq<Timing>, parts: seq<Part>, intro: nat, i: nat)
    requires i < |parts| && VoiceSoFar(voice, timings, parts, intro, i)
    ensures VoiceSoFar(
      voice + VoiceOf(parts[i], StartOf(parts, intro, i)), timings + [TimingOf(parts, intro, i)], parts, intro, i + 1)
  {
  }

  /** The voice loop of `build_timeline`. */
  method LayoutVoice(parts: seq<Part>, intro: nat)
    returns (voice: seq<Placement>, timings: seq<Timing>, blocking: map<string, nat>, cursor: nat)
    ensures |timings| == |parts| && Timed(timings, parts, intro)
    ensures voice == AllVoice(parts, intro, |parts|)
    ensures cursor == CursorAfter(parts, intro, |parts|)
    ensures RecordedIfDistinct(parts, intro, |parts|, blocking)
  {
    voice, timings, blocking, cursor := [], [], map[], intro;
    for i := 0 to |parts|
      invariant VoiceSoFar(voice, timings, parts, intro, i) && cursor == CursorAfter(parts, intro, i)
      invariant RecordedIfDistinct(parts, intro, i, blocking)
    {
      var clips, timing;
      clips, timing, cursor, blocking := LayoutSegment(parts, intro, i, cursor, blocking);
      OneMoreSegment(voice, timings, parts, intro, i);
      voice := voice + clips;
      timings := timings + [timing];
    }
  }

  // ----------------------------------------------------------------- facts about the layout

  lemma {:induction false} GapsOfPrefix(cues: seq<SfxCue>, seg: Segment, c: nat)
    requires c < |cues|
    ensures GapsOf(cues[..c], seg) + (if IsBlocking(cues[c], seg) then BlockingGap(cues[c]) else 0) <= GapsOf(cues, seg)
  {
    var front := cues[..|cues| - 1];
    if c < |cues| - 1 {
      GapsOfPrefix(front, seg, c);
      assert front[..c] == cues[..c];
    }
  }

  /** A blocking impact starts when the previous segment is over, and its gap is over before the words begin. */
  lemma BlockingPrecedesWords(parts: seq<Part>, intro: nat, blocking: map<string, nat>, i: nat, c: nat)
    requires i < |parts| && Recorded(parts, intro, |parts|, blocking)
    requires c < |parts[i].cues| && IsBlocking(parts[i].cues[c], parts[i].seg)
    ensures
      var cue := parts[i].cues[c];
      && cue.id in blocking
      && (i > 0 ==> EndOf(parts, intro, i - 1) + PAUSE_MIN_MS <= blocking[cue.id])
      && blocking[cue.id] + BlockingGap(cue) <= StartOf(parts, intro, i)
  {
    GapsOfPrefix(parts[i].cues, parts[i].seg, c);
  }

  function PauseSum(parts: seq<Part>, n: nat): nat
    requires n <= |parts|
  {
    if n <= 1 then 0 else PauseSum(parts, n - 1) + PauseBefore(parts[n - 2].seg, parts[n - 1].seg)
  }

  function GapSum(parts: seq<Part>, n: nat): nat
    requires n <= |parts|
  {
    if n == 0 then 0 else GapSum(parts, n - 1) + GapsOf(parts[n - 1].cues, parts[n - 1].seg)
  }

  function ClipSum(parts: seq<Part>, n: nat): nat
    requires n <= |parts|
  {
    if n == 0 then 0 else ClipSum(parts, n - 1) + ClipsMs(parts[n - 1].clips)
  }

  function PieceGapSum(parts: seq<Part>, n: nat): nat
    requires n <= |parts|
  {
    if n == 0 then 0 else PieceGapSum(parts, n - 1) + Max(0, |parts[n - 1].clips| - 1) * PIECE_GAP_MS
  }

  /** Nothing else moves the cursor: intro, pauses, blocking gaps, piece gaps and clips. */
  lemma {:induction false} CursorIsTheSum(parts: seq<Part>, intro: nat, n: nat)
    requires n <= |parts|
    ensures CursorAfter(parts, intro, n) ==
      intro + PauseSum(parts, n) + GapSum(parts, n) + ClipSum(parts, n) + PieceGapSum(parts, n)
  {
    if n > 0 {
      CursorIsTheSum(parts, intro, n - 1);
      var clips := parts[n - 1].clips;
      assert SpokenMs(clips) == ClipsMs(clips) + Max(0, |clips| - 1) * PIECE_GAP_MS;
    }
  }

  lemma {:induction false} ClipsMsPrefix(clips: seq<Clip>, p: nat)
    requires p < |clips|
    ensures ClipsMs(clips[..p]) + clips[p].durationMs == ClipsMs(clips[..p + 1]) <= ClipsMs(clips)
  {
    var front := clips[..|clips| - 1];
    assert clips[..p + 1][..p] == clips[..p];
    if p < |clips| - 1 {
      ClipsMsPrefix(front, p);
      assert front[..p + 1] == clips[..p + 1] && front[..p] == clips[..p];
    } else {
      assert clips[..p + 1] == clips;
    }
  }

  /** Voice placements in order without overlap, all between `from` and `to`. */
  ghost predicate InOrder(ps: seq<Placement>, from: int, to: int) {
    && (forall p | 0 <= p < |ps| :: from <= ps[p].start <= ps[p].end <= to)
    && (forall p, q | 0 <= p < q < |ps| :: ps[p].end <= ps[q].start)
  }

  lemma VoiceOfInOrder(part: Part, start: nat)
    ensures InOrder(VoiceOf(part, start), start, start + SpokenMs(part.clips))
  {
    var ps := VoiceOf(part, start);
    forall p | 0 <= p < |ps|
      ensures start <= ps[p].start <= ps[p].end <= start + SpokenMs(part.clips)
      ensures ps[p].end + PIECE_GAP_MS == start + ClipOffset(part.clips, p + 1)
    {
      ClipsMsPrefix(part.clips, p);
    }
    forall p, q | 0 <= p < q < |ps|
      ensures ps[p].end <= ps[q].start
    {
      ClipOffsetMonotone(part.clips, p + 1, q);
    }
  }

  lemma {:induction false} ClipOffsetMonotone(clips: seq<Clip>, p: nat, q: nat)
    requires p <= q <= |clips|
    ensures ClipOffset(clips, p) <= ClipOffset(clips, q)
    decreases q - p
  {
    if p < q {
      ClipsMsPrefix(clips, p);
      ClipOffsetMonotone(clips, p + 1, q);
    }
  }

  lemma InOrderConcat(ps: seq<Placement>, qs: seq<Placement>, a: int, b: int, c: int, d: int)
    requires InOrder(ps, a, b) && InOrder(qs, c, d) && a <= b <= c <= d
    ensures InOrder(ps + qs, a, d)
  {
  }

  /** The whole voice track is in order. */
  lemma {:induction false} VoiceInOrder(parts: seq<Part>, intro: nat, n: nat)
    requires n <= |parts|
    ensures InOrder(AllVoice(parts, intro, n), intro, CursorAfter(parts, intro, n))
    ensures intro <= CursorAfter(parts, intro, n)
  {
    if n > 0 {
      var front, mid := AllVoice(parts, intro, n - 1), CursorAfter(parts, intro, n - 1);
      var start, clips := StartOf(parts, intro, n - 1), parts[n - 1].clips;
      assert InOrder(front, intro, mid) && intro <= mid by {
        VoiceInOrder(parts, intro, n - 1);
      }
      VoiceOfInOrder(parts[n - 1], start);
      InOrderConcat(front, VoiceOf(parts[n - 1], start), intro, mid, start, start + SpokenMs(clips));
    }
  }

  /** `p` belongs to a segment and lies inside that segment's timing. */
  ghost predicate InItsSegment(parts: seq<Part>, intro: nat, p: Placement) {
    exists i | 0 <= i < |parts| ::
      p.refId == parts[i].seg.id && StartOf(parts, intro, i) <= p.start <= p.end <= EndOf(parts, intro, i)
  }

  lemma {:induction false} VoiceInsideSegments(parts: seq<Part>, intro: nat, n: nat)
    requires n <= |parts|
    ensures forall p | p in AllVoice(parts, intro, n) :: InItsSegment(parts, intro, p)
  {
    if n > 0 {
      VoiceInsideSegments(parts, intro, n - 1);
      var own := VoiceOf(parts[n - 1], StartOf(parts, intro, n - 1));
      VoiceOfInOrder(parts[n - 1], StartOf(parts, intro, n - 1));
      forall p | p in own
        ensures InItsSegment(parts, intro, p)
      {
        var q :| 0 <= q < |own| && own[q] == p;
        assert p.refId == parts[n - 1].seg.id;
      }
    }
  }
}
