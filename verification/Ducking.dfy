/** The sidechain gain curve (`duck_gain`, `_gap_runs`): speech look-ahead computed in place on
    the frame array, maximal speech-free runs, gap targets and one-pole smoothing.  Gains and
    smoothing coefficients are reals. */
module Ducking {
  import opened Common

  // ----------------------------------------------------------------- look-ahead

  /** Frames reached by looking ahead 1, then 2, ..., then `k` frames. */
  function Reach(k: nat): nat {
    if k == 0 then 0 else Reach(k - 1) + k
  }

  /** In closed form, k(k+1)/2; at least `k`. */
  lemma {:induction false} ReachIsTriangular(k: nat)
    ensures 2 * Reach(k) == k * (k + 1)
    ensures k <= Reach(k)
  {
    if k > 0 {
      ReachIsTriangular(k - 1);
      assert k * (k + 1) == (k - 1) * k + 2 * k;
    }
  }

  /** Some frame of `speech` in [i, i+d] is set. */
  ghost predicate SpeechWithin(speech: seq<bool>, i: nat, d: nat) {
    exists j :: i <= j <= i + d && j < |speech| && speech[j]
  }

  /** One pass of the look-ahead loop extends the reach from 1+..+(k-1) to 1+..+k. */
  lemma ExtendReach(speech: seq<bool>, i: nat, k: nat)
    requires k >= 1 && i < |speech|
    ensures SpeechWithin(speech, i, Reach(k))
      <==> SpeechWithin(speech, i, Reach(k - 1)) || (i + k < |speech| && SpeechWithin(speech, i + k, Reach(k - 1)))
  {
    ReachIsTriangular(k - 1);
    if SpeechWithin(speech, i, Reach(k)) {
      var j :| i <= j <= i + Reach(k) && j < |speech| && speech[j];
      if j > i + Reach(k - 1) {
        assert i + k <= j <= i + k + Reach(k - 1);
      } else {
        assert i <= j <= i + Reach(k - 1);
      }
    }
  }

  /** `for k in 1..min(lead, n-1): present[:-k] |= present[k:]`, each pass as one array assignment. */
  method LookAhead(present: array<bool>, lead: nat)
    requires present.Length > 0
    modifies present
    ensures forall i | 0 <= i < present.Length ::
      present[i] <==> SpeechWithin(old(present[..]), i, Reach(Min(lead, present.Length - 1)))
  {
    var n := present.Length;
    ghost var speech := present[..];
    forall i: nat | i < n
      ensures SpeechWithin(speech, i, Reach(0)) <==> present[i]
    {
      assert Reach(0) == 0;
    }
    var k := 1;
    while k <= Min(lead, n - 1)
      invariant 1 <= k <= Min(lead, n - 1) + 1
      invariant forall i: nat | i < n :: present[i] <==> SpeechWithin(speech, i, Reach(k - 1))
      decreases Min(lead, n - 1) - k
    {
      forall i: nat | i < n {
        ExtendReach(speech, i, k);
      }
      forall i | 0 <= i < n - k {
        present[i] := present[i] || present[i + k];
      }
      k := k + 1;
    }
  }

  /** The documented look-ahead is a lower bound of what the loop really does. */
  lemma LookAheadCoversLead(speech: seq<bool>, lead: nat, i: nat, j: nat)
    requires i <= j <= i + lead && j < |speech| && speech[j]
    ensures SpeechWithin(speech, i, Reach(Min(lead, |speech| - 1)))
  {
    var k := Min(lead, |speech| - 1);
    ReachIsTriangular(k);
    assert j <= i + Reach(k);
  }

  // ----------------------------------------------------------------- gap runs

  /** [s, e) is a maximal run of frames without speech. */
  ghost predicate MaximalGap(present: seq<bool>, s: int, e: int) {
    && 0 <= s < e <= |present|
    && (forall i | s <= i < e :: !present[i])
    && (s == 0 || present[s - 1])
    && (e == |present| || present[e])
  }

  /** Rising edges of the padded absence signal, at or after frame `i`. */
  function GapStarts(present: seq<bool>, i: nat): seq<nat>
    decreases |present| - i
  {
    if i >= |present| then []
    else (if !present[i] && (i == 0 || present[i - 1]) then [i] else []) + GapStarts(present, i + 1)
  }

  /** Falling edges of the padded absence signal, at or after position `i`. */
  function GapEnds(present: seq<bool>, i: nat): seq<nat>
    requires i >= 1
    decreases |present| + 1 - i
  {
    if i > |present| then []
    else (if !present[i - 1] && (i == |present| || present[i]) then [i] else []) + GapEnds(present, i + 1)
  }

  function Zip(starts: seq<nat>, ends: seq<nat>): seq<(nat, nat)>
  {
    if starts == [] || ends == [] then [] else [(starts[0], ends[0])] + Zip(starts[1..], ends[1..])
  }

  /** `_gap_runs`: the edges of the absence signal, paired in order. */
  function GapRuns(present: seq<bool>): seq<(nat, nat)> {
    Zip(GapStarts(present, 0), GapEnds(present, 1))
  }

  /** All maximal gaps that start at or after `i`, in order. */
  ghost function GapsFrom(present: seq<bool>, i: nat): seq<(nat, nat)>
    decreases |present| - i
  {
    if i >= |present| then []
    else if !present[i] && (i == 0 || present[i - 1]) then [(i, GapEnd(present, i))] + GapsFrom(present, i + 1)
    else GapsFrom(present, i + 1)
  }

  function GapEnd(present: seq<bool>, i: nat): (e: nat)
    requires i < |present| && !present[i]
    ensures i < e <= |present| && (forall j | i <= j < e :: !present[j]) && (e == |present| || present[e])
    decreases |present| - i
  {
    if i + 1 < |present| && !present[i + 1] then GapEnd(present, i + 1) else i + 1
  }

  /** Pairing the k-th rising edge with the k-th falling edge gives each gap its own end.  Inside a
      gap (frame i-1 silent) the list of ends is one ahead of the list of starts. */
  lemma {:induction false} EdgesPairUp(present: seq<bool>, i: nat)
    requires i <= |present|
    ensures (i > 0 && !present[i - 1]) ==>
      |GapEnds(present, i)| > 0 && Zip(GapStarts(present, i), GapEnds(present, i)[1..]) == GapsFrom(present, i)
      && GapEnds(present, i)[0] == GapEnd(present, i - 1)
      && |GapStarts(present, i)| + 1 == |GapEnds(present, i)|
    ensures (i == 0 || present[i - 1]) ==>
      Zip(GapStarts(present, i), GapEnds(present, i + 1)) == GapsFrom(present, i)
      && |GapStarts(present, i)| == |GapEnds(present, i + 1)|
    decreases |present| - i
  {
    if i < |present| {
      EdgesPairUp(present, i + 1);
      if i > 0 && !present[i - 1] {
        assert GapStarts(present, i) == GapStarts(present, i + 1);
        if present[i] {
          assert GapEnds(present, i)[1..] == GapEnds(present, i + 1);
          assert GapEnds(present, i + 1) == GapEnds(present, i + 2);
        } else {
          assert GapEnds(present, i) == GapEnds(present, i + 1);
        }
      } else if !present[i] {
        var starts, ends := GapStarts(present, i), GapEnds(present, i + 1);
        assert starts[1..] == GapStarts(present, i + 1);
        assert GapsFrom(present, i)[0] == (i, GapEnd(present, i));
      } else {
        assert GapStarts(present, i) == GapStarts(present, i + 1);
        assert GapEnds(present, i + 1) == GapEnds(present, i + 2);
      }
    } else if i > 0 && !present[i - 1] {
      assert GapEnds(present, i) == [i];
    }
  }

  lemma {:induction false} GapsFromAreMaximal(present: seq<bool>, i: nat)
    ensures forall g | g in GapsFrom(present, i) :: MaximalGap(present, g.0, g.1) && i <= g.0
    ensures forall s, e | MaximalGap(present, s, e) && i <= s :: (s, e) in GapsFrom(present, i)
    decreases |present| - i
  {
    if i < |present| {
      GapsFromAreMaximal(present, i + 1);
      var here := !present[i] && (i == 0 || present[i - 1]);
      forall s, e | MaximalGap(present, s, e) && i <= s
        ensures (s, e) in GapsFrom(present, i)
      {
        if s == i {
          assert here;
          var e' := GapEnd(present, i);
          assert e == e';
          assert GapsFrom(present, i)[0] == (s, e);
        } else {
          assert (s, e) in GapsFrom(present, i + 1);
          assert GapsFrom(present, i) == (if here then [(i, GapEnd(present, i))] else []) + GapsFrom(present, i + 1);
        }
      }
    }
  }

  /** Each gap ends before the next one starts, with speech in between. */
  ghost predicate GapsInOrder(gaps: seq<(nat, nat)>) {
    forall p, q | 0 <= p < q < |gaps| :: gaps[p].1 < gaps[q].0
  }

  lemma LaterGapStartsAfter(present: seq<bool>, i: nat, s: int, e: int)
    requires i < |present| && !present[i] && MaximalGap(present, s, e) && i < s
    ensures GapEnd(present, i) < s
  {
  }

  lemma {:induction false} GapsFromAreInOrder(present: seq<bool>, i: nat)
    ensures GapsInOrder(GapsFrom(present, i))
    decreases |present| - i
  {
    if i < |present| {
      GapsFromAreInOrder(present, i + 1);
      GapsFromAreMaximal(present, i + 1);
      var rest := GapsFrom(present, i + 1);
      if !present[i] {
        forall q | 0 <= q < |rest|
          ensures GapEnd(present, i) < rest[q].0
        {
          assert rest[q] in rest;
          LaterGapStartsAfter(present, i, rest[q].0, rest[q].1);
        }
      }
    }
  }

  /** `_gap_runs` returns exactly the maximal speech-free runs, each once, in order. */
  lemma GapRunsAreTheMaximalGaps(present: seq<bool>)
    ensures forall g | g in GapRuns(present) :: MaximalGap(present, g.0, g.1)
    ensures forall s, e :: MaximalGap(present, s, e) ==> (s, e) in GapRuns(present)
    ensures GapsInOrder(GapRuns(present))
    ensures |GapStarts(present, 0)| == |GapEnds(present, 1)|
  {
    EdgesPairUp(present, 0);
    GapsFromAreMaximal(present, 0);
    GapsFromAreInOrder(present, 0);
  }

  // ----------------------------------------------------------------- gain targets

  /** Frame `i` lies in a maximal speech-free run of at least `minGap` frames. */
  ghost predicate InLongGap(present: seq<bool>, i: int, minGap: nat) {
    exists s, e :: MaximalGap(present, s, e) && s <= i < e && e - s >= minGap
  }

  /** Frames flagged in `hold` (for the frames both arrays have) count as busy. */
  method Hold(present: array<bool>, hold: seq<bool>)
    modifies present
    ensures forall i | 0 <= i < present.Length ::
      present[i] <==> old(present[i]) || (i < |hold| && hold[i])
  {
    forall i | 0 <= i < Min(|hold|, present.Length) {
      present[i] := present[i] || hold[i];
    }
  }

  /** The gain each frame aims for: the gap gain in long gaps, the speech gain everywhere else. */
  method GapTargets(present: seq<bool>, minGap: nat, speechGain: real, gapGain: real) returns (target: array<real>)
    ensures fresh(target) && target.Length == |present|
    ensures forall i | 0 <= i < |present| ::
      target[i] == if InLongGap(present, i, minGap) then gapGain else speechGain
  {
    target := new real[|present|](_ => speechGain);
    var runs := GapRuns(present);
    GapRunsAreTheMaximalGaps(present);
    for r := 0 to |runs|
      invariant forall i | 0 <= i < |present| ::
        target[i] == if InLongRun(runs, r, i, minGap) then gapGain else speechGain
    {
      var (s, e) := runs[r];
      assert MaximalGap(present, s, e) by {
        assert runs[r] in runs;
      }
      if e - s >= minGap {
        forall i | s <= i < e {
          target[i] := gapGain;
        }
      }
    }
    forall i | 0 <= i < |present|
      ensures InLongGap(present, i, minGap) <==> InLongRun(runs, |runs|, i, minGap)
    {
      LongGapsAreLongRuns(present, i, minGap);
    }
  }

  /** One of the first `n` runs is long enough and covers frame `i`. */
  ghost predicate InLongRun(runs: seq<(nat, nat)>, n: nat, i: int, minGap: nat)
    requires n <= |runs|
  {
    exists q :: 0 <= q < n && runs[q].0 <= i < runs[q].1 && runs[q].1 - runs[q].0 >= minGap
  }

  lemma LongGapsAreLongRuns(present: seq<bool>, i: int, minGap: nat)
    ensures InLongGap(present, i, minGap) <==> InLongRun(GapRuns(present), |GapRuns(present)|, i, minGap)
  {
    var runs := GapRuns(present);
    GapRunsAreTheMaximalGaps(present);
    if InLongGap(present, i, minGap) {
      var s, e :| MaximalGap(present, s, e) && s <= i < e && e - s >= minGap;
      assert (s, e) in runs;
      var q :| 0 <= q < |runs| && runs[q] == (s, e);
      assert runs[q].0 <= i < runs[q].1;
    }
    if q :| 0 <= q < |runs| && runs[q].0 <= i < runs[q].1 && runs[q].1 - runs[q].0 >= minGap {
      assert runs[q] in runs;
      assert MaximalGap(present, runs[q].0, runs[q].1);
    }
  }

  // ----------------------------------------------------------------- smoothing

  function MinReal(a: real, b: real): real {
    if a < b then a else b
  }

  function MaxReal(a: real, b: real): real {
    if a < b then b else a
  }

  /** One smoothing step: the attack rate when the gain drops, the release rate when it rises. */
  function OnePole(level: real, goal: real, attack: real, release: real): real {
    Approach(goal, level - goal, Rate(level, goal, attack, release))
  }

  /** `goal`, missed by a share of `distance`. */
  function Approach(goal: real, distance: real, share: real): real {
    goal + distance * share
  }

  function Rate(level: real, goal: real, attack: real, release: real): real {
    if goal < level then attack else release
  }

  /** A one-pole step moves towards the goal without passing it. */
  lemma OnePoleApproaches(level: real, goal: real, attack: real, release: real)
    requires 0.0 <= attack <= 1.0 && 0.0 <= release <= 1.0
    ensures MinReal(level, goal) <= OnePole(level, goal, attack, release) <= MaxReal(level, goal)
  {
    ApproachStaysBetween(goal, level - goal, Rate(level, goal, attack, release));
  }

  lemma ApproachStaysBetween(goal: real, distance: real, share: real)
    requires 0.0 <= share <= 1.0
    ensures MinReal(goal + distance, goal) <= Approach(goal, distance, share) <= MaxReal(goal + distance, goal)
  {
    ScaledBetween(distance, share);
    var p := distance * share;
    assert if distance >= 0.0 then 0.0 <= p <= distance else distance <= p <= 0.0;
    assert Approach(goal, distance, share) == goal + p;
  }

  /** The smoothing loop, started at the first target. */
  method Smoothen(target: seq<real>, attack: real, release: real, ghost low: real, ghost high: real)
    returns (smoothed: seq<real>)
    requires target != [] && 0.0 <= attack <= 1.0 && 0.0 <= release <= 1.0
    requires forall i | 0 <= i < |target| :: low <= target[i] <= high
    ensures |smoothed| == |target| && smoothed[0] == target[0]
    ensures forall i | 0 <= i < |target| :: low <= smoothed[i] <= high
    ensures forall i | 0 < i < |target| ::
      smoothed[i] == OnePole(smoothed[i - 1], target[i], attack, release)
  {
    smoothed := [];
    var level := target[0];
    for i := 0 to |target|
      invariant |smoothed| == i && level == (if i == 0 then target[0] else smoothed[i - 1])
      invariant i > 0 ==> smoothed[0] == target[0]
      invariant forall j | 0 <= j < i :: low <= smoothed[j] <= high
      invariant forall j | 0 < j < i :: smoothed[j] == OnePole(smoothed[j - 1], target[j], attack, release)
    {
      OnePoleApproaches(level, target[i], attack, release);
      level := OnePole(level, target[i], attack, release);
      smoothed := smoothed + [level];
    }
  }

  function CeilDiv(a: nat, b: nat): nat
    requires b > 0
  {
    (a + b - 1) / b
  }

  /** Busy frames of the whole procedure: look-ahead speech or a held frame. */
  ghost function Busy(speech: seq<bool>, lead: nat, hold: seq<bool>): (busy: seq<bool>)
    ensures |busy| == |speech|
  {
    seq(|speech|, i requires 0 <= i < |speech| =>
      SpeechWithin(speech, i, Reach(Min(lead, |speech| - 1))) || (i < |hold| && hold[i]))
  }

  /** The gain frame `i` aims for, said without the loops. */
  ghost function Goal(
    speech: seq<bool>, i: int, speechGain: real, gapGain: real,
    lookaheadMs: int, minGapMs: int, frameMs: nat, hold: seq<bool>): real
    requires frameMs > 0
  {
    var busy := Busy(speech, if lookaheadMs > 0 then CeilDiv(lookaheadMs, frameMs) else 0, hold);
    if InLongGap(busy, i, if minGapMs > 0 then CeilDiv(minGapMs, frameMs) else 0) then gapGain else speechGain
  }

  /** `duck_gain` up to the smoothed frame curve.  `speech` says which frames exceed the threshold. */
  method FrameGains(
    speech: seq<bool>, speechGain: real, gapGain: real, attack: real, release: real,
    lookaheadMs: int, minGapMs: int, frameMs: nat, hold: seq<bool>)
    returns (smoothed: seq<real>)
    requires speech != [] && frameMs > 0 && 0.0 <= attack <= 1.0 && 0.0 <= release <= 1.0
    ensures |smoothed| == |speech|
    ensures forall i | 0 <= i < |speech| ::
      MinReal(speechGain, gapGain) <= smoothed[i] <= MaxReal(speechGain, gapGain)
    ensures smoothed[0] == Goal(speech, 0, speechGain, gapGain, lookaheadMs, minGapMs, frameMs, hold)
    ensures forall i | 0 < i < |speech| ::
      smoothed[i] == OnePole(
        smoothed[i - 1], Goal(speech, i, speechGain, gapGain, lookaheadMs, minGapMs, frameMs, hold), attack, release)
  {
    var lead := if lookaheadMs > 0 then CeilDiv(lookaheadMs, frameMs) else 0;
    var minGap := if minGapMs > 0 then CeilDiv(minGapMs, frameMs) else 0;
    var present := new bool[|speech|](i requires 0 <= i < |speech| => speech[i]);
    assert present[..] == speech;
    LookAhead(present, lead);
    Hold(present, hold);
    assert present[..] == Busy(speech, lead, hold);
    var target := GapTargets(present[..], minGap, speechGain, gapGain);
    smoothed := Smoothen(target[..], attack, release, MinReal(speechGain, gapGain), MaxReal(speechGain, gapGain));
  }

  // ----------------------------------------------------------------- sample resolution

  function Center(i: nat, frame: nat): real {
    i as real * frame as real + frame as real / 2.0
  }

  lemma NonPositiveProduct(x: real, y: real)
    requires y > 0.0
    ensures x <= 0.0 ==> x * y <= 0.0
  {
  }

  lemma QuotientInRange(y: real, frame: real, n: int)
    requires frame > 0.0 && 0.0 < y < n as real * frame
    ensures 0 <= (y / frame).Floor < n
  {
    var q := y / frame;
    assert q * frame == y;
    NonPositiveProduct(q, frame);
    NonPositiveProduct(n as real - q, frame);
    assert (n as real - q) * frame == n as real * frame - y;
  }

  function Mix(a: real, b: real, w: real): real {
    a + (b - a) * w
  }

  /** Linear interpolation of the frame curve at sample `x`, constant beyond the outer frame centres. */
  function Interp(levels: seq<real>, frame: nat, x: nat): real
    requires levels != [] && frame > 0
  {
    var t := x as real;
    if t <= Center(0, frame) then levels[0]
    else if t >= Center(|levels| - 1, frame) then levels[|levels| - 1]
    else
      var y := t - Center(0, frame);
      var i := (y / frame as real).Floor;
      QuotientInRange(y, frame as real, |levels| - 1);
      Mix(levels[i], levels[i + 1], y / frame as real - i as real)
  }

  lemma MixBounds(a: real, b: real, w: real, low: real, high: real)
    requires 0.0 <= w <= 1.0 && low <= a <= high && low <= b <= high
    ensures low <= Mix(a, b, w) <= high
  {
    ScaledBetween(a - low, 1.0 - w);
    ScaledBetween(b - low, w);
    ScaledBetween(high - a, 1.0 - w);
    ScaledBetween(high - b, w);
    assert Mix(a, b, w) - low == (a - low) * (1.0 - w) + (b - low) * w;
    assert high - Mix(a, b, w) == (high - a) * (1.0 - w) + (high - b) * w;
  }

  lemma InterpBounds(levels: seq<real>, frame: nat, x: nat, low: real, high: real)
    requires levels != [] && frame > 0
    requires forall i | 0 <= i < |levels| :: low <= levels[i] <= high
    ensures low <= Interp(levels, frame, x) <= high
  {
    var y := x as real - Center(0, frame);
    if 0.0 < y && x as real < Center(|levels| - 1, frame) {
      QuotientInRange(y, frame as real, |levels| - 1);
      var i := (y / frame as real).Floor;
      MixBounds(levels[i], levels[i + 1], y / frame as real - i as real, low, high);
    }
  }

  /** `duck_gain`: one gain per sample.  Whatever the speech, the curve never leaves the band between
      the speech gain and the gap gain; without any frame it is the gap gain throughout. */
  method DuckGain(
    speech: seq<bool>, samples: nat, speechGain: real, gapGain: real, attack: real, release: real,
    lookaheadMs: int, minGapMs: int, frameMs: nat, frame: nat, hold: seq<bool>)
    returns (curve: seq<real>, ghost levels: seq<real>)
    requires frameMs > 0 && frame > 0 && 0.0 <= attack <= 1.0 && 0.0 <= release <= 1.0
    ensures |curve| == samples
    ensures forall x | 0 <= x < samples ::
      MinReal(speechGain, gapGain) <= curve[x] <= MaxReal(speechGain, gapGain)
    ensures speech == [] ==> forall x | 0 <= x < samples :: curve[x] == gapGain
    ensures |levels| == |speech|
    ensures speech != [] ==> forall x | 0 <= x < samples :: curve[x] == Interp(levels, frame, x)
    ensures forall i | 0 <= i < |speech| ::
      var goal := Goal(speech, i, speechGain, gapGain, lookaheadMs, minGapMs, frameMs, hold);
      levels[i] == if i == 0 then goal else OnePole(levels[i - 1], goal, attack, release)
  {
    if speech == [] {
      return seq(samples, _ => gapGain), [];
    }
    var smoothed := FrameGains(
      speech, speechGain, gapGain, attack, release, lookaheadMs, minGapMs, frameMs, hold);
    levels := smoothed;
    curve := [];
    for x := 0 to samples
      invariant |curve| == x
      invariant forall y | 0 <= y < x ::
        curve[y] == Interp(levels, frame, y)
        && MinReal(speechGain, gapGain) <= curve[y] <= MaxReal(speechGain, gapGain)
    {
      InterpBounds(smoothed, frame, x, MinReal(speechGain, gapGain), MaxReal(speechGain, gapGain));
      curve := curve + [Interp(smoothed, frame, x)];
    }
  }
}
