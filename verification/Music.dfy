/** Resolving a chapter's music actions into regions (`_resolve_music`) and the mood carried into the next
    chunk or chapter (`_last_mood`). */
module Music {
  import opened Common
  import opened Book

  const DEFAULT_MOOD := "calm"
  const CARRY_ENERGY := FULL / 5
  const NO_MOOD := "none"

  datatype Bed = Bed(mood: string, energy: Level, prompt: string)

  /** A music cue with the index of its span in the chapter and its position in the list of cues. */
  datatype Event = Event(index: nat, listed: nat, cue: MusicCueRaw)

  datatype Region = Region(start: nat, end: nat, bed: Bed)

  type Prompts = string -> string

  // ----------------------------------------------------------------- the per-span meaning

  /** What one action leaves playing. */
  function Effect(cue: MusicCueRaw, prompts: Prompts): Option<Bed> {
    if cue.action == Stop then None
    else Some(Bed(cue.mood, cue.energy, if cue.prompt != "" then cue.prompt else prompts(cue.mood)))
  }

  /** The bed in force before the first action. */
  function Opening(priorMood: string, prompts: Prompts): Option<Bed> {
    if priorMood == NO_MOOD then None else Some(Bed(priorMood, CARRY_ENERGY, prompts(priorMood)))
  }

  /** Event `k` is the one in force at span `i`: the latest placed at or before it, and the last listed of
      those on its span. */
  ghost predicate Governs(events: seq<Event>, k: int, i: nat) {
    && 0 <= k < |events| && events[k].index <= i
    && forall j | 0 <= j < |events| && events[j].index <= i ::
      events[j].index < events[k].index || (events[j].index == events[k].index && j <= k)
  }

  /** `bed` is what plays at span `i`, read off the unsorted cue list. */
  ghost predicate PlaysAt(events: seq<Event>, opening: Option<Bed>, prompts: Prompts, i: nat, bed: Option<Bed>) {
    || (exists k :: Governs(events, k, i) && bed == Effect(events[k].cue, prompts))
    || ((forall k | 0 <= k < |events| :: events[k].index > i) && bed == opening)
  }

  // ----------------------------------------------------------------- placing the cues

  /** The cues whose span the chapter has, in list order. */
  function Placed(cues: seq<MusicCueRaw>, indexOf: map<string, nat>, listed: nat): seq<Event> {
    if cues == [] then []
    else if cues[0].spanId in indexOf then
      [Event(indexOf[cues[0].spanId], listed, cues[0])] + Placed(cues[1..], indexOf, listed + 1)
    else Placed(cues[1..], indexOf, listed + 1)
  }

  /** The first loop of `_resolve_music`; cues for unknown spans are dropped with a warning. */
  method PlaceCues(cues: seq<MusicCueRaw>, indexOf: map<string, nat>) returns (events: seq<Event>, dropped: nat)
    ensures events == Placed(cues, indexOf, 0) && Numbered(events)
    ensures forall k | 0 <= k < |events| :: events[k].cue.spanId in indexOf && events[k].index == indexOf[events[k].cue.spanId]
    ensures |events| + dropped == |cues|
  {
    events, dropped := [], 0;
    for k := 0 to |cues|
      invariant events + Placed(cues[k..], indexOf, k) == Placed(cues, indexOf, 0)
      invariant |events| + dropped == k
      invariant Numbered(events) && forall j | 0 <= j < |events| :: events[j].listed < k
      invariant forall j | 0 <= j < |events| ::
        events[j].cue.spanId in indexOf && events[j].index == indexOf[events[j].cue.spanId]
    {
      assert cues[k..][0] == cues[k] && cues[k..][1..] == cues[k + 1..];
      if cues[k].spanId !in indexOf {
        dropped := dropped + 1;
        continue;
      }
      ConcatAssoc(events, [Event(indexOf[cues[k].spanId], k, cues[k])], Placed(cues[k + 1..], indexOf, k + 1));
      events := events + [Event(indexOf[cues[k].spanId], k, cues[k])];
    }
  }

  /** The placed cues are numbered as listed and have the index of their span. */
  lemma {:induction false} PlacedAreNumbered(cues: seq<MusicCueRaw>, indexOf: map<string, nat>, listed: nat)
    ensures
      var events := Placed(cues, indexOf, listed);
      && Numbered(events)
      && forall k | 0 <= k < |events| ::
        && events[k].listed >= listed && events[k].cue.spanId in indexOf
        && events[k].index == indexOf[events[k].cue.spanId]
  {
    if cues != [] {
      PlacedAreNumbered(cues[1..], indexOf, listed + 1);
    }
  }

  // ----------------------------------------------------------------- stable sort

  /** Insertion in front of the first event that is not placed earlier. */
  function Insert(e: Event, sorted: seq<Event>): seq<Event> {
    if sorted == [] || e.index <= sorted[0].index then [e] + sorted else [sorted[0]] + Insert(e, sorted[1..])
  }

  /** `events.sort(key=index)`. */
  function StableSort(events: seq<Event>): seq<Event> {
    if events == [] then [] else Insert(events[0], StableSort(events[1..]))
  }

  predicate Earlier(a: Event, b: Event) {
    a.index < b.index || (a.index == b.index && a.listed < b.listed)
  }

  /** Ordered by span, and on the same span as listed. */
  ghost predicate Sorted(events: seq<Event>) {
    forall i, j | 0 <= i < j < |events| :: Earlier(events[i], events[j])
  }

  ghost predicate Numbered(events: seq<Event>) {
    forall i, j | 0 <= i < j < |events| :: events[i].listed < events[j].listed
  }

  lemma {:induction false} InsertMembers(e: Event, sorted: seq<Event>)
    ensures forall x :: x in Insert(e, sorted) <==> x == e || x in sorted
  {
    if sorted != [] && e.index > sorted[0].index {
      InsertMembers(e, sorted[1..]);
    }
  }

  lemma SortedCons(e: Event, sorted: seq<Event>)
    requires Sorted(sorted) && forall x | x in sorted :: Earlier(e, x)
    ensures Sorted([e] + sorted)
  {
    var all := [e] + sorted;
    forall i, j | 0 <= i < j < |all|
      ensures Earlier(all[i], all[j])
    {
      assert all[j] == sorted[j - 1] && all[j] in sorted;
    }
  }

  lemma {:induction false} InsertKeepsOrder(e: Event, sorted: seq<Event>)
    requires Sorted(sorted) && forall x | x in sorted :: e.listed < x.listed
    ensures Sorted(Insert(e, sorted))
  {
    if sorted == [] || e.index <= sorted[0].index {
      SortedCons(e, sorted);
    } else {
      InsertKeepsOrder(e, sorted[1..]);
      InsertMembers(e, sorted[1..]);
      SortedCons(sorted[0], Insert(e, sorted[1..]));
    }
  }

  lemma {:induction false} SortIsStable(events: seq<Event>)
    requires Numbered(events)
    ensures Sorted(StableSort(events))
    ensures forall x :: x in StableSort(events) <==> x in events
  {
    if events != [] {
      SortIsStable(events[1..]);
      InsertKeepsOrder(events[0], StableSort(events[1..]));
      InsertMembers(events[0], StableSort(events[1..]));
    }
  }

  // ----------------------------------------------------------------- folding sorted events

  /** What plays at span `i` after all sorted events up to it. */
  function Fold(sorted: seq<Event>, opening: Option<Bed>, prompts: Prompts, i: nat): Option<Bed> {
    if sorted == [] then opening
    else if sorted[|sorted| - 1].index > i then Fold(sorted[..|sorted| - 1], opening, prompts, i)
    else Effect(sorted[|sorted| - 1].cue, prompts)
  }

  /** The last sorted event placed at or before `i`. */
  lemma {:induction false} LastUpTo(sorted: seq<Event>, opening: Option<Bed>, prompts: Prompts, i: nat)
    returns (k: int)
    requires Sorted(sorted)
    ensures -1 <= k < |sorted| && (forall j | k < j < |sorted| :: sorted[j].index > i)
    ensures k == -1 ==> Fold(sorted, opening, prompts, i) == opening
    ensures k >= 0 ==> sorted[k].index <= i && Fold(sorted, opening, prompts, i) == Effect(sorted[k].cue, prompts)
    decreases |sorted|
  {
    if sorted == [] {
      k := -1;
    } else if sorted[|sorted| - 1].index > i {
      k := LastUpTo(sorted[..|sorted| - 1], opening, prompts, i);
    } else {
      k := |sorted| - 1;
    }
  }

  /** Folding the stably sorted events is the per-span meaning of the unsorted list. */
  lemma FoldMeansPlaysAt(events: seq<Event>, opening: Option<Bed>, prompts: Prompts, i: nat)
    requires Numbered(events)
    ensures PlaysAt(events, opening, prompts, i, Fold(StableSort(events), opening, prompts, i))
  {
    var sorted := StableSort(events);
    SortIsStable(events);
    var k := LastUpTo(sorted, opening, prompts, i);
    if k == -1 {
      forall j | 0 <= j < |events| ensures events[j].index > i {
        assert events[j] in events && events[j] in sorted;
      }
    } else {
      assert sorted[k] in sorted;
      var m :| 0 <= m < |events| && events[m] == sorted[k];
      forall j | 0 <= j < |events| && events[j].index <= i
        ensures events[j].index < events[m].index || (events[j].index == events[m].index && j <= m)
      {
        assert events[j] in events && events[j] in sorted;
        var l :| 0 <= l < |sorted| && sorted[l] == events[j];
        assert l <= k;
      }
      assert Governs(events, m, i);
    }
  }

  // ----------------------------------------------------------------- the region loop

  ghost predicate Covers(r: Region, i: nat) {
    r.start <= i <= r.end
  }

  /** Non-empty regions, in order and apart. */
  ghost predicate Disjoint(regions: seq<Region>) {
    && (forall k | 0 <= k < |regions| :: regions[k].start <= regions[k].end)
    && (forall k, l | 0 <= k < l < |regions| :: regions[k].end < regions[l].start)
  }

  /** Up to span `upto` (exclusive), the regions show exactly what the sorted events leave playing. */
  ghost predicate Shows(regions: seq<Region>, sorted: seq<Event>, opening: Option<Bed>, prompts: Prompts, upto: nat) {
    && (forall k | 0 <= k < |regions| :: regions[k].end < upto)
    && (forall k, i: nat | 0 <= k < |regions| && Covers(regions[k], i) ::
         Fold(sorted, opening, prompts, i) == Some(regions[k].bed))
    && (forall i: nat | i < upto && Fold(sorted, opening, prompts, i).Some? ::
         exists k | 0 <= k < |regions| :: Covers(regions[k], i))
  }

  /** The open region, not yet appended. */
  datatype OpenRegion = Closed | Open(start: nat, bed: Bed)

  function BedOf(open: OpenRegion): Option<Bed> {
    if open.Open? then Some(open.bed) else None
  }

  /** The regions after `close(at - 1)`: a region that would be empty is dropped. */
  function ClosedAt(regions: seq<Region>, open: OpenRegion, at: nat): seq<Region> {
    if open.Open? && at - 1 >= open.start then regions + [Region(open.start, at - 1, open.bed)] else regions
  }

  /** The state of the loop after the sorted events `done`: everything before `from` is in `regions`, and from
      there on the open region plays. */
  ghost predicate Resolved(
    regions: seq<Region>, open: OpenRegion, done: seq<Event>, opening: Option<Bed>, prompts: Prompts, from: nat)
  {
    && Disjoint(regions) && Shows(regions, done, opening, prompts, from)
    && (open.Open? ==> open.start == from)
    && (forall i: nat | i >= from :: Fold(done, opening, prompts, i) == BedOf(open))
    && from == if done == [] then 0 else done[|done| - 1].index
  }

  lemma CloseShows(
    regions: seq<Region>, open: OpenRegion, done: seq<Event>, opening: Option<Bed>, prompts: Prompts, from: nat, at: nat)
    requires Resolved(regions, open, done, opening, prompts, from) && from <= at
    ensures Disjoint(ClosedAt(regions, open, at)) && Shows(ClosedAt(regions, open, at), done, opening, prompts, at)
  {
    var more := ClosedAt(regions, open, at);
    forall i: nat | i < at && Fold(done, opening, prompts, i).Some?
      ensures exists k | 0 <= k < |more| :: Covers(more[k], i)
    {
      if i < from {
        var k :| 0 <= k < |regions| && Covers(regions[k], i);
        assert Covers(more[k], i);
      } else {
        assert Covers(more[|regions|], i);
      }
    }
  }

  /** The event takes over from its span on; before it nothing changes. */
  lemma FoldSnoc(done: seq<Event>, e: Event, opening: Option<Bed>, prompts: Prompts, i: nat)
    ensures Fold(done + [e], opening, prompts, i) ==
      if i < e.index then Fold(done, opening, prompts, i) else Effect(e.cue, prompts)
  {
    assert (done + [e])[..|done|] == done;
  }

  lemma ResolveStep(
    regions: seq<Region>, open: OpenRegion, done: seq<Event>, e: Event, opening: Option<Bed>, prompts: Prompts, from: nat)
    requires Resolved(regions, open, done, opening, prompts, from) && from <= e.index
    ensures
      var effect := Effect(e.cue, prompts);
      var now := if effect.Some? then Open(e.index, effect.value) else Closed;
      Resolved(ClosedAt(regions, open, e.index), now, done + [e], opening, prompts, e.index)
  {
    CloseShows(regions, open, done, opening, prompts, from, e.index);
    forall i: nat {
      FoldSnoc(done, e, opening, prompts, i);
    }
  }

  lemma OpeningResolved(opening: Option<Bed>, prompts: Prompts)
    ensures Resolved([], if opening.Some? then Open(0, opening.value) else Closed, [], opening, prompts, 0)
  {
  }

  /** The loop of `_resolve_music`, over the sorted events. */
  method ResolveSorted(sorted: seq<Event>, opening: Option<Bed>, prompts: Prompts, spanCount: nat)
    returns (regions: seq<Region>)
    requires spanCount > 0 && Sorted(sorted) && forall k | 0 <= k < |sorted| :: sorted[k].index < spanCount
    ensures Disjoint(regions) && Shows(regions, sorted, opening, prompts, spanCount)
  {
    regions := [];
    var open := if opening.Some? then Open(0, opening.value) else Closed;
    ghost var from: nat := 0;
    OpeningResolved(opening, prompts);
    for k := 0 to |sorted|
      invariant Resolved(regions, open, sorted[..k], opening, prompts, from)
    {
      var index, cue := sorted[k].index, sorted[k].cue;
      assert k > 0 ==> Earlier(sorted[k - 1], sorted[k]);
      ResolveStep(regions, open, sorted[..k], sorted[k], opening, prompts, from);
      assert sorted[..k + 1] == sorted[..k] + [sorted[k]];
      from := index;
      if cue.action == Stop {
        regions := ClosedAt(regions, open, index);
        open := Closed;
        continue;
      }
      var bed := Bed(cue.mood, cue.energy, if cue.prompt != "" then cue.prompt else prompts(cue.mood));
      if open.Open? && open.start == index {
        open := Open(index, bed);
        continue;
      }
      regions := ClosedAt(regions, open, index);
      open := Open(index, bed);
    }
    assert sorted[..|sorted|] == sorted;
    CloseShows(regions, open, sorted, opening, prompts, from, spanCount);
    regions := ClosedAt(regions, open, spanCount);
  }

  /** Span `i` lies in a region with that bed, or in none. */
  ghost predicate ShownAt(regions: seq<Region>, i: nat, bed: Option<Bed>) {
    match bed
    case None => forall k | 0 <= k < |regions| :: !Covers(regions[k], i)
    case Some(b) => exists k | 0 <= k < |regions| :: Covers(regions[k], i) && regions[k].bed == b
  }

  ghost predicate FaithfulAt(regions: seq<Region>, events: seq<Event>, opening: Option<Bed>, prompts: Prompts, i: nat) {
    exists bed :: PlaysAt(events, opening, prompts, i, bed) && ShownAt(regions, i, bed)
  }

  /** The regions against the meaning of the cues, span by span. */
  ghost predicate Faithful(
    regions: seq<Region>, events: seq<Event>, opening: Option<Bed>, prompts: Prompts, spanCount: nat)
  {
    forall i: nat | i < spanCount :: FaithfulAt(regions, events, opening, prompts, i)
  }

  /** The cues mean one thing at each span. */
  lemma PlaysAtIsUnique(
    events: seq<Event>, opening: Option<Bed>, prompts: Prompts, i: nat, a: Option<Bed>, b: Option<Bed>)
    requires Numbered(events) && PlaysAt(events, opening, prompts, i, a) && PlaysAt(events, opening, prompts, i, b)
    ensures a == b
  {
    forall k, l | Governs(events, k, i) && Governs(events, l, i)
      ensures k == l
    {
    }
  }

  /** Nothing plays at any span. */
  ghost predicate Silent(events: seq<Event>, opening: Option<Bed>, prompts: Prompts, spanCount: nat) {
    forall i: nat | i < spanCount :: PlaysAt(events, opening, prompts, i, None)
  }

  lemma ShowsIsFaithful(
    regions: seq<Region>, events: seq<Event>, opening: Option<Bed>, prompts: Prompts, spanCount: nat)
    requires Numbered(events) && Shows(regions, StableSort(events), opening, prompts, spanCount)
    ensures Faithful(regions, events, opening, prompts, spanCount)
    ensures regions == [] ==> Silent(events, opening, prompts, spanCount)
  {
    var sorted := StableSort(events);
    forall i: nat | i < spanCount
      ensures FaithfulAt(regions, events, opening, prompts, i)
      ensures regions == [] ==> PlaysAt(events, opening, prompts, i, None)
    {
      var bed := Fold(sorted, opening, prompts, i);
      FoldMeansPlaysAt(events, opening, prompts, i);
      if bed.Some? {
        var k :| 0 <= k < |regions| && Covers(regions[k], i);
        assert regions[k].bed == bed.value;
      }
      assert ShownAt(regions, i, bed);
    }
  }

  /** `_resolve_music`, on the cues whose span is known.  The regions are ordered, apart and non-empty, and show at every
      span exactly what the cues leave playing there; a chapter without any music gets one calm bed. */
  method ResolveMusic(events: seq<Event>, spanCount: nat, priorMood: string, prompts: Prompts)
    returns (regions: seq<Region>)
    requires Numbered(events) && forall k | 0 <= k < |events| :: events[k].index < spanCount
    ensures spanCount == 0 ==> regions == []
    ensures Disjoint(regions) && forall k | 0 <= k < |regions| :: regions[k].end < spanCount
    ensures spanCount > 0 ==>
      || Faithful(regions, events, Opening(priorMood, prompts), prompts, spanCount)
      || (Silent(events, Opening(priorMood, prompts), prompts, spanCount)
          && regions == [Region(0, spanCount - 1, Bed(DEFAULT_MOOD, CARRY_ENERGY, prompts(DEFAULT_MOOD)))])
    ensures spanCount > 0 ==> regions != []
  {
    if spanCount == 0 {
      return [];
    }
    var sorted := StableSort(events);
    SortIsStable(events);
    forall k | 0 <= k < |sorted| ensures sorted[k].index < spanCount {
      assert sorted[k] in sorted && sorted[k] in events;
    }
    regions := ResolveSorted(sorted, Opening(priorMood, prompts), prompts, spanCount);
    ShowsIsFaithful(regions, events, Opening(priorMood, prompts), prompts, spanCount);
    if regions == [] {
      regions := [Region(0, spanCount - 1, Bed(DEFAULT_MOOD, CARRY_ENERGY, prompts(DEFAULT_MOOD)))];
    }
  }

  // ----------------------------------------------------------------- the mood carried on

  function MoodOf(bed: Option<Bed>): string {
    match bed case None => NO_MOOD case Some(b) => b.mood
  }

  function MoodAfter(cue: MusicCueRaw): string {
    if cue.action == Stop then NO_MOOD else cue.mood
  }

  /** The mood in force after a list of cues: the last listed one wins. */
  function MoodLeft(cues: seq<MusicCueRaw>, current: string): string {
    if cues == [] then current else MoodAfter(cues[|cues| - 1])
  }

  /** `_last_mood` over a list of cues. */
  method LastMood(cues: seq<MusicCueRaw>, current: string) returns (mood: string)
    ensures mood == MoodLeft(cues, current)
  {
    mood := current;
    for k := 0 to |cues|
      invariant mood == MoodLeft(cues[..k], current)
    {
      mood := if cues[k].action == Stop then NO_MOOD else cues[k].mood;
    }
  }

  /** Moods are carried through a list of cues piece by piece. */
  lemma MoodLeftConcat(a: seq<MusicCueRaw>, b: seq<MusicCueRaw>, current: string)
    ensures MoodLeft(a + b, current) == MoodLeft(b, MoodLeft(a, current))
  {
  }

  /** The mood that plays at span `last` of a chapter that starts in mood `prior`. */
  function FinalMood(events: seq<Event>, prior: string, prompts: Prompts, last: nat): string {
    MoodOf(Fold(StableSort(events), Opening(prior, prompts), prompts, last))
  }

  /** The mood at the last span is that of the governing cue, or the prior mood if no cue has a place. */
  lemma FinalMoodIsGoverning(events: seq<Event>, prior: string, prompts: Prompts, last: nat)
    requires Numbered(events) && forall k | 0 <= k < |events| :: events[k].index <= last
    ensures events == [] ==> FinalMood(events, prior, prompts, last) == prior
    ensures events != [] ==>
      exists k :: Governs(events, k, last) && FinalMood(events, prior, prompts, last) == MoodAfter(events[k].cue)
  {
    FoldMeansPlaysAt(events, Opening(prior, prompts), prompts, last);
    if events != [] {
      assert events[0].index <= last;
    }
  }

  lemma GoverningIsUnique(events: seq<Event>, k: int, m: int, i: nat)
    requires Governs(events, k, i) && Governs(events, m, i)
    ensures k == m
  {
  }

  /** The mood carried out of a chapter, read off the raw list of cues, is the mood playing at its last span if and only
      if the last listed cue leaves the mood of the cue that governs the last span (of the prior mood, if no cue has a
      place); always if there is no cue. */
  lemma CarriedMoodIsFinalMood(cues: seq<MusicCueRaw>, indexOf: map<string, nat>, prior: string, prompts: Prompts, last: nat)
    requires forall id | id in indexOf :: indexOf[id] <= last
    ensures
      var events := Placed(cues, indexOf, 0);
      var kept := MoodLeft(cues, prior) == FinalMood(events, prior, prompts, last);
      && (cues == [] ==> kept)
      && (cues != [] && events == [] ==> (kept <==> MoodAfter(cues[|cues| - 1]) == prior))
      && (forall k :: Governs(events, k, last) ==> (kept <==> MoodAfter(cues[|cues| - 1]) == MoodAfter(events[k].cue)))
  {
    var events := Placed(cues, indexOf, 0);
    PlacedAreNumbered(cues, indexOf, 0);
    FinalMoodIsGoverning(events, prior, prompts, last);
    forall k | Governs(events, k, last)
      ensures FinalMood(events, prior, prompts, last) == MoodAfter(events[k].cue)
    {
      var m :| Governs(events, m, last) && FinalMood(events, prior, prompts, last) == MoodAfter(events[m].cue);
      GoverningIsUnique(events, k, m, last);
    }
  }

  /** It is, whenever every cue has a place and no cue is placed after the last listed one. */
  lemma OrderedCuesCarryTheFinalMood(
    cues: seq<MusicCueRaw>, indexOf: map<string, nat>, prior: string, prompts: Prompts, last: nat)
    requires forall id | id in indexOf :: indexOf[id] <= last
    requires forall k | 0 <= k < |cues| :: cues[k].spanId in indexOf
    requires forall k | 0 <= k < |cues| :: indexOf[cues[k].spanId] <= indexOf[cues[|cues| - 1].spanId]
    ensures MoodLeft(cues, prior) == FinalMood(Placed(cues, indexOf, 0), prior, prompts, last)
  {
    CarriedMoodIsFinalMood(cues, indexOf, prior, prompts, last);
    if cues != [] {
      LastListedGoverns(cues, indexOf, last);
    }
  }

  lemma LastListedGoverns(cues: seq<MusicCueRaw>, indexOf: map<string, nat>, last: nat)
    requires cues != [] && forall id | id in indexOf :: indexOf[id] <= last
    requires forall k | 0 <= k < |cues| :: cues[k].spanId in indexOf
    requires forall k | 0 <= k < |cues| :: indexOf[cues[k].spanId] <= indexOf[cues[|cues| - 1].spanId]
    ensures
      var events := Placed(cues, indexOf, 0);
      Governs(events, |events| - 1, last) && events[|events| - 1].cue == cues[|cues| - 1]
  {
    AllPlaced(cues, indexOf, 0);
  }

  lemma {:induction false} AllPlaced(cues: seq<MusicCueRaw>, indexOf: map<string, nat>, listed: nat)
    requires forall k | 0 <= k < |cues| :: cues[k].spanId in indexOf
    ensures
      var events := Placed(cues, indexOf, listed);
      |events| == |cues| && forall k | 0 <= k < |cues| :: events[k] == Event(indexOf[cues[k].spanId], listed + k, cues[k])
  {
    if cues != [] {
      AllPlaced(cues[1..], indexOf, listed + 1);
    }
  }

  /** Cues listed out of span order can carry on another mood than the one the chapter ends with. */
  lemma OutOfOrderCuesCarryAnotherMood(prompts: Prompts)
    ensures
      var a := Event(5, 0, MusicCueRaw("c1p6s0", Start, "tense", FULL / 2, ""));
      var b := Event(0, 1, MusicCueRaw("c1p1s0", Start, "warm", FULL / 2, ""));
      && MoodAfter([a, b][1].cue) == "warm"
      && MoodOf(Fold(StableSort([a, b]), None, prompts, 9)) == "tense"
  {
    var a := Event(5, 0, MusicCueRaw("c1p6s0", Start, "tense", FULL / 2, ""));
    var b := Event(0, 1, MusicCueRaw("c1p1s0", Start, "warm", FULL / 2, ""));
    assert StableSort([b]) == [b];
    assert [a, b][1..] == [b];
    assert Insert(a, []) == [a];
    assert [b][1..] == [];
    assert StableSort([a, b]) == Insert(a, [b]) == [b, a];
  }
}
