/** Planning one chapter's speech requests (`plan_tts`): every piece of every segment, with the neighbouring
    text of the same speaker as context, and its cache key. */
module TtsPlan {
  import opened Book
  import opened Common
  import SplitText

  const NEIGHBOUR_TEXT_CHARS := 200

  datatype Assignment = Assignment(character: string, voiceId: string, settings: string, seed: nat)

  datatype Cast = Cast(narrator: Assignment, characters: seq<Assignment>)

  datatype Request = Request(
    text: string, voiceId: string, settings: string, emotion: string, delivery: string,
    previousText: Option<string>, nextText: Option<string>, seed: nat)

  datatype Job = Job(segmentId: string, piece: nat, request: Request, key: string)

  /** What planning depends on besides the script: voices, the provider's limit, key function. */
  datatype Setup = Setup(
    cast: Cast,
    settingsFor: (Assignment, string, string) -> string,
    key: Request -> string,
    maxChars: nat)

  function FindAssignment(characters: seq<Assignment>, speaker: string): Option<Assignment> {
    if characters == [] then None
    else if characters[0].character == speaker then Some(characters[0])
    else FindAssignment(characters[1..], speaker)
  }

  function AssignmentFor(cast: Cast, speaker: string): Assignment {
    if speaker == NARRATOR then cast.narrator
    else match FindAssignment(cast.characters, speaker) case Some(a) => a case None => cast.narrator
  }

  // ----------------------------------------------------------------- neighbours

  /** `k` is the next segment of `i`'s speaker: none in between, and for a character all in one paragraph. */
  ghost predicate Linked(script: seq<Segment>, i: int, k: int) {
    && 0 <= i < k < |script| && script[i].speaker == script[k].speaker
    && (forall j | i < j < k :: script[j].speaker != script[i].speaker)
    && (script[i].speaker != NARRATOR ==> forall j | i <= j <= k :: script[j].paragraph == script[i].paragraph)
  }

  /** The neighbour scan, from `position` on in `direction` (+1 or -1). */
  function Scan(script: seq<Segment>, index: nat, position: int, direction: int): (k: Option<nat>)
    requires index < |script| && direction in {-1, 1}
    ensures k.Some? ==> k.value < |script|
    decreases if direction == 1 then |script| - position else position + 1
  {
    if !(0 <= position < |script|) then None
    else if script[index].speaker != NARRATOR && script[position].paragraph != script[index].paragraph then None
    else if script[position].speaker == script[index].speaker then Some(position)
    else Scan(script, index, position + direction, direction)
  }

  function Neighbour(script: seq<Segment>, index: nat, direction: int): (k: Option<nat>)
    requires index < |script| && direction in {-1, 1}
    ensures k.Some? ==> k.value < |script|
  {
    Scan(script, index, index + direction, direction)
  }

  /** `_neighbour_text`. */
  method NeighbourText(script: seq<Segment>, index: nat, direction: int) returns (text: Option<string>)
    requires index < |script| && direction in {-1, 1}
    ensures
      var k := Neighbour(script, index, direction);
      text == if k.Some? then Some(script[k.value].text) else None
  {
    var position := index + direction;
    while 0 <= position < |script|
      invariant Scan(script, index, position, direction) == Neighbour(script, index, direction)
      decreases if direction == 1 then |script| - position else position + 1
    {
      var other := script[position];
      if script[index].speaker != NARRATOR && other.paragraph != script[index].paragraph {
        return None;
      }
      if other.speaker == script[index].speaker {
        return Some(other.text);
      }
      position := position + direction;
    }
    return None;
  }

  lemma {:induction false} ScanForward(script: seq<Segment>, i: nat, position: nat, k: nat)
    requires i < position && i < |script|
    requires forall j | i < j < position && j < |script| :: script[j].speaker != script[i].speaker
    requires script[i].speaker != NARRATOR ==>
      forall j | i <= j < position && j < |script| :: script[j].paragraph == script[i].paragraph
    ensures Scan(script, i, position, 1) == Some(k) <==> position <= k && Linked(script, i, k)
    decreases |script| - position
  {
    if position < |script| {
      if script[i].speaker != NARRATOR && script[position].paragraph != script[i].paragraph {
      } else if script[position].speaker != script[i].speaker {
        ScanForward(script, i, position + 1, k);
      }
    }
  }

  lemma {:induction false} ScanBackward(script: seq<Segment>, i: nat, position: int, k: nat)
    requires -1 <= position < i < |script|
    requires forall j | position < j < i :: script[j].speaker != script[i].speaker
    requires script[i].speaker != NARRATOR ==>
      forall j | position < j <= i :: script[j].paragraph == script[i].paragraph
    ensures Scan(script, i, position, -1) == Some(k) <==> k <= position && Linked(script, k, i)
    decreases position + 1
  {
    if position >= 0 {
      if script[i].speaker != NARRATOR && script[position].paragraph != script[i].paragraph {
      } else if script[position].speaker != script[i].speaker {
        ScanBackward(script, i, position - 1, k);
      }
    }
  }

  /** The forward and the backward scan are inverse to each other. */
  lemma NeighboursAreInverse(script: seq<Segment>, i: nat, k: nat)
    requires i < |script| && k < |script|
    ensures Neighbour(script, i, 1) == Some(k) <==> Linked(script, i, k)
    ensures Neighbour(script, k, -1) == Some(i) <==> Linked(script, i, k)
    ensures Neighbour(script, i, 1) == Some(k) <==> Neighbour(script, k, -1) == Some(i)
  {
    ScanForward(script, i, i + 1, k);
    ScanBackward(script, k, k - 1, i);
  }

  // ----------------------------------------------------------------- requests

  function Tail(text: Option<string>): Option<string> {
    match text
    case Some(t) =>
      if t == "" then None else Some(if |t| <= NEIGHBOUR_TEXT_CHARS then t else t[|t| - NEIGHBOUR_TEXT_CHARS..])
    case None => None
  }

  function Head(text: Option<string>): Option<string> {
    match text
    case Some(t) => if t == "" then None else Some(t[..Min(|t|, NEIGHBOUR_TEXT_CHARS)])
    case None => None
  }

  function TextAt(script: seq<Segment>, k: Option<nat>): Option<string>
    requires k.Some? ==> k.value < |script|
  {
    if k.Some? then Some(script[k.value].text) else None
  }

  function PiecesOf(script: seq<Segment>, i: nat, setup: Setup): seq<string>
    requires i < |script| && setup.maxChars >= 1
  {
    SplitText.Pieces(script[i].text, setup.maxChars)
  }

  function JobAt(segment: Segment, pieces: seq<string>, p: nat, before: Option<string>, after: Option<string>, setup: Setup): Job
    requires p < |pieces|
  {
    var assignment := AssignmentFor(setup.cast, segment.speaker);
    var previous := if p > 0 then Some(pieces[p - 1]) else before;
    var following := if p + 1 < |pieces| then Some(pieces[p + 1]) else after;
    var request := Request(
      pieces[p], assignment.voiceId, setup.settingsFor(assignment, segment.emotion, segment.delivery),
      segment.emotion, segment.delivery, Tail(previous), Head(following), assignment.seed);
    Job(segment.id, p, request, setup.key(request))
  }

  /** The jobs of segment `i`. */
  function SegmentJobs(script: seq<Segment>, i: nat, setup: Setup): (jobs: seq<Job>)
    requires i < |script| && setup.maxChars >= 1
    ensures |jobs| == |PiecesOf(script, i, setup)|
  {
    var pieces := PiecesOf(script, i, setup);
    var before, after := TextAt(script, Neighbour(script, i, -1)), TextAt(script, Neighbour(script, i, 1));
    seq(|pieces|, p requires 0 <= p < |pieces| => JobAt(script[i], pieces, p, before, after, setup))
  }

  function JobsFrom(script: seq<Segment>, i: nat, setup: Setup): seq<Job>
    requires i <= |script| && setup.maxChars >= 1
    decreases |script| - i
  {
    if i == |script| then [] else SegmentJobs(script, i, setup) + JobsFrom(script, i + 1, setup)
  }

  /** The inner loop of `plan_tts`. */
  method PlanSegment(script: seq<Segment>, i: nat, setup: Setup) returns (jobs: seq<Job>)
    requires i < |script| && setup.maxChars >= 1
    ensures jobs == SegmentJobs(script, i, setup)
  {
    var pieces := SplitText.Split(script[i].text, setup.maxChars);
    var before := NeighbourText(script, i, -1);
    var after := NeighbourText(script, i, 1);
    jobs := PlanPieces(script[i], pieces, before, after, setup);
  }

  method PlanPieces(segment: Segment, pieces: seq<string>, before: Option<string>, after: Option<string>, setup: Setup)
    returns (jobs: seq<Job>)
    ensures |jobs| == |pieces| && forall p | 0 <= p < |pieces| :: jobs[p] == JobAt(segment, pieces, p, before, after, setup)
  {
    jobs := [];
    for p := 0 to |pieces|
      invariant |jobs| == p
      invariant forall q | 0 <= q < p :: jobs[q] == JobAt(segment, pieces, q, before, after, setup)
    {
      jobs := jobs + [JobAt(segment, pieces, p, before, after, setup)];
    }
  }

  /** `plan_tts`. */
  method PlanTts(script: seq<Segment>, setup: Setup) returns (jobs: seq<Job>)
    requires setup.maxChars >= 1
    ensures jobs == JobsFrom(script, 0, setup)
  {
    jobs := [];
    for i := 0 to |script|
      invariant jobs + JobsFrom(script, i, setup) == JobsFrom(script, 0, setup)
    {
      var own := PlanSegment(script, i, setup);
      PlanStep(script, i, setup, jobs);
      jobs := jobs + own;
    }
    AppendNothing(jobs);
  }

  lemma PlanStep(script: seq<Segment>, i: nat, setup: Setup, jobs: seq<Job>)
    requires i < |script| && setup.maxChars >= 1
    ensures jobs + JobsFrom(script, i, setup) == (jobs + SegmentJobs(script, i, setup)) + JobsFrom(script, i + 1, setup)
  {
    ConcatAssoc(jobs, SegmentJobs(script, i, setup), JobsFrom(script, i + 1, setup));
  }

  // ----------------------------------------------------------------- editing one segment

  function Edited(script: seq<Segment>, k: nat, text: string): (r: seq<Segment>)
    requires k < |script|
    ensures |r| == |script|
  {
    script[k := script[k].(text := text)]
  }

  lemma {:induction false} ScanIgnoresText(script: seq<Segment>, k: nat, text: string, i: nat, position: int, direction: int)
    requires k < |script| && i < |script| && direction in {-1, 1}
    ensures Scan(Edited(script, k, text), i, position, direction) == Scan(script, i, position, direction)
    decreases if direction == 1 then |script| - position else position + 1
  {
    if 0 <= position < |script| {
      ScanIgnoresText(script, k, text, i, position + direction, direction);
    }
  }

  /** The neighbour's text changes only if the edited segment is that neighbour. */
  lemma NeighbourTextChanges(script: seq<Segment>, k: nat, text: string, i: nat, direction: int)
    requires k < |script| && i < |script| && i != k && direction in {-1, 1}
    ensures Neighbour(Edited(script, k, text), i, direction) == Neighbour(script, i, direction)
    ensures
      var was := TextAt(script, Neighbour(script, i, direction));
      var now := TextAt(Edited(script, k, text), Neighbour(Edited(script, k, text), i, direction));
      now == was || (if direction == 1 then Linked(script, i, k) else Linked(script, k, i))
  {
    ScanIgnoresText(script, k, text, i, i + direction, direction);
    NeighboursAreInverse(script, k, i);
    NeighboursAreInverse(script, i, k);
  }

  /** Another segment's job changes in at most one field: the last piece of the previous same-speaker segment
      sees a new `next_text`, the first piece of the next one a new `previous_text`. */
  lemma EditIsLocal(script: seq<Segment>, k: nat, text: string, i: nat, p: nat, setup: Setup)
    requires k < |script| && i < |script| && i != k && setup.maxChars >= 1
    requires p < |SegmentJobs(script, i, setup)|
    ensures
      var was, now := SegmentJobs(script, i, setup), SegmentJobs(Edited(script, k, text), i, setup);
      && |now| == |was| && now[p].segmentId == was[p].segmentId && now[p].piece == was[p].piece
      && now[p].request == was[p].request.(
           previousText := now[p].request.previousText, nextText := now[p].request.nextText)
      && (now[p].request.previousText != was[p].request.previousText ==> p == 0 && Linked(script, k, i))
      && (now[p].request.nextText != was[p].request.nextText ==> p == |was| - 1 && Linked(script, i, k))
      && (!(p == 0 && Linked(script, k, i)) && !(p == |was| - 1 && Linked(script, i, k)) ==> now[p] == was[p])
  {
    var edited := Edited(script, k, text);
    NeighbourTextChanges(script, k, text, i, -1);
    NeighbourTextChanges(script, k, text, i, 1);
    assert edited[i] == script[i];
    var was, now := SegmentJobs(script, i, setup)[p], SegmentJobs(edited, i, setup)[p];
    ContextOnly(
      script[i], PiecesOf(script, i, setup), p, TextAt(script, Neighbour(script, i, -1)), TextAt(script, Neighbour(script, i, 1)),
      TextAt(edited, Neighbour(edited, i, -1)), TextAt(edited, Neighbour(edited, i, 1)), was, now, setup);
  }

  /** With other neighbouring texts only the outer pieces of a segment change, and only in their context. */
  lemma ContextOnly(
    segment: Segment, pieces: seq<string>, p: nat, before: Option<string>, after: Option<string>,
    before': Option<string>, after': Option<string>, was: Job, now: Job, setup: Setup)
    requires p < |pieces| && was == JobAt(segment, pieces, p, before, after, setup)
    requires now == JobAt(segment, pieces, p, before', after', setup)
    ensures now.segmentId == was.segmentId && now.piece == was.piece
    ensures now.request == was.request.(previousText := now.request.previousText, nextText := now.request.nextText)
    ensures now.request.previousText != was.request.previousText ==> p == 0 && before' != before
    ensures now.request.nextText != was.request.nextText ==> p == |pieces| - 1 && after' != after
    ensures (p > 0 || before' == before) && (p < |pieces| - 1 || after' == after) ==> now == was
  {
  }

  // ----------------------------------------------------------------- what an edit costs

  ghost predicate Planned(script: seq<Segment>, setup: Setup, key: string)
    requires setup.maxChars >= 1
  {
    exists i: nat, p: nat :: i < |script| && p < |SegmentJobs(script, i, setup)| && SegmentJobs(script, i, setup)[p].key == key
  }

  function KeysOf(jobs: seq<Job>): set<string> {
    set j | j in jobs :: j.key
  }

  lemma {:induction false} KeysAreNoMoreThanJobs(jobs: seq<Job>)
    ensures |KeysOf(jobs)| <= |jobs|
  {
    if jobs != [] {
      KeysAreNoMoreThanJobs(jobs[1..]);
      assert KeysOf(jobs) == {jobs[0].key} + KeysOf(jobs[1..]);
    }
  }

  /** The keys an edit of segment `k` can introduce: those of its own pieces and of the two neighbouring ones. */
  ghost function AffectedKeys(script: seq<Segment>, k: nat, setup: Setup): set<string>
    requires k < |script| && setup.maxChars >= 1
  {
    KeysOf(SegmentJobs(script, k, setup)) + KeyBefore(script, k, setup) + KeyAfter(script, k, setup)
  }

  /** The key of the last piece of the previous segment of the same speaker. */
  ghost function KeyBefore(script: seq<Segment>, k: nat, setup: Setup): set<string>
    requires k < |script| && setup.maxChars >= 1
  {
    match Neighbour(script, k, -1) case Some(i) => LastKey(SegmentJobs(script, i, setup)) case None => {}
  }

  /** The key of the first piece of the next one. */
  ghost function KeyAfter(script: seq<Segment>, k: nat, setup: Setup): set<string>
    requires k < |script| && setup.maxChars >= 1
  {
    match Neighbour(script, k, 1) case Some(i) => FirstKey(SegmentJobs(script, i, setup)) case None => {}
  }

  function LastKey(jobs: seq<Job>): (s: set<string>)
    ensures |s| <= 1
  {
    if jobs == [] then {} else {jobs[|jobs| - 1].key}
  }

  function FirstKey(jobs: seq<Job>): (s: set<string>)
    ensures |s| <= 1
  {
    if jobs == [] then {} else {jobs[0].key}
  }

  lemma UnionSize(a: set<string>, b: set<string>)
    ensures |a + b| <= |a| + |b|
  {
    assert |a + b| == |a| + |b - a| by {
      assert a + b == a + (b - a);
    }
    assert b == (b - a) + (b * a);
    assert |b| == |b - a| + |b * a|;
  }

  /** After editing one segment, at most its own pieces and two more clips are not in the cache already, if every
      clip of the old plan is: the new plan's keys lie in the old plan's, or in a set of that size. */
  lemma EditCostsItsPiecesPlusTwo(script: seq<Segment>, k: nat, text: string, setup: Setup)
    requires k < |script| && setup.maxChars >= 1
    ensures
      var edited := Edited(script, k, text);
      && |AffectedKeys(edited, k, setup)| <= |SplitText.Pieces(text, setup.maxChars)| + 2
      && forall key :: Planned(edited, setup, key) ==> Planned(script, setup, key) || key in AffectedKeys(edited, k, setup)
  {
    var edited := Edited(script, k, text);
    var own := KeysOf(SegmentJobs(edited, k, setup));
    var last, first := KeyBefore(edited, k, setup), KeyAfter(edited, k, setup);
    KeysAreNoMoreThanJobs(SegmentJobs(edited, k, setup));
    UnionSize(own, last);
    UnionSize(own + last, first);
    forall key | Planned(edited, setup, key)
      ensures Planned(script, setup, key) || key in AffectedKeys(edited, k, setup)
    {
      var i: nat, p: nat :| i < |edited| && p < |SegmentJobs(edited, i, setup)| && SegmentJobs(edited, i, setup)[p].key == key;
      AffectedOrPlanned(script, k, text, i, p, setup);
    }
  }

  lemma LinkedKeysAreAffected(script: seq<Segment>, k: nat, i: nat, setup: Setup)
    requires k < |script| && i < |script| && setup.maxChars >= 1
    ensures Linked(script, k, i) ==> KeyAfter(script, k, setup) == FirstKey(SegmentJobs(script, i, setup))
    ensures Linked(script, i, k) ==> KeyBefore(script, k, setup) == LastKey(SegmentJobs(script, i, setup))
  {
    NeighboursAreInverse(script, k, i);
    NeighboursAreInverse(script, i, k);
  }

  lemma NeighbourKeysAreAffected(script: seq<Segment>, k: nat, i: nat, p: nat, setup: Setup)
    requires k < |script| && i < |script| && setup.maxChars >= 1 && p < |SegmentJobs(script, i, setup)|
    requires i == k || (p == 0 && Linked(script, k, i)) || (p == |SegmentJobs(script, i, setup)| - 1 && Linked(script, i, k))
    ensures SegmentJobs(script, i, setup)[p].key in AffectedKeys(script, k, setup)
  {
    LinkedKeysAreAffected(script, k, i, setup);
    JobKeyIsIn(SegmentJobs(script, i, setup), p);
  }

  lemma JobKeyIsIn(jobs: seq<Job>, p: nat)
    requires p < |jobs|
    ensures jobs[p].key in KeysOf(jobs)
    ensures p == 0 ==> jobs[p].key in FirstKey(jobs)
    ensures p == |jobs| - 1 ==> jobs[p].key in LastKey(jobs)
  {
    assert jobs[p] in jobs;
  }

  lemma LinksIgnoreText(script: seq<Segment>, k: nat, text: string, i: nat)
    requires k < |script| && i < |script|
    ensures Linked(Edited(script, k, text), k, i) == Linked(script, k, i)
    ensures Linked(Edited(script, k, text), i, k) == Linked(script, i, k)
  {
    NeighboursAreInverse(script, k, i);
    NeighboursAreInverse(script, i, k);
    NeighboursAreInverse(Edited(script, k, text), k, i);
    NeighboursAreInverse(Edited(script, k, text), i, k);
    ScanIgnoresText(script, k, text, k, k + 1, 1);
    ScanIgnoresText(script, k, text, i, i + 1, 1);
  }

  lemma AffectedOrPlanned(script: seq<Segment>, k: nat, text: string, i: nat, p: nat, setup: Setup)
    requires k < |script| && setup.maxChars >= 1 && i < |script|
    requires p < |SegmentJobs(Edited(script, k, text), i, setup)|
    ensures
      var key := SegmentJobs(Edited(script, k, text), i, setup)[p].key;
      Planned(script, setup, key) || key in AffectedKeys(Edited(script, k, text), k, setup)
  {
    var edited := Edited(script, k, text);
    var now := SegmentJobs(edited, i, setup);
    LinksIgnoreText(script, k, text, i);
    if i == k || (p == 0 && Linked(edited, k, i)) || (p == |now| - 1 && Linked(edited, i, k)) {
      NeighbourKeysAreAffected(edited, k, i, p, setup);
    } else {
      EditIsLocal(script, k, text, i, p, setup);
      assert SegmentJobs(script, i, setup)[p].key == now[p].key;
    }
  }
}
