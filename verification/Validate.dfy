/** Repairing or rejecting one analyzer reply for one chunk (`validate_chunk_analysis`).  Warning texts are left out. */
module Validate {
  import opened Book
  import opened Common
  import Bible
  import CastRun

  const MIN_SFX_SECONDS := 0.5
  const MAX_SFX_SECONDS := 30.0

  datatype Source = Llm | Heuristic

  datatype Analysis = Analysis(
    labels: seq<Label>, characters: seq<Bible.Update>, sfx: seq<SfxCueRaw>, music: seq<MusicCueRaw>, source: Source)

  /** Why a reply cannot be repaired. */
  datatype Invalid = TooManyUnlabelled | CueOutside

  function Clamp(value: real, low: real, high: real): (r: real)
    ensures low <= high ==> low <= r <= high
    ensures low <= value <= high ==> r == value
  {
    if value < low then low else if value > high then high else value
  }

  function ClampLevel(value: Level): (r: Level)
    ensures 0 <= r <= FULL
    ensures 0 <= value <= FULL ==> r == value
  {
    Max(0, Min(FULL, value))
  }

  // ----------------------------------------------------------------- labels

  /** The first label for a span; later ones are dropped. */
  function FirstLabel(labels: seq<Label>, id: string): (l: Option<Label>)
    ensures l.Some? ==> l.value.spanId == id
  {
    if labels == [] then None
    else
      var front, last := FirstLabel(labels[..|labels| - 1], id), labels[|labels| - 1];
      if front.Some? then front else if last.spanId == id then Some(last) else None
  }

  /** The last label for a span, as in a dictionary built from the list. */
  function LastLabel(labels: seq<Label>, id: string): (l: Option<Label>)
    ensures l.Some? ==> l.value.spanId == id
  {
    if labels == [] then None
    else if labels[|labels| - 1].spanId == id then Some(labels[|labels| - 1])
    else LastLabel(labels[..|labels| - 1], id)
  }

  /** Quotes that the analyzer left without a label. */
  function Missing(quotes: seq<string>, labels: seq<Label>): seq<string> {
    if quotes == [] then []
    else
      Missing(quotes[..|quotes| - 1], labels)
      + if FirstLabel(labels, quotes[|quotes| - 1]).Some? then [] else [quotes[|quotes| - 1]]
  }

  /** The label a missing quote gets: the heuristic analyzer's, or the narrator. */
  function Filled(heuristic: seq<Label>, id: string): (l: Label)
    ensures l.spanId == id
  {
    match LastLabel(heuristic, id) case Some(l) => l case None => Label(id, NARRATOR, "neutral", "normal")
  }

  function LabelFor(labels: seq<Label>, heuristic: seq<Label>, id: string): (l: Label)
    ensures l.spanId == id
  {
    match FirstLabel(labels, id) case Some(l) => l case None => Filled(heuristic, id)
  }

  function Canonical(given: Label, cast: Bible.Cast, updates: seq<Bible.Update>): (l: Label)
    ensures l.spanId == given.spanId
  {
    given.(speaker := CastRun.CanonicalSpeaker(given.speaker, cast, updates))
  }

  /** Quote ids, each once, in the order of the last span that has it (a dict from ids to positions, sorted by them). */
  function LabelOrder(spans: seq<Span>, quotes: seq<string>): seq<string> {
    if spans == [] then []
    else
      (if spans[0].id in quotes && spans[0].id !in SpanIds(spans[1..]) then [spans[0].id] else [])
      + LabelOrder(spans[1..], quotes)
  }

  /** The quotes of a chunk in that order. */
  function OrderOf(chunk: Chunk): seq<string> {
    LabelOrder(chunk.spans, QuoteIds(chunk.spans))
  }

  lemma {:induction false} LabelOrderMembers(spans: seq<Span>, quotes: seq<string>)
    ensures forall id :: id in LabelOrder(spans, quotes) <==> id in quotes && id in SpanIds(spans)
    ensures forall i, j | 0 <= i < j < |LabelOrder(spans, quotes)| :: LabelOrder(spans, quotes)[i] != LabelOrder(spans, quotes)[j]
  {
    if spans != [] {
      LabelOrderMembers(spans[1..], quotes);
      assert SpanIds(spans) == [spans[0].id] + SpanIds(spans[1..]);
    }
  }

  /** Whatever the ids are, each quote id comes exactly once. */
  lemma OrderNamesEachQuoteOnce(chunk: Chunk)
    ensures NamesEachQuoteOnce(OrderOf(chunk), chunk.spans)
  {
    LabelOrderMembers(chunk.spans, QuoteIds(chunk.spans));
    QuotesAreSpans(chunk.spans);
  }

  /** With distinct ids the order is that of the quotes. */
  lemma {:induction false} LabelOrderOfUnique(spans: seq<Span>, quotes: seq<string>)
    requires UniqueIds(spans)
    requires forall i | 0 <= i < |spans| :: spans[i].id in quotes <==> spans[i].kind == Quote
    ensures LabelOrder(spans, quotes) == QuoteIds(spans)
  {
    if spans != [] {
      var rest := spans[1..];
      assert forall k | 0 <= k < |rest| :: rest[k] == spans[k + 1];
      LabelOrderOfUnique(rest, quotes);
      assert spans[0].id !in SpanIds(rest);
    }
  }

  lemma OrderOfUnique(chunk: Chunk)
    requires UniqueIds(chunk.spans)
    ensures OrderOf(chunk) == QuoteIds(chunk.spans)
  {
    var spans := chunk.spans;
    QuoteIdsMembers(spans);
    LabelOrderOfUnique(spans, QuoteIds(spans));
  }

  function RepairedLabels(analysis: Analysis, chunk: Chunk, cast: Bible.Cast, heuristic: seq<Label>): (labels: seq<Label>)
    ensures LabelIds(labels) == OrderOf(chunk)
  {
    var quotes := OrderOf(chunk);
    seq(|quotes|, i requires 0 <= i < |quotes| =>
      Canonical(LabelFor(analysis.labels, heuristic, quotes[i]), cast, analysis.characters))
  }

  // ----------------------------------------------------------------- cues

  predicate InChunk(id: string, spans: seq<Span>) {
    id in SpanIds(spans)
  }

  ghost predicate CuesInside(analysis: Analysis, spans: seq<Span>) {
    && (forall i | 0 <= i < |analysis.sfx| :: InChunk(analysis.sfx[i].spanId, spans))
    && (forall i | 0 <= i < |analysis.music| :: InChunk(analysis.music[i].spanId, spans))
  }

  ghost predicate CuesInRange(analysis: Analysis) {
    && (forall i | 0 <= i < |analysis.sfx| ::
         MIN_SFX_SECONDS <= analysis.sfx[i].durationS <= MAX_SFX_SECONDS && 0 <= analysis.sfx[i].intensity <= FULL)
    && (forall i | 0 <= i < |analysis.music| :: 0 <= analysis.music[i].energy <= FULL)
  }

  function ClampSfx(cue: SfxCueRaw): SfxCueRaw {
    cue.(durationS := Clamp(cue.durationS, MIN_SFX_SECONDS, MAX_SFX_SECONDS), intensity := ClampLevel(cue.intensity))
  }

  function ClampMusic(cue: MusicCueRaw): MusicCueRaw {
    cue.(energy := ClampLevel(cue.energy))
  }

  function ClampedSfx(cues: seq<SfxCueRaw>): (r: seq<SfxCueRaw>)
    ensures |r| == |cues| && forall i | 0 <= i < |r| :: r[i] == ClampSfx(cues[i])
  {
    seq(|cues|, i requires 0 <= i < |cues| => ClampSfx(cues[i]))
  }

  function ClampedMusic(cues: seq<MusicCueRaw>): (r: seq<MusicCueRaw>)
    ensures |r| == |cues| && forall i | 0 <= i < |r| :: r[i] == ClampMusic(cues[i])
  {
    seq(|cues|, i requires 0 <= i < |cues| => ClampMusic(cues[i]))
  }

  // ----------------------------------------------------------------- the whole repair

  /** More than a fifth of the quotes have no label. */
  predicate TooMany(missing: nat, quotes: nat) {
    missing > 0 && 5 * missing > quotes
  }

  ghost function Repaired(analysis: Analysis, chunk: Chunk, cast: Bible.Cast, heuristic: seq<Label>)
    : (r: Result<Analysis, Invalid>)
    ensures r.Ok? <==>
      !TooMany(|Missing(QuoteIds(chunk.spans), analysis.labels)|, |QuoteIds(chunk.spans)|) && CuesInside(analysis, chunk.spans)
    ensures r.Ok? ==> LabelIds(r.value.labels) == OrderOf(chunk) && NamesEachQuoteOnce(LabelIds(r.value.labels), chunk.spans)
    ensures r.Ok? && UniqueIds(chunk.spans) ==> LabelIds(r.value.labels) == QuoteIds(chunk.spans)
    ensures r.Ok? ==> CuesInside(r.value, chunk.spans) && CuesInRange(r.value) && r.value.source == analysis.source
  {
    OrderNamesEachQuoteOnce(chunk);
    assert UniqueIds(chunk.spans) ==> OrderOf(chunk) == QuoteIds(chunk.spans) by {
      if UniqueIds(chunk.spans) {
        OrderOfUnique(chunk);
      }
    }
    if TooMany(|Missing(QuoteIds(chunk.spans), analysis.labels)|, |QuoteIds(chunk.spans)|) then Err(TooManyUnlabelled)
    else if !CuesInside(analysis, chunk.spans) then Err(CueOutside)
    else Ok(Analysis(
      RepairedLabels(analysis, chunk, cast, heuristic), analysis.characters, ClampedSfx(analysis.sfx),
      ClampedMusic(analysis.music), analysis.source))
  }

  /** The dictionary of accepted labels: the first label of each quote. */
  ghost predicate Accepted(table: map<string, Label>, labels: seq<Label>, quotes: seq<string>) {
    forall id :: if id in quotes && FirstLabel(labels, id).Some?
      then id in table && table[id] == FirstLabel(labels, id).value else id !in table
  }

  lemma AcceptedSnoc(table: map<string, Label>, labels: seq<Label>, one: Label, quotes: seq<string>)
    requires Accepted(table, labels, quotes)
    ensures Accepted(
      if one.spanId in quotes && one.spanId !in table then table[one.spanId := one] else table, labels + [one], quotes)
  {
    assert (labels + [one])[..|labels|] == labels;
  }

  /** The first loop: unknown, narration and duplicate labels are dropped. */
  method AcceptLabels(labels: seq<Label>, known: set<string>, quotes: seq<string>) returns (table: map<string, Label>)
    requires forall id | id in quotes :: id in known
    ensures Accepted(table, labels, quotes)
  {
    table := map[];
    for i := 0 to |labels|
      invariant Accepted(table, labels[..i], quotes)
    {
      assert labels[..i + 1] == labels[..i] + [labels[i]];
      AcceptedSnoc(table, labels[..i], labels[i], quotes);
      var one := labels[i];
      if one.spanId !in known {
      } else if one.spanId !in quotes {
      } else if one.spanId in table {
      } else {
        table := table[one.spanId := one];
      }
    }
    assert labels[..|labels|] == labels;
  }

  /** The quotes without a label. */
  method FindMissing(table: map<string, Label>, ghost labels: seq<Label>, quotes: seq<string>) returns (missing: seq<string>)
    requires Accepted(table, labels, quotes)
    ensures missing == Missing(quotes, labels)
  {
    missing := [];
    for i := 0 to |quotes|
      invariant missing == Missing(quotes[..i], labels)
    {
      assert quotes[..i + 1][..i] == quotes[..i];
      assert quotes[i] in quotes;
      if quotes[i] !in table {
        missing := missing + [quotes[i]];
      }
    }
    assert quotes[..|quotes|] == quotes;
  }

  lemma {:induction false} MissingMembers(quotes: seq<string>, labels: seq<Label>)
    ensures forall id :: id in Missing(quotes, labels) <==> id in quotes && FirstLabel(labels, id).None?
  {
    if quotes != [] {
      MissingMembers(quotes[..|quotes| - 1], labels);
      assert quotes == quotes[..|quotes| - 1] + [quotes[|quotes| - 1]];
    }
  }

  /** The labels of all quotes once the missing ones are filled in. */
  method FillMissing(table: map<string, Label>, ghost labels: seq<Label>, ghost quotes: seq<string>, missing: seq<string>,
                     heuristic: seq<Label>)
    returns (all: map<string, Label>)
    requires Accepted(table, labels, quotes) && missing == Missing(quotes, labels)
    ensures forall id :: id in all <==> id in quotes
    ensures forall id | id in quotes :: all[id] == LabelFor(labels, heuristic, id)
  {
    MissingMembers(quotes, labels);
    all := table;
    for i := 0 to |missing|
      invariant forall id | id in missing[..i] :: id in all && all[id] == Filled(heuristic, id)
      invariant forall id | id !in missing[..i] :: (id in all <==> id in table) && (id in all ==> all[id] == table[id])
    {
      assert missing[..i + 1] == missing[..i] + [missing[i]];
      all := all[missing[i] := Filled(heuristic, missing[i])];
    }
    assert missing[..|missing|] == missing;
  }

  predicate AllInside(ids: seq<string>, known: set<string>) {
    ids == [] || (ids[|ids| - 1] in known && AllInside(ids[..|ids| - 1], known))
  }

  lemma {:induction false} AllInsideMeans(ids: seq<string>, known: set<string>)
    ensures AllInside(ids, known) <==> forall i | 0 <= i < |ids| :: ids[i] in known
  {
    if ids != [] {
      AllInsideMeans(ids[..|ids| - 1], known);
    }
  }

  function CueIds(analysis: Analysis): (ids: seq<string>)
    ensures |ids| == |analysis.sfx| + |analysis.music|
    ensures forall i | 0 <= i < |analysis.sfx| :: ids[i] == analysis.sfx[i].spanId
    ensures forall i | 0 <= i < |analysis.music| :: ids[|analysis.sfx| + i] == analysis.music[i].spanId
  {
    seq(|analysis.sfx|, i requires 0 <= i < |analysis.sfx| => analysis.sfx[i].spanId)
    + seq(|analysis.music|, i requires 0 <= i < |analysis.music| => analysis.music[i].spanId)
  }

  lemma InsideMeans(analysis: Analysis, spans: seq<Span>, known: set<string>)
    requires forall id :: id in known <==> id in SpanIds(spans)
    ensures AllInside(CueIds(analysis), known) <==> CuesInside(analysis, spans)
  {
    var ids := CueIds(analysis);
    AllInsideMeans(ids, known);
    if AllInside(ids, known) {
      assert forall i | 0 <= i < |analysis.sfx| :: ids[i] in known;
      forall i | 0 <= i < |analysis.music|
        ensures InChunk(analysis.music[i].spanId, spans)
      {
        assert ids[|analysis.sfx| + i] in known;
      }
    }
    if CuesInside(analysis, spans) {
      forall i | 0 <= i < |ids|
        ensures ids[i] in known
      {
        if i < |analysis.sfx| {
          assert InChunk(analysis.sfx[i].spanId, spans);
        } else {
          assert InChunk(analysis.music[i - |analysis.sfx|].spanId, spans);
        }
      }
    }
  }

  lemma {:induction false} QuotesAreSpans(spans: seq<Span>)
    ensures forall id | id in QuoteIds(spans) :: id in SpanIds(spans)
  {
    if spans != [] {
      QuotesAreSpans(spans[1..]);
      assert SpanIds(spans)[0] == spans[0].id;
      forall id | id in SpanIds(spans[1..])
        ensures id in SpanIds(spans)
      {
        var i :| 0 <= i < |spans[1..]| && SpanIds(spans[1..])[i] == id;
        assert SpanIds(spans)[i + 1] == id;
      }
    }
  }

  /** The dictionary has the position of the last span with each id. */
  ghost predicate Positions(order: map<string, nat>, spans: seq<Span>, n: nat)
    requires n <= |spans|
  {
    && (forall i: nat | i < n :: spans[i].id in order && i <= order[spans[i].id])
    && (forall id | id in order :: order[id] < n && spans[order[id]].id == id)
  }

  lemma PositionIff(order: map<string, nat>, spans: seq<Span>, i: nat)
    requires i < |spans| && Positions(order, spans, |spans|)
    ensures order[spans[i].id] == i <==> spans[i].id !in SpanIds(spans[i + 1..])
  {
    var rest := spans[i + 1..];
    var last := order[spans[i].id];
    if last > i {
      assert rest[last - i - 1] == spans[last];
      assert SpanIds(rest)[last - i - 1] == spans[i].id;
    }
    if spans[i].id in SpanIds(rest) {
      var k :| 0 <= k < |rest| && SpanIds(rest)[k] == spans[i].id;
      assert rest[k] == spans[i + 1 + k];
    }
  }

  method OrderSpans(spans: seq<Span>) returns (order: map<string, nat>)
    ensures Positions(order, spans, |spans|)
  {
    order := map[];
    for i := 0 to |spans|
      invariant Positions(order, spans, i)
    {
      order := order[spans[i].id := i];
    }
  }

  lemma LabelOrderStep(spans: seq<Span>, i: nat, quotes: seq<string>)
    requires i < |spans|
    ensures LabelOrder(spans[i..], quotes) ==
      if spans[i].id in quotes && spans[i].id !in SpanIds(spans[i + 1..]) then [spans[i].id] + LabelOrder(spans[i + 1..], quotes)
      else LabelOrder(spans[i + 1..], quotes)
  {
    SuffixStep(spans, i);
  }

  /** `sorted(labels, key=order)`: the ids of the dictionary in the order of their positions. */
  method SortIds(all: map<string, Label>, spans: seq<Span>, ghost quotes: seq<string>) returns (ids: seq<string>)
    requires forall id :: id in all <==> id in quotes
    ensures ids == LabelOrder(spans, quotes)
  {
    var order := OrderSpans(spans);
    ids := [];
    for i := 0 to |spans|
      invariant ids + LabelOrder(spans[i..], quotes) == LabelOrder(spans, quotes)
    {
      PositionIff(order, spans, i);
      LabelOrderStep(spans, i, quotes);
      ConcatAssoc(ids, [spans[i].id], LabelOrder(spans[i + 1..], quotes));
      if order[spans[i].id] == i && spans[i].id in all {
        ids := ids + [spans[i].id];
      }
    }
  }

  /** The labels in span order, with canonical speakers. */
  method RepairLabels(analysis: Analysis, chunk: Chunk, cast: Bible.Cast, ghost heuristic: seq<Label>, all: map<string, Label>)
    returns (labels: seq<Label>)
    requires forall id :: id in all <==> id in QuoteIds(chunk.spans)
    requires forall id | id in QuoteIds(chunk.spans) :: all[id] == LabelFor(analysis.labels, heuristic, id)
    ensures labels == RepairedLabels(analysis, chunk, cast, heuristic)
  {
    var ids := SortIds(all, chunk.spans, QuoteIds(chunk.spans));
    LabelOrderMembers(chunk.spans, QuoteIds(chunk.spans));
    labels := [];
    for i := 0 to |ids|
      invariant |labels| == i
      invariant forall j | 0 <= j < i ::
        labels[j] == Canonical(LabelFor(analysis.labels, heuristic, ids[j]), cast, analysis.characters)
    {
      assert ids[i] in ids;
      labels := labels + [Canonical(all[ids[i]], cast, analysis.characters)];
    }
  }

  /** `validate_chunk_analysis`; `heuristic` is what the heuristic analyzer says about the chunk. */
  method ValidateChunk(analysis: Analysis, chunk: Chunk, cast: Bible.Cast, heuristic: seq<Label>)
    returns (r: Result<Analysis, Invalid>)
    ensures r == Repaired(analysis, chunk, cast, heuristic)
  {
    var known := set id | id in SpanIds(chunk.spans);
    var quotes := QuoteIds(chunk.spans);
    QuotesAreSpans(chunk.spans);
    var table := AcceptLabels(analysis.labels, known, quotes);
    var missing := FindMissing(table, analysis.labels, quotes);
    if TooMany(|missing|, |quotes|) {
      return Err(TooManyUnlabelled);
    }
    InsideMeans(analysis, chunk.spans, known);
    if !AllInside(CueIds(analysis), known) {
      return Err(CueOutside);
    }
    var all := FillMissing(table, analysis.labels, quotes, missing, heuristic);
    var labels := RepairLabels(analysis, chunk, cast, heuristic, all);
    r := Ok(Analysis(labels, analysis.characters, ClampedSfx(analysis.sfx), ClampedMusic(analysis.music), analysis.source));
  }

  // ----------------------------------------------------------------- what a repair keeps

  lemma {:induction false} FirstLabelOfUnique(labels: seq<Label>, i: nat)
    requires i < |labels| && forall j, k | 0 <= j < k < |labels| :: labels[j].spanId != labels[k].spanId
    ensures FirstLabel(labels, labels[i].spanId) == Some(labels[i])
  {
    var n := |labels| - 1;
    if i < n {
      FirstLabelOfUnique(labels[..n], i);
    } else {
      NoFirstLabel(labels[..n], labels[n].spanId);
    }
  }

  lemma {:induction false} NoFirstLabel(labels: seq<Label>, id: string)
    requires forall j | 0 <= j < |labels| :: labels[j].spanId != id
    ensures FirstLabel(labels, id) == None
  {
    if labels != [] {
      NoFirstLabel(labels[..|labels| - 1], id);
    }
  }

  lemma {:induction false} NothingMissing(quotes: seq<string>, labels: seq<Label>)
    requires forall i | 0 <= i < |quotes| :: FirstLabel(labels, quotes[i]).Some?
    ensures Missing(quotes, labels) == []
  {
    if quotes != [] {
      NothingMissing(quotes[..|quotes| - 1], labels);
    }
  }

  /** A complete reply is left alone: labels for exactly the quotes in their order, cues inside and in range. */
  lemma CompleteReplyIsKept(analysis: Analysis, chunk: Chunk, cast: Bible.Cast, heuristic: seq<Label>)
    requires LabelIds(analysis.labels) == OrderOf(chunk)
    requires CuesInside(analysis, chunk.spans) && CuesInRange(analysis)
    requires forall i | 0 <= i < |analysis.labels| :: Canonical(analysis.labels[i], cast, analysis.characters) == analysis.labels[i]
    ensures Repaired(analysis, chunk, cast, heuristic) == Ok(analysis)
  {
    var quotes, order := QuoteIds(chunk.spans), OrderOf(chunk);
    OrderNamesEachQuoteOnce(chunk);
    forall i | 0 <= i < |order|
      ensures FirstLabel(analysis.labels, order[i]) == Some(analysis.labels[i])
    {
      FirstLabelOfUnique(analysis.labels, i);
      assert LabelIds(analysis.labels)[i] == order[i];
    }
    forall i | 0 <= i < |quotes|
      ensures FirstLabel(analysis.labels, quotes[i]).Some?
    {
      assert quotes[i] in quotes && quotes[i] in order;
    }
    NothingMissing(quotes, analysis.labels);
    assert RepairedLabels(analysis, chunk, cast, heuristic) == analysis.labels;
    assert ClampedSfx(analysis.sfx) == analysis.sfx && ClampedMusic(analysis.music) == analysis.music;
  }
}
