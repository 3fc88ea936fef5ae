/** The LLM analyzer: one request for each chunk, one repair request after an unusable reply, halving after a
    truncated one, and the heuristic analyzer as the last resort.  The model's replies are an arbitrary stream. */
module Analyzer {
  import opened Book
  import opened Common
  import opened Paragraphs
  import opened Validate
  import Bible
  import Chunker
  import opened QuoteOrder
  import IngestIds
  import Text

  const CONTEXT_PARAGRAPHS := 2

  /** One final message of the provider, or the error it raised after its retries. */
  datatype Reply =
    | Raised
    | Refusal
    | MaxTokens
    | ContextExceeded
    | Unusable
    | Parsed(analysis: Analysis)

  datatype Error = ProviderError | TruncatedSingleParagraph

  /** What an analysis depends on: the replies in the order of the requests, the bible, how span ids are read, and
      the heuristic analyzer. */
  datatype Setup = Setup(
    replies: nat -> Reply, cast: Bible.Cast, keys: Keys, number: string -> Option<int>, heuristic: Chunk -> Analysis)

  /** The result, and the number of the next request. */
  datatype Outcome = Outcome(result: Result<Analysis, Error>, next: nat)

  function GroupCount(chunk: Chunk, keys: Keys): nat {
    |Runs(chunk.spans, keys)|
  }

  // ----------------------------------------------------------------- halving

  function TextsOf(spans: seq<Span>): (ts: seq<string>)
    ensures |ts| == |spans| && forall i | 0 <= i < |ts| :: ts[i] == spans[i].text
  {
    seq(|spans|, i requires 0 <= i < |spans| => spans[i].text)
  }

  function GroupTexts(groups: seq<Group>): (ts: seq<string>)
    ensures |ts| == |groups| && forall i | 0 <= i < |ts| :: ts[i] == Text.Join(TextsOf(groups[i]))
  {
    seq(|groups|, i requires 0 <= i < |groups| => Text.Join(TextsOf(groups[i])))
  }

  function NumberOr(span: Span, number: string -> Option<int>, default: int): int {
    match number(span.id) case Some(n) => n case None => default
  }

  /** The first half of the paragraphs, rounded down. */
  function HeadOf(spans: seq<Span>, keys: Keys): seq<Span> {
    Flatten(Runs(spans, keys)[..|Runs(spans, keys)| / 2])
  }

  function TailOf(spans: seq<Span>, keys: Keys): seq<Span> {
    Flatten(Runs(spans, keys)[|Runs(spans, keys)| / 2..])
  }

  /** `split_chunk`: the halves at the paragraph midpoint, or `None` for fewer than two paragraphs. */
  function SplitChunk(chunk: Chunk, keys: Keys, number: string -> Option<int>): (halves: Option<(Chunk, Chunk)>)
    ensures halves.Some? <==> GroupCount(chunk, keys) >= 2
  {
    var groups := Runs(chunk.spans, keys);
    if |groups| < 2 then None
    else
      var middle := |groups| / 2;
      var head, tail := HeadOf(chunk.spans, keys), TailOf(chunk.spans, keys);
      var last := groups[Max(0, middle - CONTEXT_PARAGRAPHS)..middle];
      Some((
        chunk.(spans := head, paragraphEnd := if head == [] then chunk.paragraphEnd
          else NumberOr(head[|head| - 1], number, chunk.paragraphEnd)),
        chunk.(spans := tail, paragraphStart := if tail == [] then chunk.paragraphStart
          else NumberOr(tail[0], number, chunk.paragraphStart),
          contextBefore := Chunker.JoinParagraphs(GroupTexts(last)))))
  }

  lemma FlattenCut<T>(xss: seq<seq<T>>, middle: nat)
    requires middle <= |xss|
    ensures Flatten(xss[..middle]) + Flatten(xss[middle..]) == Flatten(xss)
  {
    FlattenConcat(xss[..middle], xss[middle..]);
    assert xss == xss[..middle] + xss[middle..];
  }

  /** Cutting the runs in two. */
  lemma CutRuns(spans: seq<Span>, keys: Keys, middle: nat)
    requires 0 < middle < |Runs(spans, keys)|
    ensures
      var groups := Runs(spans, keys);
      var head, tail := Flatten(groups[..middle]), Flatten(groups[middle..]);
      && head + tail == spans && Runs(head, keys) == groups[..middle] && Runs(tail, keys) == groups[middle..]
  {
    var groups := Runs(spans, keys);
    RunsCutWhereTheKeyChanges(spans, keys);
    RunsOfParts(groups, keys, middle);
    FlattenCut(groups, middle);
  }

  lemma RunsOfParts(groups: seq<Group>, keys: Keys, middle: nat)
    requires AreGroups(groups, keys) && Alternate(groups, keys) && middle <= |groups|
    ensures Runs(Flatten(groups[..middle]), keys) == groups[..middle]
    ensures Runs(Flatten(groups[middle..]), keys) == groups[middle..]
  {
    assert groups[0..middle] == groups[..middle];
    assert groups[middle..|groups|] == groups[middle..];
    RunsOfPart(groups, keys, 0, middle);
    RunsOfPart(groups, keys, middle, |groups|);
  }

  /** The halves are non-empty, make up the chunk, and have half of its paragraphs each (rounded down and up). */
  lemma HalvesMakeTheChunk(chunk: Chunk, keys: Keys, number: string -> Option<int>)
    requires GroupCount(chunk, keys) >= 2
    ensures
      var (head, tail) := SplitChunk(chunk, keys, number).value;
      && head.spans == HeadOf(chunk.spans, keys) && tail.spans == TailOf(chunk.spans, keys)
      && head.spans + tail.spans == chunk.spans && head.spans != [] && tail.spans != []
      && GroupCount(head, keys) == GroupCount(chunk, keys) / 2
      && GroupCount(tail, keys) == GroupCount(chunk, keys) - GroupCount(chunk, keys) / 2
  {
    CutRuns(chunk.spans, keys, GroupCount(chunk, keys) / 2);
  }

  // ----------------------------------------------------------------- the recursion

  /** `_fallback`. */
  function Fallback(s: Setup, chunk: Chunk): Analysis {
    s.heuristic(chunk).(source := Heuristic)
  }

  /** Two analyses of adjacent halves, put together. */
  function Merge(first: Analysis, second: Analysis): Analysis {
    Analysis(
      first.labels + second.labels, first.characters + second.characters, first.sfx + second.sfx,
      first.music + second.music, if first.source == Llm && second.source == Llm then Llm else Heuristic)
  }

  /** The second half of a chunk continues the conversation of the first. */
  function Carried(chunk: Chunk, head: Chunk, tail: Chunk, first: Analysis): Chunk {
    tail.(priorSpeakers := Chunker.RememberAll(chunk.priorSpeakers, Chunker.Heard(head.spans, first.labels)))
  }

  /** Reply `n`, once parsed and validated. */
  ghost function Usable(s: Setup, chunk: Chunk, n: nat): Option<Analysis> {
    match s.replies(n)
    case Parsed(analysis) =>
      (match Repaired(analysis.(source := Llm), chunk, s.cast, s.heuristic(chunk).labels)
       case Ok(repaired) => Some(repaired)
       case Err(_) => None)
    case _ => None
  }

  /** `_analyze` from request `n` on, with `_split_and_retry` in its branch. */
  ghost function Analyze(s: Setup, chunk: Chunk, repairing: bool, n: nat): Outcome
    decreases GroupCount(chunk, s.keys), if repairing then 0 else 1
  {
    match s.replies(n)
    case Raised => Outcome(Err(ProviderError), n + 1)
    case Refusal => Outcome(Ok(Fallback(s, chunk)), n + 1)
    case ContextExceeded => Outcome(Ok(Fallback(s, chunk)), n + 1)
    case MaxTokens =>
      if GroupCount(chunk, s.keys) < 2 then Outcome(Err(TruncatedSingleParagraph), n + 1)
      else
        HalvesMakeTheChunk(chunk, s.keys, s.number);
        var (head, tail) := SplitChunk(chunk, s.keys, s.number).value;
        var first := Analyze(s, head, false, n + 1);
        if first.result.Err? then first
        else
          var second := Analyze(s, Carried(chunk, head, tail, first.result.value), false, first.next);
          if second.result.Err? then second
          else Outcome(Ok(Merge(first.result.value, second.result.value)), second.next)
    case _ =>
      var usable := Usable(s, chunk, n);
      if usable.Some? then Outcome(Ok(usable.value), n + 1)
      else if !repairing then Analyze(s, chunk, true, n + 1)
      else Outcome(Ok(Fallback(s, chunk)), n + 1)
  }

  /** What a halving does: the first half, then the second with the speakers of the first, then both together. */
  ghost predicate Halved(
    s: Setup, chunk: Chunk, n: nat, head: Chunk, tail: Chunk, first: Outcome, second: Outcome, whole: Outcome)
  {
    && head.spans == HeadOf(chunk.spans, s.keys) && tail.spans == TailOf(chunk.spans, s.keys)
    && head.spans + tail.spans == chunk.spans
    && GroupCount(head, s.keys) == GroupCount(chunk, s.keys) / 2
    && GroupCount(tail, s.keys) == GroupCount(chunk, s.keys) - GroupCount(chunk, s.keys) / 2
    && first == Analyze(s, head, false, n + 1)
    && (if first.result.Err? then whole == first
        else
          && second == Analyze(s, tail, false, first.next)
          && whole == if second.result.Err? then second
                      else Outcome(Ok(Merge(first.result.value, second.result.value)), second.next))
  }

  lemma AnalyzeHalves(s: Setup, chunk: Chunk, repairing: bool, n: nat)
    returns (head: Chunk, tail: Chunk, first: Outcome, second: Outcome)
    requires s.replies(n) == MaxTokens && GroupCount(chunk, s.keys) >= 2
    ensures Halved(s, chunk, n, head, tail, first, second, Analyze(s, chunk, repairing, n))
  {
    HalvesMakeTheChunk(chunk, s.keys, s.number);
    head, tail := SplitChunk(chunk, s.keys, s.number).value.0, SplitChunk(chunk, s.keys, s.number).value.1;
    first := Analyze(s, head, false, n + 1);
    second := first;
    if first.result.Ok? {
      tail := Carried(chunk, head, tail, first.result.value);
      second := Analyze(s, tail, false, first.next);
    }
  }

  /** The reply can be used at once, or after the one repair request. */
  predicate AsksForRepair(reply: Reply) {
    reply.Unusable? || reply.Parsed?
  }

  /** Every other case, reply by reply: a raised error and a truncated single paragraph fail, a refusal and an exceeded
      context go to the heuristic analyzer, a reply that validates is the result, and one that does not leads to
      exactly one repair request and then to the heuristic analyzer. */
  lemma AnalyzeWhole(s: Setup, chunk: Chunk, repairing: bool, n: nat)
    requires s.replies(n) != MaxTokens || GroupCount(chunk, s.keys) < 2
    ensures
      var r, reply, usable := Analyze(s, chunk, repairing, n), s.replies(n), Usable(s, chunk, n);
      && (reply == Raised ==> r == Outcome(Err(ProviderError), n + 1))
      && (reply == MaxTokens ==> r == Outcome(Err(TruncatedSingleParagraph), n + 1))
      && (reply == Refusal || reply == ContextExceeded ==> r == Outcome(Ok(Fallback(s, chunk)), n + 1))
      && (usable.Some? ==> reply.Parsed? && r == Outcome(Ok(usable.value), n + 1))
      && (AsksForRepair(reply) && usable.None? ==>
           r == if repairing then Outcome(Ok(Fallback(s, chunk)), n + 1) else Analyze(s, chunk, true, n + 1))
  {
  }

  // ----------------------------------------------------------------- how many requests

  /** The most requests that `groups` paragraphs can take. */
  function RequestLimit(groups: nat, repairing: bool): nat {
    (if groups == 0 then 2 else 4 * groups - 2) - if repairing then 1 else 0
  }

  /** Whatever the replies: at least one request, and at most 4g - 2 for g >= 1 paragraphs. */
  lemma {:induction false} RequestsAreBounded(s: Setup, chunk: Chunk, repairing: bool, n: nat)
    ensures n < Analyze(s, chunk, repairing, n).next <= n + RequestLimit(GroupCount(chunk, s.keys), repairing)
    decreases GroupCount(chunk, s.keys), if repairing then 0 else 1
  {
    if s.replies(n) == MaxTokens && GroupCount(chunk, s.keys) >= 2 {
      var head, tail, first, second := AnalyzeHalves(s, chunk, repairing, n);
      RequestsAreBounded(s, head, false, n + 1);
      if first.result.Ok? {
        RequestsAreBounded(s, tail, false, first.next);
      }
    } else {
      AnalyzeWhole(s, chunk, repairing, n);
      if !repairing {
        RequestsAreBounded(s, chunk, true, n + 1);
      }
    }
  }

  /** The replies that need the most requests: unusable first, then truncated, down to single paragraphs. */
  function WorstReplies(groups: nat): (replies: seq<Reply>)
    requires groups >= 1
    ensures |replies| == RequestLimit(groups, false)
  {
    if groups == 1 then [Unusable] + [Refusal]
    else [Unusable] + ([MaxTokens] + (WorstReplies(groups / 2) + WorstReplies(groups - groups / 2)))
  }

  ghost predicate RepliesFrom(s: Setup, n: nat, replies: seq<Reply>)
    decreases |replies|
  {
    replies == [] || (s.replies(n) == replies[0] && RepliesFrom(s, n + 1, replies[1..]))
  }

  lemma {:induction false} RepliesOfPart(s: Setup, n: nat, a: seq<Reply>, b: seq<Reply>)
    requires RepliesFrom(s, n, a + b)
    ensures RepliesFrom(s, n, a) && RepliesFrom(s, n + |a|, b)
    decreases |a|
  {
    if a == [] {
      assert a + b == b;
    } else {
      assert (a + b)[1..] == a[1..] + b;
      RepliesOfPart(s, n + 1, a[1..], b);
    }
  }

  lemma UnusableIsRepaired(s: Setup, chunk: Chunk, n: nat)
    requires s.replies(n) == Unusable
    ensures Analyze(s, chunk, false, n) == Analyze(s, chunk, true, n + 1)
  {
  }

  lemma WorstRepliesStart(s: Setup, n: nat, groups: nat)
    requires groups >= 1 && RepliesFrom(s, n, WorstReplies(groups))
    ensures s.replies(n) == Unusable && s.replies(n + 1) == if groups == 1 then Refusal else MaxTokens
    ensures groups >= 2 ==> RepliesFrom(s, n + 2, WorstReplies(groups / 2))
    ensures groups >= 2 ==> RepliesFrom(s, n + 2 + RequestLimit(groups / 2, false), WorstReplies(groups - groups / 2))
  {
    if groups == 1 {
      FirstReply(s, n, Unusable, [Refusal]);
      AppendNothing([Refusal]);
      FirstReply(s, n + 1, Refusal, []);
    } else {
      var head, tail := WorstReplies(groups / 2), WorstReplies(groups - groups / 2);
      FirstReply(s, n, Unusable, [MaxTokens] + (head + tail));
      FirstReply(s, n + 1, MaxTokens, head + tail);
      RepliesOfPart(s, n + 2, head, tail);
    }
  }

  /** The analysis succeeds after exactly as many requests as the limit for `groups` paragraphs allows. */
  ghost predicate ReachesLimit(r: Outcome, n: nat, groups: nat) {
    r.result.Ok? && r.next == n + RequestLimit(groups, false)
  }

  lemma HalvesReachLimit(
    s: Setup, chunk: Chunk, n: nat, head: Chunk, tail: Chunk, first: Outcome, second: Outcome, whole: Outcome)
    requires GroupCount(chunk, s.keys) >= 2 && Halved(s, chunk, n + 1, head, tail, first, second, whole)
    requires ReachesLimit(first, n + 2, GroupCount(head, s.keys))
    requires ReachesLimit(second, first.next, GroupCount(tail, s.keys))
    ensures ReachesLimit(whole, n, GroupCount(chunk, s.keys))
  {
  }

  /** The limit is reached: with these replies the analysis succeeds after exactly 4g - 2 requests. */
  lemma {:induction false} LimitIsReached(s: Setup, chunk: Chunk, n: nat)
    requires GroupCount(chunk, s.keys) >= 1 && RepliesFrom(s, n, WorstReplies(GroupCount(chunk, s.keys)))
    ensures ReachesLimit(Analyze(s, chunk, false, n), n, GroupCount(chunk, s.keys))
    decreases GroupCount(chunk, s.keys)
  {
    var g := GroupCount(chunk, s.keys);
    WorstRepliesStart(s, n, g);
    UnusableIsRepaired(s, chunk, n);
    if g >= 2 {
      var head, tail, first, second := AnalyzeHalves(s, chunk, true, n + 1);
      assert GroupCount(head, s.keys) == g / 2 && GroupCount(tail, s.keys) == g - g / 2;
      LimitIsReached(s, head, n + 2);
      assert first.next == n + 2 + RequestLimit(g / 2, false);
      LimitIsReached(s, tail, first.next);
      HalvesReachLimit(s, chunk, n, head, tail, first, second, Analyze(s, chunk, true, n + 1));
    } else {
      RefusedAtOnce(s, chunk, true, n + 1);
    }
  }

  lemma RefusedAtOnce(s: Setup, chunk: Chunk, repairing: bool, n: nat)
    requires s.replies(n) == Refusal
    ensures Analyze(s, chunk, repairing, n) == Outcome(Ok(Fallback(s, chunk)), n + 1)
  {
  }

  // ----------------------------------------------------------------- every quote is labelled once, in order

  /** What is known of the fallback: its labels are those of the grouped paragraphs, in their order. */
  ghost predicate GoodFallback(s: Setup) {
    forall chunk: Chunk :: UniqueIds(chunk.spans) ==> LabelsGroups(s.heuristic(chunk), chunk.spans, s.keys)
  }

  predicate LabelsGroups(analysis: Analysis, spans: seq<Span>, keys: Keys) {
    LabelIds(analysis.labels) == QuoteIds(Flatten(ByKey(spans, keys)))
  }

  predicate LabelsQuotes(analysis: Analysis, spans: seq<Span>) {
    LabelIds(analysis.labels) == QuoteIds(spans)
  }

  lemma LabelIdsConcat(a: seq<Label>, b: seq<Label>)
    ensures LabelIds(a + b) == LabelIds(a) + LabelIds(b)
  {
  }

  lemma HalvesAreWellFormed(spans: seq<Span>, a: seq<Span>, b: seq<Span>, keys: Keys)
    requires spans == a + b && UniqueIds(spans) && Contiguous(spans, keys)
    ensures UniqueIds(a) && UniqueIds(b) && Contiguous(a, keys) && Contiguous(b, keys)
  {
    ContiguousPart(spans, keys, 0, |a|);
    ContiguousPart(spans, keys, |a|, |spans|);
    assert spans[0..|a|] == a && spans[|a|..|spans|] == b;
    assert forall i | 0 <= i < |a| :: spans[i] == a[i];
    assert forall i | 0 <= i < |b| :: spans[|a| + i] == b[i];
  }

  /** In the chunk and in every part that halving can cut from it, the paragraphs of the quotes are first seen in the
      order of the quotes. */
  ghost predicate PartsKeepOrder(spans: seq<Span>, keys: Keys)
    decreases |Runs(spans, keys)|, 1
  {
    SeenInOrder(spans, keys) && (|Runs(spans, keys)| >= 2 ==> HalvesKeepOrder(spans, keys))
  }

  ghost predicate HalvesKeepOrder(spans: seq<Span>, keys: Keys)
    requires |Runs(spans, keys)| >= 2
    decreases |Runs(spans, keys)|, 0
  {
    CutRuns(spans, keys, |Runs(spans, keys)| / 2);
    PartsKeepOrder(HeadOf(spans, keys), keys) && PartsKeepOrder(TailOf(spans, keys), keys)
  }

  /** With unique ids this holds whenever no paragraph key recurs, as in every chunk that the chunker makes. */
  lemma {:induction false} ContiguousPartsKeepOrder(spans: seq<Span>, keys: Keys)
    requires UniqueIds(spans) && Contiguous(spans, keys)
    ensures PartsKeepOrder(spans, keys)
    decreases |Runs(spans, keys)|
  {
    ByKeyKeepsOrderIff(spans, keys);
    QuotesKeepOrderIff(spans, keys);
    if |Runs(spans, keys)| >= 2 {
      CutRuns(spans, keys, |Runs(spans, keys)| / 2);
      HalvesAreWellFormed(spans, HeadOf(spans, keys), TailOf(spans, keys), keys);
      ContiguousPartsKeepOrder(HeadOf(spans, keys), keys);
      ContiguousPartsKeepOrder(TailOf(spans, keys), keys);
    }
  }

  /** If an analysis comes back, whatever mix of replies, repairs, halvings and fallbacks produced it, its labels name
      each quote of the chunk exactly once, in span order. */
  lemma {:induction false} EveryQuoteIsLabelledOnce(s: Setup, chunk: Chunk, repairing: bool, n: nat)
    requires GoodFallback(s) && UniqueIds(chunk.spans) && PartsKeepOrder(chunk.spans, s.keys)
    ensures var r := Analyze(s, chunk, repairing, n).result; r.Ok? ==> LabelsQuotes(r.value, chunk.spans)
    decreases GroupCount(chunk, s.keys), if repairing then 0 else 1
  {
    assert LabelsGroups(s.heuristic(chunk), chunk.spans, s.keys);
    QuotesKeepOrderIff(chunk.spans, s.keys);
    if s.replies(n) == MaxTokens && GroupCount(chunk, s.keys) >= 2 {
      var head, tail, first, second := AnalyzeHalves(s, chunk, repairing, n);
      UniqueHalves(head.spans, tail.spans);
      EveryQuoteIsLabelledOnce(s, head, false, n + 1);
      if first.result.Ok? {
        EveryQuoteIsLabelledOnce(s, tail, false, first.next);
        if second.result.Ok? {
          LabelIdsConcat(first.result.value.labels, second.result.value.labels);
          QuoteIdsConcat(head.spans, tail.spans);
        }
      }
    } else {
      AnalyzeWhole(s, chunk, repairing, n);
      if !repairing {
        EveryQuoteIsLabelledOnce(s, chunk, true, n + 1);
      }
    }
  }

  lemma NamedOnceConcat(a: seq<string>, b: seq<string>, head: seq<Span>, tail: seq<Span>)
    requires UniqueIds(head + tail) && NamesEachQuoteOnce(a, head) && NamesEachQuoteOnce(b, tail)
    ensures NamesEachQuoteOnce(a + b, head + tail)
  {
    QuoteIdsConcat(head, tail);
    HalvesShareNoQuote(head, tail);
    forall i, j | 0 <= i < j < |a + b|
      ensures (a + b)[i] != (a + b)[j]
    {
      if i < |a| <= j {
        assert a[i] in QuoteIds(head) && b[j - |a|] in QuoteIds(tail);
      }
    }
  }

  lemma HalvesShareNoQuote(head: seq<Span>, tail: seq<Span>)
    requires UniqueIds(head + tail)
    ensures forall id | id in QuoteIds(head) :: id !in QuoteIds(tail)
  {
    QuotesAreSpans(head);
    forall i | 0 <= i < |head|
      ensures head[i].id !in QuoteIds(tail)
    {
      QuotesOfOtherHalf(head, tail, i);
    }
  }

  lemma UniqueHalves(a: seq<Span>, b: seq<Span>)
    requires UniqueIds(a + b)
    ensures UniqueIds(a) && UniqueIds(b)
  {
    assert forall i | 0 <= i < |a| :: (a + b)[i] == a[i];
    assert forall i | 0 <= i < |b| :: (a + b)[|a| + i] == b[i];
  }

  /** Even when paragraph keys recur, every quote is named exactly once. */
  lemma {:induction false} EveryQuoteIsNamedOnce(s: Setup, chunk: Chunk, repairing: bool, n: nat)
    requires GoodFallback(s) && UniqueIds(chunk.spans)
    ensures
      var r := Analyze(s, chunk, repairing, n).result;
      r.Ok? ==> NamesEachQuoteOnce(LabelIds(r.value.labels), chunk.spans)
    decreases GroupCount(chunk, s.keys), if repairing then 0 else 1
  {
    assert LabelsGroups(s.heuristic(chunk), chunk.spans, s.keys);
    GroupedQuotesAreNamedOnce(chunk.spans, s.keys);
    QuoteIdsAreUnique(chunk.spans);
    if s.replies(n) == MaxTokens && GroupCount(chunk, s.keys) >= 2 {
      var head, tail, first, second := AnalyzeHalves(s, chunk, repairing, n);
      UniqueHalves(head.spans, tail.spans);
      EveryQuoteIsNamedOnce(s, head, false, n + 1);
      if first.result.Ok? {
        EveryQuoteIsNamedOnce(s, tail, false, first.next);
        if second.result.Ok? {
          LabelIdsConcat(first.result.value.labels, second.result.value.labels);
          NamedOnceConcat(
            LabelIds(first.result.value.labels), LabelIds(second.result.value.labels), head.spans, tail.spans);
        }
      }
    } else {
      AnalyzeWhole(s, chunk, repairing, n);
      if !repairing {
        EveryQuoteIsNamedOnce(s, chunk, true, n + 1);
      }
    }
  }

  /** So every chunk of an ingested chapter is labelled in span order, whatever the model replies. */
  lemma IngestedChunkIsLabelledInOrder(
    s: Setup, chapter: Chapter, number: nat, chunks: seq<Chunk>, c: nat, chunk: Chunk, n: nat)
    requires GoodFallback(s) && s.keys == IngestIds.ParagraphKey && IngestIds.Ingested(chapter.paragraphs, number)
    requires Chunker.AllSpans(chunks) == Chunker.SpansOf(chapter.paragraphs) && c < |chunks|
    requires chunk.spans == chunks[c].spans
    ensures var r := Analyze(s, chunk, false, n).result; r.Ok? ==> LabelsQuotes(r.value, chunk.spans)
  {
    IngestIds.ChunksAreWellFormed(chapter, number, chunks, c);
    ContiguousPartsKeepOrder(chunk.spans, s.keys);
    EveryQuoteIsLabelledOnce(s, chunk, false, n);
  }

  // ----------------------------------------------------------------- exactly when the order is kept

  function Members(ids: seq<string>): set<string> {
    set id | id in ids
  }

  lemma {:induction false} DistinctAreAsMany(ids: seq<string>)
    requires forall i, j | 0 <= i < j < |ids| :: ids[i] != ids[j]
    ensures |Members(ids)| == |ids|
  {
    if ids != [] {
      var front, last := ids[..|ids| - 1], ids[|ids| - 1];
      DistinctAreAsMany(front);
      assert ids == front + [last];
      assert Members(ids) == Members(front) + {last};
    }
  }

  /** As many labels as quotes. */
  lemma NamedOnceHasLength(ids: seq<string>, spans: seq<Span>)
    requires UniqueIds(spans) && NamesEachQuoteOnce(ids, spans)
    ensures |ids| == |QuoteIds(spans)|
  {
    QuoteIdsAreUnique(spans);
    DistinctAreAsMany(ids);
    DistinctAreAsMany(QuoteIds(spans));
    assert Members(ids) == Members(QuoteIds(spans));
  }

  /** If the chunk's own quotes keep their order, one of its halves is to blame. */
  lemma SomeHalfReorders(spans: seq<Span>, keys: Keys)
    requires !PartsKeepOrder(spans, keys) && SeenInOrder(spans, keys)
    ensures |Runs(spans, keys)| >= 2
    ensures |Runs(HeadOf(spans, keys), keys)| < |Runs(spans, keys)| && |Runs(TailOf(spans, keys), keys)| < |Runs(spans, keys)|
    ensures !PartsKeepOrder(HeadOf(spans, keys), keys) || !PartsKeepOrder(TailOf(spans, keys), keys)
  {
    assert !HalvesKeepOrder(spans, keys);
    CutRuns(spans, keys, |Runs(spans, keys)| / 2);
  }

  /** Which half to take at each turn, down to a part of the chunk. */
  datatype Path = Here | First(rest: Path) | Second(rest: Path)

  /** The part at the end of the path has quotes that the heuristic analyzer reorders. */
  ghost predicate Leads(path: Path, spans: seq<Span>, keys: Keys) {
    match path
    case Here => !SeenInOrder(spans, keys)
    case First(rest) => |Runs(spans, keys)| >= 2 && Leads(rest, HeadOf(spans, keys), keys)
    case Second(rest) => |Runs(spans, keys)| >= 2 && Leads(rest, TailOf(spans, keys), keys)
  }

  lemma {:induction false} SomePathLeads(spans: seq<Span>, keys: Keys) returns (path: Path)
    requires !PartsKeepOrder(spans, keys)
    ensures Leads(path, spans, keys)
    decreases |Runs(spans, keys)|
  {
    if !SeenInOrder(spans, keys) {
      path := Here;
    } else {
      SomeHalfReorders(spans, keys);
      if !PartsKeepOrder(HeadOf(spans, keys), keys) {
        path := SomePathLeads(HeadOf(spans, keys), keys);
        path := First(path);
      } else {
        path := SomePathLeads(TailOf(spans, keys), keys);
        path := Second(path);
      }
    }
  }

  /** Replies that lead down the path to a refusal, and refuse everything else. */
  function RepliesAlong(path: Path): seq<Reply> {
    match path
    case Here => [Refusal]
    case First(rest) => [MaxTokens] + (RepliesAlong(rest) + [Refusal])
    case Second(rest) => [MaxTokens] + ([Refusal] + RepliesAlong(rest))
  }

  lemma HalvesStayApart(a: seq<string>, b: seq<string>, p: seq<string>, q: seq<string>)
    requires |a| == |p| && a + b == p + q
    ensures a == p && b == q
  {
    assert (a + b)[..|a|] == a && (p + q)[..|p|] == p;
    assert (a + b)[|a|..] == b && (p + q)[|p|..] == q;
  }

  /** If one half is labelled out of order, so is the whole. */
  lemma HalfOutOfOrder(s: Setup, head: seq<Span>, tail: seq<Span>, first: Analysis, second: Analysis)
    requires UniqueIds(head + tail) && !(LabelsQuotes(first, head) && LabelsQuotes(second, tail))
    requires NamesEachQuoteOnce(LabelIds(first.labels), head)
    ensures !LabelsQuotes(Merge(first, second), head + tail)
  {
    UniqueHalves(head, tail);
    NamedOnceHasLength(LabelIds(first.labels), head);
    LabelIdsConcat(first.labels, second.labels);
    QuoteIdsConcat(head, tail);
    if LabelsQuotes(Merge(first, second), head + tail) {
      HalvesStayApart(LabelIds(first.labels), LabelIds(second.labels), QuoteIds(head), QuoteIds(tail));
    }
  }

  lemma FirstReply(s: Setup, n: nat, a: Reply, rest: seq<Reply>)
    requires RepliesFrom(s, n, [a] + rest)
    ensures s.replies(n) == a && RepliesFrom(s, n + 1, rest)
  {
    assert ([a] + rest)[1..] == rest;
  }

  lemma LastReply(s: Setup, n: nat, front: seq<Reply>, a: Reply)
    requires RepliesFrom(s, n, front + [a])
    ensures RepliesFrom(s, n, front) && s.replies(n + |front|) == a
  {
    RepliesOfPart(s, n, front, [a]);
    AppendNothing([a]);
    FirstReply(s, n + |front|, a, []);
  }

  /** A result that came after the given number of requests, with labels out of order. */
  ghost predicate OutOfOrder(r: Outcome, next: nat, spans: seq<Span>) {
    r.result.Ok? && r.next == next && !LabelsQuotes(r.result.value, spans)
  }

  lemma HalvesReorder(
    s: Setup, chunk: Chunk, n: nat, head: Chunk, tail: Chunk, first: Outcome, second: Outcome, next: nat)
    requires GoodFallback(s) && UniqueIds(chunk.spans)
    requires Halved(s, chunk, n, head, tail, first, second, Analyze(s, chunk, false, n))
    requires first.result.Ok? && second.result.Ok? && second.next == next
    requires !(LabelsQuotes(first.result.value, head.spans) && LabelsQuotes(second.result.value, tail.spans))
    ensures OutOfOrder(Analyze(s, chunk, false, n), next, chunk.spans)
  {
    UniqueHalves(head.spans, tail.spans);
    EveryQuoteIsNamedOnce(s, head, false, n + 1);
    HalfOutOfOrder(s, head.spans, tail.spans, first.result.value, second.result.value);
  }

  /** With the replies from `n` on, every chunk with these spans is labelled out of order at request `next`. */
  ghost predicate Reorders(s: Setup, n: nat, spans: seq<Span>, next: nat) {
    forall chunk: Chunk | chunk.spans == spans :: OutOfOrder(Analyze(s, chunk, false, n), next, spans)
  }

  lemma RefusalReorders(s: Setup, n: nat, spans: seq<Span>)
    requires GoodFallback(s) && UniqueIds(spans) && !SeenInOrder(spans, s.keys) && s.replies(n) == Refusal
    ensures Reorders(s, n, spans, n + 1)
  {
    forall chunk: Chunk | chunk.spans == spans
      ensures OutOfOrder(Analyze(s, chunk, false, n), n + 1, spans)
    {
      FallbackKeepsOrderIff(s, chunk, false, n);
      RefusedAtOnce(s, chunk, false, n);
    }
  }

  /** The first half is out of order, the second one is refused. */
  lemma HeadReorders(s: Setup, n: nat, spans: seq<Span>, middle: nat, next: nat)
    requires GoodFallback(s) && UniqueIds(spans) && |Runs(spans, s.keys)| >= 2
    requires s.replies(n) == MaxTokens && s.replies(middle) == Refusal && next == middle + 1
    requires Reorders(s, n + 1, HeadOf(spans, s.keys), middle)
    ensures Reorders(s, n, spans, next)
  {
    forall chunk: Chunk | chunk.spans == spans
      ensures OutOfOrder(Analyze(s, chunk, false, n), next, spans)
    {
      var head, tail, first, second := AnalyzeHalves(s, chunk, false, n);
      assert OutOfOrder(first, middle, head.spans);
      RefusedAtOnce(s, tail, false, middle);
      HalvesReorder(s, chunk, n, head, tail, first, second, next);
    }
  }

  /** The first half is refused, the second one is out of order. */
  lemma TailReorders(s: Setup, n: nat, spans: seq<Span>, next: nat)
    requires GoodFallback(s) && UniqueIds(spans) && |Runs(spans, s.keys)| >= 2
    requires s.replies(n) == MaxTokens && s.replies(n + 1) == Refusal && Reorders(s, n + 2, TailOf(spans, s.keys), next)
    ensures Reorders(s, n, spans, next)
  {
    forall chunk: Chunk | chunk.spans == spans
      ensures OutOfOrder(Analyze(s, chunk, false, n), next, spans)
    {
      var head, tail, first, second := AnalyzeHalves(s, chunk, false, n);
      RefusedAtOnce(s, head, false, n + 1);
      assert OutOfOrder(second, next, tail.spans);
      HalvesReorder(s, chunk, n, head, tail, first, second, next);
    }
  }

  lemma FirstTurn(s: Setup, n: nat, rest: Path)
    requires RepliesFrom(s, n, RepliesAlong(First(rest)))
    ensures s.replies(n) == MaxTokens && RepliesFrom(s, n + 1, RepliesAlong(rest))
    ensures s.replies(n + 1 + |RepliesAlong(rest)|) == Refusal
    ensures |RepliesAlong(First(rest))| == |RepliesAlong(rest)| + 2
  {
    FirstReply(s, n, MaxTokens, RepliesAlong(rest) + [Refusal]);
    LastReply(s, n + 1, RepliesAlong(rest), Refusal);
  }

  lemma SecondTurn(s: Setup, n: nat, rest: Path)
    requires RepliesFrom(s, n, RepliesAlong(Second(rest)))
    ensures s.replies(n) == MaxTokens && s.replies(n + 1) == Refusal && RepliesFrom(s, n + 2, RepliesAlong(rest))
    ensures |RepliesAlong(Second(rest))| == |RepliesAlong(rest)| + 2
  {
    FirstReply(s, n, MaxTokens, [Refusal] + RepliesAlong(rest));
    FirstReply(s, n + 1, Refusal, RepliesAlong(rest));
  }

  /** Along the whole path: the halving, then one half reordered and the other refused. */
  lemma {:induction false} RepliesAlongReorder(s: Setup, n: nat, spans: seq<Span>, path: Path, next: nat)
    requires GoodFallback(s) && UniqueIds(spans) && Leads(path, spans, s.keys)
    requires RepliesFrom(s, n, RepliesAlong(path)) && next == n + |RepliesAlong(path)|
    ensures Reorders(s, n, spans, next)
    decreases path, 0
  {
    match path
    case Here => RefusalReorders(s, n, spans);
    case First(rest) => AlongFirst(s, n, spans, rest, next);
    case Second(rest) => AlongSecond(s, n, spans, rest, next);
  }

  lemma {:induction false} AlongFirst(s: Setup, n: nat, spans: seq<Span>, rest: Path, next: nat)
    requires GoodFallback(s) && UniqueIds(spans) && Leads(First(rest), spans, s.keys)
    requires RepliesFrom(s, n, RepliesAlong(First(rest))) && next == n + |RepliesAlong(First(rest))|
    ensures Reorders(s, n, spans, next)
    decreases rest, 1
  {
    var middle := n + 1 + |RepliesAlong(rest)|;
    UniqueParts(spans, s.keys);
    FirstTurn(s, n, rest);
    RepliesAlongReorder(s, n + 1, HeadOf(spans, s.keys), rest, middle);
    HeadReorders(s, n, spans, middle, next);
  }

  lemma {:induction false} AlongSecond(s: Setup, n: nat, spans: seq<Span>, rest: Path, next: nat)
    requires GoodFallback(s) && UniqueIds(spans) && Leads(Second(rest), spans, s.keys)
    requires RepliesFrom(s, n, RepliesAlong(Second(rest))) && next == n + |RepliesAlong(Second(rest))|
    ensures Reorders(s, n, spans, next)
    decreases rest, 1
  {
    UniqueParts(spans, s.keys);
    SecondTurn(s, n, rest);
    RepliesAlongReorder(s, n + 2, TailOf(spans, s.keys), rest, next);
    TailReorders(s, n, spans, next);
  }

  lemma UniqueParts(spans: seq<Span>, keys: Keys)
    requires UniqueIds(spans) && |Runs(spans, keys)| >= 2
    ensures UniqueIds(HeadOf(spans, keys)) && UniqueIds(TailOf(spans, keys))
  {
    CutRuns(spans, keys, |Runs(spans, keys)| / 2);
    UniqueHalves(HeadOf(spans, keys), TailOf(spans, keys));
  }

  function Replay(n: nat, replies: seq<Reply>): nat -> Reply {
    (k: nat) => if n <= k < n + |replies| then replies[k - n] else Refusal
  }

  lemma {:induction false} Replayed(s: Setup, n: nat, replies: seq<Reply>, i: nat)
    requires i <= |replies| && s.replies == Replay(n, replies)
    ensures RepliesFrom(s, n + i, replies[i..])
    decreases |replies| - i
  {
    if i < |replies| {
      Replayed(s, n, replies, i + 1);
      SuffixStep(replies, i);
    }
  }

  lemma ReplayedAll(s: Setup, n: nat, replies: seq<Reply>)
    requires s.replies == Replay(n, replies)
    ensures RepliesFrom(s, n, replies)
  {
    Replayed(s, n, replies, 0);
    assert replies[0..] == replies;
  }

  /** With this stream of replies the labels of a result name the quotes in span order. */
  ghost predicate OrderedFor(s: Setup, chunk: Chunk, n: nat, replies: nat -> Reply) {
    var r := Analyze(s.(replies := replies), chunk, false, n).result;
    r.Ok? ==> LabelsQuotes(r.value, chunk.spans)
  }

  /** The labels are in span order for every stream of replies if and only if the quotes of the chunk and of all its
      parts are first seen in order, which the spans alone decide. */
  lemma LabelsKeepOrderIff(s: Setup, chunk: Chunk, n: nat)
    requires GoodFallback(s) && UniqueIds(chunk.spans)
    ensures (forall replies: nat -> Reply :: OrderedFor(s, chunk, n, replies)) <==> PartsKeepOrder(chunk.spans, s.keys)
  {
    if PartsKeepOrder(chunk.spans, s.keys) {
      forall replies: nat -> Reply
        ensures OrderedFor(s, chunk, n, replies)
      {
        OtherReplies(s, replies);
        EveryQuoteIsLabelledOnce(s.(replies := replies), chunk, false, n);
      }
    } else {
      var path := SomePathLeads(chunk.spans, s.keys);
      PathBreaksOrder(s, chunk, n, path);
    }
  }

  lemma PathBreaksOrder(s: Setup, chunk: Chunk, n: nat, path: Path)
    requires GoodFallback(s) && UniqueIds(chunk.spans) && Leads(path, chunk.spans, s.keys)
    ensures !OrderedFor(s, chunk, n, Replay(n, RepliesAlong(path)))
  {
    var replies := RepliesAlong(path);
    var t := s.(replies := Replay(n, replies));
    OtherReplies(s, t.replies);
    ReplayedAll(t, n, replies);
    RepliesAlongReorder(t, n, chunk.spans, path, n + |replies|);
    assert OutOfOrder(Analyze(t, chunk, false, n), n + |replies|, chunk.spans);
  }

  lemma OtherReplies(s: Setup, replies: nat -> Reply)
    requires GoodFallback(s)
    ensures GoodFallback(s.(replies := replies))
  {
    var t := s.(replies := replies);
    forall chunk: Chunk | UniqueIds(chunk.spans)
      ensures LabelsGroups(t.heuristic(chunk), chunk.spans, t.keys)
    {
      assert LabelsGroups(s.heuristic(chunk), chunk.spans, s.keys);
    }
  }

  /** A fallback keeps the span order exactly if the paragraphs of the quotes are first seen in that order. */
  lemma FallbackKeepsOrderIff(s: Setup, chunk: Chunk, repairing: bool, n: nat)
    requires GoodFallback(s) && UniqueIds(chunk.spans) && (s.replies(n) == Refusal || s.replies(n) == ContextExceeded)
    ensures
      var r := Analyze(s, chunk, repairing, n).result;
      r.Ok? && (LabelsQuotes(r.value, chunk.spans) <==> SeenInOrder(chunk.spans, s.keys))
  {
    assert LabelsGroups(s.heuristic(chunk), chunk.spans, s.keys);
    QuotesKeepOrderIff(chunk.spans, s.keys);
  }

  /** For example a chunk that returns to its first paragraph: refused, its quotes c1p1s0, c1p2s0, c1p1s1 come back
      labelled as c1p1s0, c1p1s1, c1p2s0. */
  lemma RefusedChunkIsReordered(s: Setup, chunk: Chunk, n: nat)
    requires GoodFallback(s) && s.keys == IngestIds.ParagraphKey && s.replies(n) == Refusal
    requires chunk.spans == [IngestIds.QuoteOf(1, 0), IngestIds.QuoteOf(2, 0), IngestIds.QuoteOf(1, 1)]
    ensures
      var r := Analyze(s, chunk, false, n).result;
      && r.Ok? && !LabelsQuotes(r.value, chunk.spans)
      && LabelIds(r.value.labels) == [IngestIds.SpanId(1, 1, 0), IngestIds.SpanId(1, 1, 1), IngestIds.SpanId(1, 2, 0)]
  {
    IngestIds.ReturningQuoteIsReordered(IngestIds.QuoteOf(1, 0), IngestIds.QuoteOf(2, 0), IngestIds.QuoteOf(1, 1));
    assert LabelsGroups(s.heuristic(chunk), chunk.spans, s.keys);
    RefusedAtOnce(s, chunk, false, n);
  }

  /** An analysis that is the model's own in all its parts has its cues inside the chunk. */
  lemma {:induction false} ModelCuesAreInside(s: Setup, chunk: Chunk, repairing: bool, n: nat)
    ensures
      var r := Analyze(s, chunk, repairing, n).result;
      r.Ok? && r.value.source == Llm ==> CuesInside(r.value, chunk.spans) && CuesInRange(r.value)
    decreases GroupCount(chunk, s.keys), if repairing then 0 else 1
  {
    if s.replies(n) == MaxTokens && GroupCount(chunk, s.keys) >= 2 {
      var head, tail, first, second := AnalyzeHalves(s, chunk, repairing, n);
      ModelCuesAreInside(s, head, false, n + 1);
      if first.result.Ok? {
        ModelCuesAreInside(s, tail, false, first.next);
        if second.result.Ok? && Merge(first.result.value, second.result.value).source == Llm {
          MergedCuesAreInside(first.result.value, second.result.value, head.spans, tail.spans);
        }
      }
    } else {
      AnalyzeWhole(s, chunk, repairing, n);
      if !repairing {
        ModelCuesAreInside(s, chunk, true, n + 1);
      }
    }
  }

  lemma InChunkConcat(id: string, a: seq<Span>, b: seq<Span>)
    ensures InChunk(id, a + b) <==> InChunk(id, a) || InChunk(id, b)
  {
    assert SpanIds(a + b) == SpanIds(a) + SpanIds(b);
  }

  lemma MergedCuesAreInside(first: Analysis, second: Analysis, a: seq<Span>, b: seq<Span>)
    requires CuesInside(first, a) && CuesInRange(first) && CuesInside(second, b) && CuesInRange(second)
    ensures CuesInside(Merge(first, second), a + b) && CuesInRange(Merge(first, second))
  {
    var merged := Merge(first, second);
    forall i | 0 <= i < |merged.sfx|
      ensures InChunk(merged.sfx[i].spanId, a + b)
    {
      InChunkConcat(merged.sfx[i].spanId, a, b);
    }
    forall i | 0 <= i < |merged.music|
      ensures InChunk(merged.music[i].spanId, a + b)
    {
      InChunkConcat(merged.music[i].spanId, a, b);
    }
  }

  /** The last reply explains the error, if there is one. */
  ghost predicate HasCause(s: Setup, r: Outcome) {
    r.next > 0 && (r.result.Err? ==> s.replies(r.next - 1) == if r.result.error == ProviderError then Raised else MaxTokens)
  }

  /** Only a failed request or a truncated single paragraph makes the analysis fail. */
  lemma {:induction false} FailureHasACause(s: Setup, chunk: Chunk, repairing: bool, n: nat)
    ensures HasCause(s, Analyze(s, chunk, repairing, n))
    decreases GroupCount(chunk, s.keys), if repairing then 0 else 1
  {
    if s.replies(n) == MaxTokens && GroupCount(chunk, s.keys) >= 2 {
      var head, tail, first, second := AnalyzeHalves(s, chunk, repairing, n);
      FailureHasACause(s, head, false, n + 1);
      if first.result.Ok? {
        FailureHasACause(s, tail, false, first.next);
      }
    } else {
      AnalyzeWhole(s, chunk, repairing, n);
      if !repairing {
        FailureHasACause(s, chunk, true, n + 1);
      }
    }
  }

  // ----------------------------------------------------------------- halving does not break the conversation

  lemma {:induction false} LabelledAsOther(labels: seq<Label>, id: string)
    requires id !in LabelIds(labels)
    ensures Chunker.LabelledAs(labels, id) == ""
  {
    if labels != [] {
      var n := |labels| - 1;
      assert LabelIds(labels)[n] == labels[n].spanId;
      assert LabelIds(labels[..n]) == LabelIds(labels)[..n];
      LabelledAsOther(labels[..n], id);
    }
  }

  lemma {:induction false} LabelledAsConcat(a: seq<Label>, b: seq<Label>, id: string)
    ensures Chunker.LabelledAs(a + b, id) == if id in LabelIds(b) then Chunker.LabelledAs(b, id) else Chunker.LabelledAs(a, id)
  {
    if b == [] {
      assert a + b == a;
    } else {
      var n := |b| - 1;
      assert (a + b)[..|a + b| - 1] == a + b[..n] && (a + b)[|a + b| - 1] == b[n];
      assert LabelIds(b) == LabelIds(b[..n]) + [b[n].spanId];
      LabelledAsConcat(a, b[..n], id);
    }
  }

  /** Speakers depend only on how the quotes of these spans are labelled. */
  lemma {:induction false} SpokenSame(spans: seq<Span>, a: seq<Label>, b: seq<Label>)
    requires forall i | 0 <= i < |spans| && spans[i].kind == Quote :: Chunker.LabelledAs(a, spans[i].id) == Chunker.LabelledAs(b, spans[i].id)
    ensures Chunker.Spoken(spans, a) == Chunker.Spoken(spans, b)
  {
    if spans != [] {
      assert forall i | 0 <= i < |spans[1..]| :: spans[1..][i] == spans[i + 1];
      SpokenSame(spans[1..], a, b);
    }
  }

  lemma {:induction false} SpokenConcat(a: seq<Span>, b: seq<Span>, labels: seq<Label>)
    ensures Chunker.Spoken(a + b, labels) == Chunker.Spoken(a, labels) + Chunker.Spoken(b, labels)
  {
    if a == [] {
      assert a + b == b;
    } else {
      SpokenConcat(a[1..], b, labels);
      assert (a + b)[1..] == a[1..] + b && (a + b)[0] == a[0];
      var speaker := Chunker.LabelledAs(labels, a[0].id);
      var own := if a[0].kind == Quote && speaker != "" && speaker != NARRATOR then [speaker] else [];
      ConcatAssoc(own, Chunker.Spoken(a[1..], labels), Chunker.Spoken(b, labels));
    }
  }

  lemma {:induction false} QuoteIsIn(spans: seq<Span>, i: nat)
    requires i < |spans| && spans[i].kind == Quote
    ensures spans[i].id in QuoteIds(spans)
  {
    if i > 0 {
      QuoteIsIn(spans[1..], i - 1);
    }
  }

  lemma QuotesOfOtherHalf(a: seq<Span>, b: seq<Span>, i: nat)
    requires UniqueIds(a + b) && i < |a|
    ensures a[i].id !in QuoteIds(b)
  {
    QuotesAreSpans(b);
    assert (a + b)[i] == a[i];
    forall j | 0 <= j < |b|
      ensures SpanIds(b)[j] != a[i].id
    {
      assert (a + b)[|a| + j] == b[j];
    }
  }

  /** The labels of one half say nothing about the quotes of the other. */
  lemma MergedSpeakers(a: seq<Span>, b: seq<Span>, first: seq<Label>, second: seq<Label>)
    requires UniqueIds(a + b) && LabelIds(first) == QuoteIds(a) && LabelIds(second) == QuoteIds(b)
    ensures Chunker.Spoken(a + b, first + second) == Chunker.Spoken(a, first) + Chunker.Spoken(b, second)
  {
    SpokenConcat(a, b, first + second);
    forall i | 0 <= i < |a| && a[i].kind == Quote
      ensures Chunker.LabelledAs(first + second, a[i].id) == Chunker.LabelledAs(first, a[i].id)
    {
      LabelledAsConcat(first, second, a[i].id);
      QuotesOfOtherHalf(a, b, i);
    }
    SpokenSame(a, first + second, first);
    forall i | 0 <= i < |b| && b[i].kind == Quote
      ensures Chunker.LabelledAs(first + second, b[i].id) == Chunker.LabelledAs(second, b[i].id)
    {
      LabelledAsConcat(first, second, b[i].id);
      QuoteIsIn(b, i);
    }
    SpokenSame(b, first + second, second);
  }

  /** The speakers carried out of a halved chunk are those that its second half carries out. */
  lemma HalvingKeepsSpeakers(chunk: Chunk, head: Chunk, tail: Chunk, first: Analysis, second: Analysis)
    requires chunk.spans == head.spans + tail.spans && UniqueIds(chunk.spans)
    requires LabelsQuotes(first, head.spans) && LabelsQuotes(second, tail.spans)
    ensures
      Chunker.RememberAll(Carried(chunk, head, tail, first).priorSpeakers, Chunker.Heard(tail.spans, second.labels))
      == Chunker.RememberAll(chunk.priorSpeakers, Chunker.Heard(chunk.spans, Merge(first, second).labels))
  {
    UniqueHalves(head.spans, tail.spans);
    Chunker.HeardIsSpoken(head.spans, first.labels);
    Chunker.HeardIsSpoken(tail.spans, second.labels);
    Chunker.HeardIsSpoken(chunk.spans, Merge(first, second).labels);
    MergedSpeakers(head.spans, tail.spans, first.labels, second.labels);
    Chunker.RememberAllConcat(
      chunk.priorSpeakers, Chunker.Spoken(head.spans, first.labels), Chunker.Spoken(tail.spans, second.labels));
  }
}
