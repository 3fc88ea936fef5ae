/** Packing a chapter's paragraphs into analyzer-sized chunks (`make_chunks`) and carrying the recent
    speakers from chunk to chunk (`carry_speakers`). */
module Chunker {
  import opened Common
  import opened Book
  import opened Text

  const CONTEXT_PARAGRAPHS := 2
  const SEPARATOR_CHARS := 2
  const PRIOR_SPEAKERS := 2

  type Group = seq<Paragraph>

  /** Characters of a group: its texts and the separators between them. */
  function Size(group: Group): nat {
    if group == [] then 0
    else if |group| == 1 then |group[0].text|
    else Size(group[..|group| - 1]) + SEPARATOR_CHARS + |group[|group| - 1].text|
  }

  /** A group a chunk may hold: within the limit, or one paragraph that is longer by itself. */
  predicate Fits(group: Group, maxChars: int) {
    group != [] && (|group| == 1 || Size(group) <= maxChars)
  }

  ghost predicate AllFit(groups: seq<Group>, maxChars: int) {
    forall i | 0 <= i < |groups| :: Fits(groups[i], maxChars)
  }

  ghost predicate ValidPacking(groups: seq<Group>, paragraphs: seq<Paragraph>, maxChars: int) {
    Flatten(groups) == paragraphs && AllFit(groups, maxChars)
  }

  // ----------------------------------------------------------------- greedy is optimal

  lemma SliceOfFront(group: Group, i: nat)
    requires i < |group|
    ensures group[i..|group|][..|group| - i - 1] == group[..|group| - 1][i..|group| - 1]
  {
    var a, b := group[i..|group|][..|group| - i - 1], group[..|group| - 1][i..|group| - 1];
    assert forall k | 0 <= k < |a| :: a[k] == group[i + k] == b[k];
  }

  lemma {:induction false} SizeOfPart(group: Group, i: nat, j: nat)
    requires i <= j <= |group|
    ensures Size(group[i..j]) <= Size(group)
    decreases |group|
  {
    if |group| > 0 {
      var front := group[..|group| - 1];
      if j < |group| {
        SizeOfPart(front, i, j);
        assert front[i..j] == group[i..j];
      } else if i < |group| {
        SizeOfPart(front, i, j - 1);
        var part := group[i..j];
        SliceOfFront(group, i);
        assert part[|part| - 1] == group[|group| - 1];
      }
    }
  }

  /** `group` could not take in the first paragraph of `next`. */
  ghost predicate Full(group: Group, next: Group, maxChars: int) {
    next != [] && Size(group) + SEPARATOR_CHARS + |next[0].text| > maxChars
  }

  /** Every group takes all it can. */
  ghost predicate Greedy(groups: seq<Group>, maxChars: int) {
    forall k, n | 0 <= k && n == k + 1 < |groups| :: Full(groups[k], groups[n], maxChars)
  }

  lemma GreedyTail(groups: seq<Group>, maxChars: int)
    requires Greedy(groups, maxChars) && groups != []
    ensures Greedy(groups[1..], maxChars)
  {
    var tail := groups[1..];
    forall k, n | 0 <= k && n == k + 1 < |tail|
      ensures Full(tail[k], tail[n], maxChars)
    {
      assert tail[k] == groups[k + 1] && tail[n] == groups[n + 1];
    }
  }

  lemma FlattenTwo(groups: seq<Group>)
    requires |groups| >= 2
    ensures Flatten(groups) == groups[0] + (groups[1] + Flatten(groups[2..]))
  {
    assert groups[1..][0] == groups[1] && groups[1..][1..] == groups[2..];
  }

  lemma FlattenShort(groups: seq<Group>)
    requires |groups| == 1
    ensures Flatten(groups) == groups[0]
  {
    assert groups[1..] == [];
    assert groups[0] + [] == groups[0];
  }

  /** Taking in one more paragraph grows a group by the separator and the paragraph's text. */
  lemma SizeGrows(group: Group, paragraph: Paragraph)
    requires group != []
    ensures Size(group + [paragraph]) == Size(group) + SEPARATOR_CHARS + |paragraph.text|
  {
    assert (group + [paragraph])[..|group|] == group;
  }

  /** A greedy group that starts inside a fitting group reaches at least to that group's end. */
  lemma GreedyReachesOver(mine: seq<Group>, theirs: Group, rest: seq<Paragraph>, skip: nat, maxChars: int)
    requires mine != [] && mine[0] != [] && Greedy(mine, maxChars)
    requires Fits(theirs, maxChars) && skip < |theirs|
    requires Flatten(mine) == theirs[skip..] + rest
    ensures |mine[0]| >= |theirs| - skip
  {
    var a, all := |mine[0]|, theirs[skip..] + rest;
    if |mine| == 1 {
      FlattenShort(mine);
    } else if a < |theirs| - skip {
      FlattenTwo(mine);
      assert Full(mine[0], mine[1], maxChars);
      assert mine[0] == all[..a] == theirs[skip..skip + a];
      assert mine[1][0] == all[a] == theirs[skip + a];
      SizeGrows(mine[0], mine[1][0]);
      assert mine[0] + [mine[1][0]] == theirs[skip..skip + a + 1];
      SizeOfPart(theirs, skip, skip + a + 1);
    }
  }

  /** Greedy stays ahead: wherever it stands inside (or after) the other packing's first group, it needs no
      more groups than the other packing. */
  lemma {:induction false} GreedyStaysAhead(mine: seq<Group>, theirs: seq<Group>, skip: nat, maxChars: int)
    requires Greedy(mine, maxChars) && (mine != [] ==> mine[0] != []) && AllFit(theirs, maxChars)
    requires skip <= |Flatten(theirs)| && Flatten(mine) == Flatten(theirs)[skip..]
    ensures |mine| <= |theirs|
    decreases |theirs|, |mine|
  {
    if mine != [] {
      var all := Flatten(theirs);
      assert Flatten(mine) == mine[0] + Flatten(mine[1..]);
      assert theirs != [];
      var first, rest := theirs[0], Flatten(theirs[1..]);
      assert all == first + rest;
      if skip >= |first| {
        assert all[skip..] == rest[skip - |first|..];
        GreedyStaysAhead(mine, theirs[1..], skip - |first|, maxChars);
      } else {
        assert all[skip..] == first[skip..] + rest;
        GreedyReachesOver(mine, first, rest, skip, maxChars);
        GreedyTail(mine, maxChars);
        assert |mine| > 1 ==> Full(mine[0], mine[1], maxChars);
        var over := skip + |mine[0]| - |first|;
        assert Flatten(mine[1..]) == Flatten(mine)[|mine[0]|..] == rest[over..];
        GreedyStaysAhead(mine[1..], theirs[1..], over, maxChars);
      }
    }
  }

  /** No division of the paragraphs into fitting groups of consecutive paragraphs has fewer groups. */
  lemma GreedyIsOptimal(mine: seq<Group>, theirs: seq<Group>, paragraphs: seq<Paragraph>, maxChars: int)
    requires ValidPacking(mine, paragraphs, maxChars) && Greedy(mine, maxChars)
    requires ValidPacking(theirs, paragraphs, maxChars)
    ensures |mine| <= |theirs|
  {
    GreedyStaysAhead(mine, theirs, 0, maxChars);
  }

  // ----------------------------------------------------------------- make_chunks

  lemma GreedyExtend(groups: seq<Group>, current: Group, paragraph: Paragraph, maxChars: int)
    requires current != [] ==> Greedy(groups + [current], maxChars)
    requires current == [] ==> groups == []
    ensures Greedy(groups + [current + [paragraph]], maxChars)
  {
    var was: seq<Group> := groups + [current];
    var now: seq<Group> := groups + [current + [paragraph]];
    forall k, n | 0 <= k && n == k + 1 < |now|
      ensures Full(now[k], now[n], maxChars)
    {
      assert Full(was[k], was[n], maxChars);
      assert now[k] == was[k] && now[n][0] == was[n][0];
    }
  }

  /** The state of the packing loop after the paragraphs `seen`. */
  ghost predicate Packed(groups: seq<Group>, current: Group, seen: seq<Paragraph>, maxChars: int) {
    && (current == [] ==> groups == [])
    && (current != [] ==> Fits(current, maxChars) && Greedy(groups + [current], maxChars))
    && AllFit(groups, maxChars)
    && Flatten(groups) + current == seen
  }

  lemma OpenGroup(groups: seq<Group>, current: Group, seen: seq<Paragraph>, paragraph: Paragraph, maxChars: int)
    requires Packed(groups, current, seen, maxChars) && current != []
    requires Size(current) + SEPARATOR_CHARS + |paragraph.text| > maxChars
    ensures Packed(groups + [current], [paragraph], seen + [paragraph], maxChars)
  {
    FlattenSnoc(groups, current);
    var was: seq<Group> := groups + [current];
    var now: seq<Group> := was + [[paragraph]];
    forall k, n | 0 <= k && n == k + 1 < |now|
      ensures Full(now[k], now[n], maxChars)
    {
      if n < |was| {
        assert Full(was[k], was[n], maxChars);
      }
    }
  }

  lemma ExtendGroup(groups: seq<Group>, current: Group, seen: seq<Paragraph>, paragraph: Paragraph, maxChars: int)
    requires Packed(groups, current, seen, maxChars)
    requires current == [] || Size(current) + SEPARATOR_CHARS + |paragraph.text| <= maxChars
    ensures Packed(groups, current + [paragraph], seen + [paragraph], maxChars)
  {
    GreedyExtend(groups, current, paragraph, maxChars);
    if current != [] {
      SizeGrows(current, paragraph);
    }
  }

  /** The packing loop. */
  method PackParagraphs(paragraphs: seq<Paragraph>, maxChars: int) returns (groups: seq<Group>)
    ensures ValidPacking(groups, paragraphs, maxChars) && Greedy(groups, maxChars)
    ensures forall theirs | ValidPacking(theirs, paragraphs, maxChars) :: |groups| <= |theirs|
  {
    groups := [];
    var current: Group := [];
    var size := 0;
    for i := 0 to |paragraphs|
      invariant size == Size(current) && (i > 0 ==> current != [])
      invariant Packed(groups, current, paragraphs[..i], maxChars)
    {
      var paragraph := paragraphs[i];
      var length := |paragraph.text|;
      assert paragraphs[..i + 1] == paragraphs[..i] + [paragraph];
      if current != [] && size + SEPARATOR_CHARS + length > maxChars {
        OpenGroup(groups, current, paragraphs[..i], paragraph, maxChars);
        groups := groups + [current];
        current, size := [], 0;
        assert current + [paragraph] == [paragraph];
      } else {
        ExtendGroup(groups, current, paragraphs[..i], paragraph, maxChars);
      }
      if current != [] {
        SizeGrows(current, paragraph);
        size := size + SEPARATOR_CHARS;
      }
      current := current + [paragraph];
      size := size + length;
    }
    assert paragraphs[..|paragraphs|] == paragraphs;
    if current != [] {
      FlattenSnoc(groups, current);
      groups := groups + [current];
    }
    forall theirs | ValidPacking(theirs, paragraphs, maxChars)
      ensures |groups| <= |theirs|
    {
      GreedyIsOptimal(groups, theirs, paragraphs, maxChars);
    }
  }

  function SpanLists(paragraphs: seq<Paragraph>): (lists: seq<seq<Span>>)
    ensures |lists| == |paragraphs| && forall i | 0 <= i < |lists| :: lists[i] == paragraphs[i].spans
  {
    seq(|paragraphs|, i requires 0 <= i < |paragraphs| => paragraphs[i].spans)
  }

  function SpansOf(paragraphs: seq<Paragraph>): seq<Span> {
    Flatten(SpanLists(paragraphs))
  }

  lemma SpansOfConcat(a: seq<Paragraph>, b: seq<Paragraph>)
    ensures SpansOf(a + b) == SpansOf(a) + SpansOf(b)
  {
    assert SpanLists(a + b) == SpanLists(a) + SpanLists(b);
    FlattenConcat(SpanLists(a), SpanLists(b));
  }

  lemma SpansOfOne(paragraph: Paragraph)
    ensures SpansOf([paragraph]) == paragraph.spans
  {
    assert SpanLists([paragraph]) == [] + [paragraph.spans];
    FlattenSnoc([], paragraph.spans);
  }

  function BreakIndices(group: Group): seq<int> {
    if group == [] then [] else (if group[0].sceneBreakBefore then [group[0].index] else []) + BreakIndices(group[1..])
  }

  function TextsOf(paragraphs: seq<Paragraph>): (ts: seq<string>)
    ensures |ts| == |paragraphs| && forall i | 0 <= i < |ts| :: ts[i] == paragraphs[i].text
  {
    seq(|paragraphs|, i requires 0 <= i < |paragraphs| => paragraphs[i].text)
  }

  /** `"\n\n".join(texts)`. */
  function JoinParagraphs(texts: seq<string>): string {
    if texts == [] then "" else if |texts| == 1 then texts[0] else texts[0] + "\n\n" + JoinParagraphs(texts[1..])
  }

  /** The chunk made of `group`, which starts at paragraph `position` of the chapter. */
  function ChunkOf(chapter: Chapter, group: Group, number: nat, position: nat): Chunk
    requires group != [] && position <= |chapter.paragraphs|
  {
    Chunk(
      chapter.index, number, group[0].index, group[|group| - 1].index, SpansOf(group),
      JoinParagraphs(TextsOf(chapter.paragraphs[Max(0, position - CONTEXT_PARAGRAPHS)..position])), "none",
      BreakIndices(group), [])
  }

  function ChunkSpans(chunks: seq<Chunk>): (lists: seq<seq<Span>>)
    ensures |lists| == |chunks| && forall i | 0 <= i < |lists| :: lists[i] == chunks[i].spans
  {
    seq(|chunks|, i requires 0 <= i < |chunks| => chunks[i].spans)
  }

  function AllSpans(chunks: seq<Chunk>): seq<Span> {
    Flatten(ChunkSpans(chunks))
  }

  lemma AllSpansSnoc(chunks: seq<Chunk>, chunk: Chunk)
    ensures AllSpans(chunks + [chunk]) == AllSpans(chunks) + chunk.spans
  {
    assert ChunkSpans(chunks + [chunk]) == ChunkSpans(chunks) + [chunk.spans];
    FlattenSnoc(ChunkSpans(chunks), chunk.spans);
  }

  /** The chunk made of group number `k`. */
  ghost predicate IsChunk(chapter: Chapter, groups: seq<Group>, k: nat, chunk: Chunk)
    requires k < |groups|
  {
    && groups[k] != [] && |Flatten(groups[..k])| <= |chapter.paragraphs|
    && chunk == ChunkOf(chapter, groups[k], k, |Flatten(groups[..k])|)
  }

  lemma FlattenStep(groups: seq<Group>, k: nat)
    requires k < |groups|
    ensures Flatten(groups[..k + 1]) == Flatten(groups[..k]) + groups[k]
    ensures |Flatten(groups[..k + 1])| <= |Flatten(groups)|
  {
    assert groups[..k + 1] == groups[..k] + [groups[k]];
    FlattenSnoc(groups[..k], groups[k]);
    assert groups == groups[..k + 1] + groups[k + 1..];
    FlattenConcat(groups[..k + 1], groups[k + 1..]);
  }

  datatype ChunkResult = Chunks(chunks: seq<Chunk>) | BadLimit

  /** The second loop: one chunk for each group, with the paragraphs before it as context. */
  method BuildChunks(chapter: Chapter, packed: seq<Group>, ghost maxChars: int) returns (chunks: seq<Chunk>)
    requires ValidPacking(packed, chapter.paragraphs, maxChars)
    ensures |chunks| == |packed| && AllSpans(chunks) == SpansOf(chapter.paragraphs)
    ensures forall k | 0 <= k < |packed| :: IsChunk(chapter, packed, k, chunks[k])
  {
    chunks := [];
    var position := 0;
    for k := 0 to |packed|
      invariant |chunks| == k && position == |Flatten(packed[..k])| <= |chapter.paragraphs|
      invariant forall j | 0 <= j < k :: IsChunk(chapter, packed, j, chunks[j])
      invariant AllSpans(chunks) == SpansOf(Flatten(packed[..k]))
    {
      FlattenStep(packed, k);
      SpansOfConcat(Flatten(packed[..k]), packed[k]);
      assert Fits(packed[k], maxChars);
      var chunk := ChunkOf(chapter, packed[k], k, position);
      AllSpansSnoc(chunks, chunk);
      chunks := chunks + [chunk];
      position := position + |packed[k]|;
    }
    assert packed[..|packed|] == packed;
  }

  /** `make_chunks`.  The chunks' spans are the chapter's spans in order, cut only between paragraphs, each
      chunk fits, and there are as few chunks as possible; a limit below one is a ValueError. */
  method MakeChunks(chapter: Chapter, maxChars: int) returns (result: ChunkResult, ghost groups: seq<Group>)
    ensures maxChars < 1 <==> result == BadLimit
    ensures result != BadLimit ==>
      && ValidPacking(groups, chapter.paragraphs, maxChars) && |result.chunks| == |groups|
      && AllSpans(result.chunks) == SpansOf(chapter.paragraphs)
      && (forall theirs | ValidPacking(theirs, chapter.paragraphs, maxChars) :: |result.chunks| <= |theirs|)
    ensures result != BadLimit ==>
      forall k | 0 <= k < |groups| :: IsChunk(chapter, groups, k, result.chunks[k])
  {
    if maxChars < 1 {
      return BadLimit, [];
    }
    var packed := PackParagraphs(chapter.paragraphs, maxChars);
    groups := packed;
    var chunks := BuildChunks(chapter, packed, maxChars);
    result := Chunks(chunks);
  }

  // ----------------------------------------------------------------- recent speakers

  /** Speaker of the last label with this span id (a dict built from the labels), or "". */
  function LabelledAs(labels: seq<Label>, id: string): string {
    if labels == [] then ""
    else if labels[|labels| - 1].spanId == id then labels[|labels| - 1].speaker
    else LabelledAs(labels[..|labels| - 1], id)
  }

  /** The non-narrator speakers of the quote spans, in span order. */
  function Spoken(spans: seq<Span>, labels: seq<Label>): seq<string> {
    if spans == [] then []
    else
      var speaker := LabelledAs(labels, spans[0].id);
      (if spans[0].kind == Quote && speaker != "" && speaker != NARRATOR then [speaker] else [])
      + Spoken(spans[1..], labels)
  }

  function Without<T(==)>(names: seq<T>, name: T): seq<T> {
    if names == [] then [] else (if names[0] == name then [] else [names[0]]) + Without(names[1..], name)
  }

  /** The last `n` elements (`del xs[:-n]`). */
  function LastOf<T>(xs: seq<T>, n: nat): seq<T> {
    if |xs| <= n then xs else xs[|xs| - n..]
  }

  function Remember(recent: seq<string>, speaker: string): seq<string> {
    LastOf(Without(recent, speaker) + [speaker], PRIOR_SPEAKERS)
  }

  function RememberAll(recent: seq<string>, speakers: seq<string>): seq<string>
    decreases |speakers|
  {
    if speakers == [] then recent else RememberAll(Remember(recent, speakers[0]), speakers[1..])
  }

  /** Each quote id once, with the last quote that has it (a dict from ids to positions, in the order of positions). */
  function LastOnes(spans: seq<Span>): seq<Span> {
    if spans == [] then []
    else
      (if spans[0].kind == Quote && spans[0].id !in QuoteIds(spans[1..]) then [spans[0]] else []) + LastOnes(spans[1..])
  }

  /** The speakers that a labelled chunk adds to those carried on. */
  function Heard(spans: seq<Span>, labels: seq<Label>): seq<string> {
    Spoken(LastOnes(spans), labels)
  }

  /** With distinct ids these are the speakers of all quotes, in span order. */
  lemma {:induction false} HeardIsSpoken(spans: seq<Span>, labels: seq<Label>)
    requires UniqueIds(spans)
    ensures Heard(spans, labels) == Spoken(spans, labels)
  {
    if spans != [] {
      var rest := spans[1..];
      assert forall k | 0 <= k < |rest| :: rest[k] == spans[k + 1];
      HeardIsSpoken(rest, labels);
      QuoteIdsMembers(rest);
      if spans[0].kind == Quote {
        assert LastOnes(spans) == [spans[0]] + LastOnes(rest);
        assert LastOnes(spans)[1..] == LastOnes(rest);
      } else {
        assert LastOnes(spans) == LastOnes(rest);
      }
    }
  }

  /** The dictionary has the position of the last quote with each id. */
  ghost predicate LastPositions(index: map<string, nat>, spans: seq<Span>, n: nat)
    requires n <= |spans|
  {
    && (forall i: nat | i < n && spans[i].kind == Quote :: spans[i].id in index && i <= index[spans[i].id])
    && (forall id | id in index :: index[id] < n && spans[index[id]].kind == Quote && spans[index[id]].id == id)
  }

  lemma LastPositionIff(index: map<string, nat>, spans: seq<Span>, i: nat)
    requires i < |spans| && spans[i].kind == Quote && LastPositions(index, spans, |spans|)
    ensures index[spans[i].id] == i <==> spans[i].id !in QuoteIds(spans[i + 1..])
  {
    var rest := spans[i + 1..];
    QuoteIdsMembers(rest);
    var last := index[spans[i].id];
    if last > i {
      assert rest[last - i - 1] == spans[last];
    }
    if spans[i].id in QuoteIds(rest) {
      var k :| 0 <= k < |rest| && rest[k].kind == Quote && rest[k].id == spans[i].id;
      assert rest[k] == spans[i + 1 + k];
    }
  }

  /** The positions of `carry_speakers`. */
  method IndexQuotes(spans: seq<Span>) returns (index: map<string, nat>)
    ensures LastPositions(index, spans, |spans|)
  {
    index := map[];
    for i := 0 to |spans|
      invariant LastPositions(index, spans, i)
    {
      if spans[i].kind == Quote {
        index := index[spans[i].id := i];
      }
    }
  }

  lemma HeardStep(spans: seq<Span>, i: nat, labels: seq<Label>)
    requires i < |spans|
    ensures
      var speaker := LabelledAs(labels, spans[i].id);
      var last := spans[i].kind == Quote && spans[i].id !in QuoteIds(spans[i + 1..]);
      Heard(spans[i..], labels) ==
        if last && speaker != "" && speaker != NARRATOR then [speaker] + Heard(spans[i + 1..], labels)
        else Heard(spans[i + 1..], labels)
  {
    SuffixStep(spans, i);
    var ones := LastOnes(spans[i + 1..]);
    if spans[i].kind == Quote && spans[i].id !in QuoteIds(spans[i + 1..]) {
      assert LastOnes(spans[i..]) == [spans[i]] + ones;
      assert LastOnes(spans[i..])[1..] == ones;
    } else {
      assert LastOnes(spans[i..]) == ones;
    }
  }

  /** `carry_speakers`. */
  method CarrySpeakers(previous: seq<string>, chunk: Chunk, labels: seq<Label>) returns (recent: seq<string>)
    ensures recent == RememberAll(previous, Heard(chunk.spans, labels))
  {
    recent := previous;
    var index := IndexQuotes(chunk.spans);
    for i := 0 to |chunk.spans|
      invariant RememberAll(recent, Heard(chunk.spans[i..], labels)) == RememberAll(previous, Heard(chunk.spans, labels))
    {
      HeardStep(chunk.spans, i, labels);
      if chunk.spans[i].kind != Quote {
        continue;
      }
      LastPositionIff(index, chunk.spans, i);
      var speaker := LabelledAs(labels, chunk.spans[i].id);
      if index[chunk.spans[i].id] != i || speaker == "" || speaker == NARRATOR {
        continue;
      }
      var rest := Heard(chunk.spans[i + 1..], labels);
      assert ([speaker] + rest)[1..] == rest;
      recent := LastOf(Without(recent, speaker) + [speaker], PRIOR_SPEAKERS);
    }
  }

  lemma {:induction false} RememberAllConcat(recent: seq<string>, a: seq<string>, b: seq<string>)
    ensures RememberAll(recent, a + b) == RememberAll(RememberAll(recent, a), b)
    decreases |a|
  {
    if a == [] {
      assert a + b == b;
    } else {
      RememberAllConcat(Remember(recent, a[0]), a[1..], b);
      assert (a + b)[1..] == a[1..] + b;
    }
  }

  /** The latest of `names` that is not `name`. */
  function LatestNot(names: seq<string>, name: string): (q: Option<string>)
    ensures q.Some? ==> LatestOther(names, name, q.value)
    ensures q.None? ==> forall k | 0 <= k < |names| :: names[k] == name
  {
    if names == [] then None
    else if names[|names| - 1] != name then Some(names[|names| - 1])
    else LatestNot(names[..|names| - 1], name)
  }

  /** `q` is the latest of the names heard that is not `last`. */
  ghost predicate LatestOther(heard: seq<string>, last: string, q: string) {
    exists j | 0 <= j < |heard| :: heard[j] == q && q != last && forall k | j < k < |heard| :: heard[k] == last
  }

  /** The latest speaker, and before it the latest one who is somebody else. */
  function LastTwo(earlier: seq<string>, last: string): seq<string> {
    match LatestNot(earlier, last) case Some(q) => [q, last] case None => [last]
  }

  lemma {:induction false} WithoutEndsInLatest(names: seq<string>, name: string)
    ensures
      var kept := Without(names, name);
      LatestNot(names, name) == if kept == [] then None else Some(kept[|kept| - 1])
  {
    if names != [] {
      var front, last := names[..|names| - 1], names[|names| - 1];
      WithoutEndsInLatest(front, name);
      WithoutSnoc(front, last, name);
      assert names == front + [last];
    }
  }

  lemma {:induction false} WithoutSnoc(front: seq<string>, last: string, name: string)
    ensures Without(front + [last], name) == Without(front, name) + if last == name then [] else [last]
  {
    if front != [] {
      WithoutSnoc(front[1..], last, name);
      assert (front + [last])[1..] == front[1..] + [last];
    } else {
      assert (front + [last])[1..] == [];
    }
  }

  lemma RememberedAreTheLastTwo(recent: seq<string>, speaker: string)
    ensures Remember(recent, speaker) == LastTwo(recent, speaker)
  {
    WithoutEndsInLatest(recent, speaker);
  }

  lemma LatestNotSnoc(front: seq<string>, last: string, name: string)
    ensures LatestNot(front + [last], name) == if last != name then Some(last) else LatestNot(front, name)
  {
    assert (front + [last])[..|front|] == front;
  }

  /** Remembering two speakers is enough to find the latest other one. */
  lemma LastTwoAreEnough(heard: seq<string>, last: string, name: string)
    ensures LatestNot(LastTwo(heard, last), name) == LatestNot(heard + [last], name)
  {
    LatestNotSnoc(heard, last, name);
    match LatestNot(heard, last)
    case Some(q) =>
      LatestNotSnoc([q], last, name);
      LatestNotSnoc([], q, name);
      assert [q] + [last] == [q, last] && [] + [q] == [q];
    case None =>
      LatestNotSnoc([], last, name);
      assert [] + [last] == [last];
  }

  /** Whatever was carried before: once a chunk names speakers, the last of them is carried on and, before it, the
      latest one heard, in the chunk or before it, who is somebody else. */
  lemma {:induction false} CarriedAreTheLastTwoSpeakers(previous: seq<string>, speakers: seq<string>)
    requires speakers != []
    ensures
      var n := |speakers| - 1;
      RememberAll(previous, speakers) == LastTwo(previous + speakers[..n], speakers[n])
    decreases |speakers|
  {
    var n := |speakers| - 1;
    var front, last := speakers[..n], speakers[n];
    RememberOneMore(previous, speakers);
    if n == 0 {
      AppendNothing(previous);
    } else {
      CarriedAreTheLastTwoSpeakers(previous, front);
      LastTwoAreEnough(previous + front[..n - 1], front[n - 1], last);
      assert previous + front[..n - 1] + [front[n - 1]] == previous + front;
    }
  }

  lemma RememberOneMore(previous: seq<string>, speakers: seq<string>)
    requires speakers != []
    ensures
      var n := |speakers| - 1;
      RememberAll(previous, speakers) == LastTwo(RememberAll(previous, speakers[..n]), speakers[n])
  {
    var n := |speakers| - 1;
    RememberAllConcat(previous, speakers[..n], [speakers[n]]);
    FrontAndLast(speakers);
    var recent := RememberAll(previous, speakers[..n]);
    assert RememberAll(recent, [speakers[n]]) == Remember(recent, speakers[n]);
    RememberedAreTheLastTwo(recent, speakers[n]);
  }
}
