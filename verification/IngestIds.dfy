/** Span ids as ingest writes them and the analyzers read them back: "c1p7s2" is span 2 of paragraph 7 of chapter 1.
    Digits are ASCII. */
module IngestIds {
  import opened Book
  import opened Common
  import opened Paragraphs
  import opened Text
  import Chunker
  import QuoteOrder

  function SpanId(chapter: nat, paragraph: nat, n: nat): string {
    "c" + Digits(chapter) + ("p" + Digits(paragraph) + ("s" + Digits(n)))
  }

  /** Where the digits that start at `i` end. */
  function DigitsEnd(s: string, i: nat): (e: nat)
    requires i <= |s|
    ensures i <= e <= |s| && (forall k | i <= k < e :: IsDigit(s[k])) && (e < |s| ==> !IsDigit(s[e]))
    decreases |s| - i
  {
    if i < |s| && IsDigit(s[i]) then DigitsEnd(s, i + 1) else i
  }

  /** The end of a letter and digits after it that start at `i`. */
  function NumberEnd(s: string, letter: char, i: nat): (e: Option<nat>)
    requires i <= |s|
    ensures e.Some? ==> i + 1 < e.value <= |s|
  {
    if i < |s| && s[i] == letter && DigitsEnd(s, i + 1) > i + 1 then Some(DigitsEnd(s, i + 1)) else None
  }

  /** The paragraph key of an id: the digits after "p", or the whole id if it is not of that form. */
  function ParagraphKey(id: string): string {
    match NumberEnd(id, 'c', 0)
    case None => id
    case Some(a) =>
      match NumberEnd(id, 'p', a)
      case None => id
      case Some(b) =>
        match NumberEnd(id, 's', b)
        case None => id
        case Some(e) => if e == |id| then id[a + 1..b] else id
  }

  ghost predicate IsNumber(s: string) {
    s != "" && forall k | 0 <= k < |s| :: IsDigit(s[k])
  }

  lemma NumberEndsThere(s: string, letter: char, i: nat, number: string, rest: string)
    requires i <= |s| && s[i..] == [letter] + number + rest && IsNumber(number) && (rest == "" || !IsDigit(rest[0]))
    ensures
      var e := i + 1 + |number|;
      NumberEnd(s, letter, i) == Some(e) && s[i + 1..e] == number && s[e..] == rest
  {
    var tail, e := s[i..], i + 1 + |number|;
    assert |tail| == 1 + |number| + |rest| && tail[0] == letter;
    assert forall k | 0 <= k < |number| :: s[i + 1 + k] == tail[1 + k] == number[k];
    assert rest != "" ==> s[e] == tail[e - i] == rest[0];
    assert s[i + 1..e] == number;
    assert s[e..] == tail[e - i..] == rest;
    forall k | i + 1 <= k < e
      ensures IsDigit(s[k])
    {
      assert s[k] == number[k - i - 1];
    }
  }

  lemma KeyIsBetween(id: string, a: nat, b: nat)
    requires a <= b <= |id| && NumberEnd(id, 'c', 0) == Some(a) && NumberEnd(id, 'p', a) == Some(b)
    requires NumberEnd(id, 's', b) == Some(|id|)
    ensures a < b && ParagraphKey(id) == id[a + 1..b]
  {
  }

  lemma ThreeNumbersAreRead(x: string, y: string, z: string)
    requires IsNumber(x) && IsNumber(y) && IsNumber(z)
    ensures ParagraphKey("c" + x + ("p" + y + ("s" + z))) == y
  {
    var third := "s" + z;
    var second := "p" + y + third;
    var id := "c" + x + second;
    var a, b := 1 + |x|, 2 + |x| + |y|;
    assert NumberEnd(id, 'c', 0) == Some(a) && id[a..] == second by {
      assert id[0..] == id;
      NumberEndsThere(id, 'c', 0, x, second);
    }
    assert NumberEnd(id, 'p', a) == Some(b) && id[a + 1..b] == y && id[b..] == third by {
      NumberEndsThere(id, 'p', a, y, third);
    }
    assert NumberEnd(id, 's', b) == Some(|id|) by {
      AppendNothing(third);
      NumberEndsThere(id, 's', b, z, "");
    }
    KeyIsBetween(id, a, b);
  }

  /** An id is read back as written. */
  lemma SpanIdIsRead(chapter: nat, paragraph: nat, n: nat)
    ensures ParagraphKey(SpanId(chapter, paragraph, n)) == Digits(paragraph)
  {
    DigitsAreDigits(chapter);
    DigitsAreDigits(paragraph);
    DigitsAreDigits(n);
    ThreeNumbersAreRead(Digits(chapter), Digits(paragraph), Digits(n));
  }

  lemma SpanIdsAreInjective(chapter: nat, p: nat, m: nat, q: nat, n: nat)
    requires SpanId(chapter, p, m) == SpanId(chapter, q, n)
    ensures p == q && m == n
  {
    SpanIdIsRead(chapter, p, m);
    SpanIdIsRead(chapter, q, n);
    DigitsAreInjective(p, q);
    var k := |Digits(chapter)| + |Digits(p)| + 3;
    assert SpanId(chapter, p, m)[k..] == Digits(m);
    assert SpanId(chapter, q, n)[k..] == Digits(n);
    DigitsAreInjective(m, n);
  }

  // ----------------------------------------------------------------- ingested chapters

  predicate HasId(span: Span, chapter: nat, p: nat, n: nat) {
    span.id == SpanId(chapter, p, n)
  }

  /** Paragraphs and their spans are numbered as `load_book` and `split_spans` do: paragraphs from 1, spans from 0. */
  ghost predicate Ingested(paragraphs: seq<Paragraph>, chapter: nat) {
    forall p, n | 0 <= p < |paragraphs| && 0 <= n < |paragraphs[p].spans| ::
      HasId(paragraphs[p].spans[n], chapter, p + 1, n)
  }

  /** The span comes from one of the first `upTo` paragraphs. */
  ghost predicate FromUpTo(span: Span, chapter: nat, upTo: nat) {
    exists p: nat, n: nat :: p <= upTo && HasId(span, chapter, p, n)
  }

  ghost predicate IdsUpTo(spans: seq<Span>, chapter: nat, upTo: nat) {
    forall i | 0 <= i < |spans| :: FromUpTo(spans[i], chapter, upTo)
  }

  ghost predicate WellNumbered(spans: seq<Span>, chapter: nat, upTo: nat) {
    IdsUpTo(spans, chapter, upTo) && UniqueIds(spans) && Contiguous(spans, ParagraphKey)
  }

  lemma OneMoreParagraph(front: seq<Span>, last: seq<Span>, chapter: nat, p: nat)
    requires WellNumbered(front, chapter, p) && forall n | 0 <= n < |last| :: HasId(last[n], chapter, p + 1, n)
    ensures WellNumbered(front + last, chapter, p + 1)
  {
    var all := front + last;
    forall i | |front| <= i < |all|
      ensures HasId(all[i], chapter, p + 1, i - |front|) && ParagraphKey(all[i].id) == Digits(p + 1)
      ensures FromUpTo(all[i], chapter, p + 1)
    {
      SpanIdIsRead(chapter, p + 1, i - |front|);
      assert HasId(all[i], chapter, p + 1, i - |front|);
    }
    forall i | 0 <= i < |front|
      ensures ParagraphKey(all[i].id) != Digits(p + 1) && FromUpTo(all[i], chapter, p + 1)
    {
      assert FromUpTo(front[i], chapter, p);
      var q: nat, n: nat :| q <= p && HasId(front[i], chapter, q, n);
      SpanIdIsRead(chapter, q, n);
      if Digits(q) == Digits(p + 1) {
        DigitsAreInjective(q, p + 1);
      }
      assert HasId(all[i], chapter, q, n);
    }
    NewKeyFollows(front, last, Digits(p + 1));
    forall i, j | 0 <= i < j < |all|
      ensures all[i].id != all[j].id
    {
      if i >= |front| && all[i].id == all[j].id {
        SpanIdsAreInjective(chapter, p + 1, i - |front|, p + 1, j - |front|);
      }
    }
  }

  /** Spans with a new key after spans without it. */
  lemma NewKeyFollows(front: seq<Span>, last: seq<Span>, key: string)
    requires Contiguous(front, ParagraphKey)
    requires forall i | 0 <= i < |front| :: ParagraphKey((front + last)[i].id) != key
    requires forall i | |front| <= i < |front + last| :: ParagraphKey((front + last)[i].id) == key
    ensures Contiguous(front + last, ParagraphKey)
  {
    var all := front + last;
    assert forall i | 0 <= i < |front| :: all[i] == front[i];
  }

  lemma {:induction false} ParagraphsAreNumbered(paragraphs: seq<Paragraph>, chapter: nat)
    requires Ingested(paragraphs, chapter)
    ensures WellNumbered(Chunker.SpansOf(paragraphs), chapter, |paragraphs|)
  {
    if paragraphs == [] {
      assert Chunker.SpansOf(paragraphs) == [];
    } else {
      var n := |paragraphs| - 1;
      ParagraphsAreNumbered(paragraphs[..n], chapter);
      OneMoreParagraph(Chunker.SpansOf(paragraphs[..n]), paragraphs[n].spans, chapter, n);
      FrontAndLast(paragraphs);
      Chunker.SpansOfConcat(paragraphs[..n], [paragraphs[n]]);
      Chunker.SpansOfOne(paragraphs[n]);
    }
  }

  lemma {:induction false} ChunkIsPart(chunks: seq<Chunk>, c: nat) returns (from: nat, to: nat)
    requires c < |chunks|
    ensures from <= to <= |Chunker.AllSpans(chunks)| && Chunker.AllSpans(chunks)[from..to] == chunks[c].spans
  {
    var n := |chunks| - 1;
    FrontAndLast(chunks);
    Chunker.AllSpansSnoc(chunks[..n], chunks[n]);
    var front := Chunker.AllSpans(chunks[..n]);
    if c < n {
      from, to := ChunkIsPart(chunks[..n], c);
      assert (front + chunks[n].spans)[from..to] == front[from..to];
    } else {
      from, to := |front|, |front| + |chunks[n].spans|;
    }
  }

  /** Every chunk that the chunker makes of an ingested chapter has unique span ids, and no paragraph key comes back in
      it: whatever the analyzers ask of a chunk's ids holds. */
  lemma ChunksAreWellFormed(chapter: Chapter, index: nat, chunks: seq<Chunk>, c: nat)
    requires Ingested(chapter.paragraphs, index) && Chunker.AllSpans(chunks) == Chunker.SpansOf(chapter.paragraphs)
    requires c < |chunks|
    ensures UniqueIds(chunks[c].spans) && Contiguous(chunks[c].spans, ParagraphKey)
  {
    var all := Chunker.SpansOf(chapter.paragraphs);
    ParagraphsAreNumbered(chapter.paragraphs, index);
    var from, to := ChunkIsPart(chunks, c);
    ContiguousPart(all, ParagraphKey, from, to);
    assert forall i | 0 <= i < |all[from..to]| :: all[from..to][i] == all[from + i];
  }

  function QuoteOf(paragraph: nat, n: nat): Span {
    Span(SpanId(1, paragraph, n), Quote, "")
  }

  lemma ThreeIds()
    ensures
      var x, y, z := SpanId(1, 1, 0), SpanId(1, 2, 0), SpanId(1, 1, 1);
      x != y && x != z && y != z && ParagraphKey(x) == ParagraphKey(z) != ParagraphKey(y)
  {
    SpanIdIsRead(1, 1, 0);
    SpanIdIsRead(1, 2, 0);
    SpanIdIsRead(1, 1, 1);
    if Digits(1) == Digits(2) {
      DigitsAreInjective(1, 2);
    }
    if SpanId(1, 1, 0) == SpanId(1, 1, 1) {
      SpanIdsAreInjective(1, 1, 0, 1, 1);
    }
  }

  /** Quotes c1p1s0, c1p2s0 and c1p1s1, in this order: grouping by paragraph moves the third one up. */
  lemma ReturningQuoteIsReordered(a: Span, b: Span, c: Span)
    requires a == QuoteOf(1, 0) && b == QuoteOf(2, 0) && c == QuoteOf(1, 1)
    ensures UniqueIds([a, b, c])
    ensures QuoteIds([a, b, c]) == [a.id, b.id, c.id]
    ensures QuoteIds(Flatten(ByKey([a, b, c], ParagraphKey))) == [a.id, c.id, b.id] != [a.id, b.id, c.id]
  {
    ThreeIds();
    QuoteOrder.ReturningQuoteMovesUp(a, b, c, ParagraphKey);
  }
}
