/** The book's data, as ingest produces it and the analyzer reads it. */
module Book {
  import opened Common

  const NARRATOR := "NARRATOR"

  /** An intensity or an energy: a number between 0 and 1, counted in steps of 10^-18.  Nothing is computed with levels;
      they are compared, clamped and passed on. */
  type Level = int

  const FULL: Level := 1_000_000_000_000_000_000

  datatype SpanKind = Narration | Quote

  datatype Span = Span(id: string, kind: SpanKind, text: string)

  datatype Paragraph = Paragraph(index: int, text: string, sceneBreakBefore: bool, spans: seq<Span>)

  datatype Chapter = Chapter(index: int, title: string, paragraphs: seq<Paragraph>)

  datatype Chunk = Chunk(
    chapterIndex: int,
    chunkIndex: int,
    paragraphStart: int,
    paragraphEnd: int,
    spans: seq<Span>,
    contextBefore: string,
    priorMood: string,
    sceneBreakParagraphs: seq<int>,
    priorSpeakers: seq<string>)

  datatype Label = Label(spanId: string, speaker: string, emotion: string, delivery: string)

  datatype SfxKind = Impact | Ambient

  datatype SfxCueRaw = SfxCueRaw(
    spanId: string, anchorText: string, description: string, kind: SfxKind, durationS: real, intensity: Level)

  datatype MusicAction = Start | Change | Stop

  datatype MusicCueRaw = MusicCueRaw(spanId: string, action: MusicAction, mood: string, energy: Level, prompt: string)

  // The chapter script: one segment for each span, placed sound effects and music regions.

  datatype Segment = Segment(
    id: string, paragraph: int, speaker: string, isNarration: bool, text: string, emotion: string, delivery: string,
    sceneBreakBefore: bool)

  datatype SfxCue = SfxCue(
    id: string, spanId: string, anchorText: string, anchorOffset: nat, description: string, kind: SfxKind,
    durationMs: nat, intensity: Level, endSpanId: Option<string>)

  datatype MusicCue = MusicCue(
    id: string, startSpanId: string, endSpanId: string, mood: string, energy: Level, prompt: string)

  datatype Script = Script(segments: seq<Segment>, sfx: seq<SfxCue>, music: seq<MusicCue>)

  function SpanIds(spans: seq<Span>): (ids: seq<string>)
    ensures |ids| == |spans| && forall i | 0 <= i < |spans| :: ids[i] == spans[i].id
  {
    seq(|spans|, i requires 0 <= i < |spans| => spans[i].id)
  }

  /** Ids of the quote spans, in span order. */
  function QuoteIds(spans: seq<Span>): seq<string> {
    if spans == [] then [] else (if spans[0].kind == Quote then [spans[0].id] else []) + QuoteIds(spans[1..])
  }

  lemma {:induction false} QuoteIdsConcat(a: seq<Span>, b: seq<Span>)
    ensures QuoteIds(a + b) == QuoteIds(a) + QuoteIds(b)
  {
    if a == [] {
      assert a + b == b;
    } else {
      QuoteIdsConcat(a[1..], b);
      assert (a + b)[1..] == a[1..] + b && (a + b)[0] == a[0];
      var own := if a[0].kind == Quote then [a[0].id] else [];
      assert own + (QuoteIds(a[1..]) + QuoteIds(b)) == (own + QuoteIds(a[1..])) + QuoteIds(b);
    }
  }

  lemma {:induction false} QuoteIdsMembers(spans: seq<Span>)
    ensures forall id :: id in QuoteIds(spans) <==> exists i | 0 <= i < |spans| :: spans[i].kind == Quote && spans[i].id == id
  {
    if spans != [] {
      QuoteIdsMembers(spans[1..]);
      forall id
        ensures id in QuoteIds(spans) <==> exists i | 0 <= i < |spans| :: spans[i].kind == Quote && spans[i].id == id
      {
        if i :| 0 <= i < |spans| && spans[i].kind == Quote && spans[i].id == id {
          assert i > 0 ==> spans[1..][i - 1] == spans[i];
        }
        if id in QuoteIds(spans[1..]) {
          var i :| 0 <= i < |spans[1..]| && spans[1..][i].kind == Quote && spans[1..][i].id == id;
          assert spans[i + 1] == spans[1..][i];
        }
      }
    }
  }

  /** The ids name each quote of `spans` exactly once, in any order. */
  ghost predicate NamesEachQuoteOnce(ids: seq<string>, spans: seq<Span>) {
    && (forall i, j | 0 <= i < j < |ids| :: ids[i] != ids[j])
    && forall id :: id in ids <==> id in QuoteIds(spans)
  }

  ghost predicate UniqueIds(spans: seq<Span>) {
    forall i, j | 0 <= i < j < |spans| :: spans[i].id != spans[j].id
  }

  function LabelIds(labels: seq<Label>): (ids: seq<string>)
    ensures |ids| == |labels| && forall i | 0 <= i < |labels| :: ids[i] == labels[i].spanId
  {
    seq(|labels|, i requires 0 <= i < |labels| => labels[i].spanId)
  }
}
