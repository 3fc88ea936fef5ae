/** Splitting a paragraph into narration and quote spans (`split_spans`).  The cut positions come from the
    quote marks of the book's style; the spans are verbatim slices of the original text. */
module Spans {
  import opened Common
  import opened Book
  import opened Text

  datatype Style = Double | Single | Guillemet | Dash

  const DOUBLE_MARKS: string := "\"\U{201C}\U{201D}\U{201E}\U{201F}"
  const SINGLE_MARKS: string := "'\U{2018}\U{2019}\U{201A}\U{201B}"
  const GUILLEMET_MARKS: string := "\U{AB}\U{BB}\U{2039}\U{203A}"
  const SINGLE_OPEN_BEFORE: string := " \t\n([{\U{2014}\U{2013}-\"\U{201C}"
  const SINGLE_CLOSE_AFTER: string := " \t\n.,;:!?)]}\"\U{201D}\U{2014}\U{2013}-"

  /** A cut of the paragraph, before stripping. */
  datatype Piece = Piece(kind: SpanKind, start: nat, end: nat)

  /** A finished span; `number` is the n of its id `c..p..s<n>`. */
  datatype TextSpan = TextSpan(number: nat, kind: SpanKind, text: string, start: nat, end: nat)

  /** What the regexes and character classes answer; the proofs hold for any answers. */
  datatype Heuristics = Heuristics(
    isAlpha: char -> bool,
    isLower: char -> bool,
    sentenceEnd: string -> Option<nat>,   // end of the first sentence boundary that ends a speech
    tagStart: string -> Option<nat>)      // start of the first speech tag

  ghost predicate ValidMatches(h: Heuristics) {
    forall piece: string ::
      && (h.sentenceEnd(piece).Some? ==> h.sentenceEnd(piece).value <= |piece|)
      && (h.tagStart(piece).Some? ==> h.tagStart(piece).value <= |piece|)
  }

  // ----------------------------------------------------------------- tiling

  ghost predicate Inside(pieces: seq<Piece>, i: int) {
    exists k | 0 <= k < |pieces| :: pieces[k].start <= i < pieces[k].end
  }

  /** Pieces in order, and, up to `upto`, every non-space character is in a piece unless it is a mark. */
  ghost predicate Tiles(text: string, pieces: seq<Piece>, marks: set<nat>, upto: nat) {
    && upto <= |text|
    && (forall k | 0 <= k < |pieces| :: pieces[k].start <= pieces[k].end <= upto)
    && (forall k, l | 0 <= k < l < |pieces| :: pieces[k].end <= pieces[l].start)
    && (forall i: nat | i < upto && !IsSpace(text[i]) :: Inside(pieces, i) <==> i !in marks)
  }

  /** Appending a piece that starts after some skipped characters, all of them marks or whitespace. */
  lemma AddPiece(text: string, pieces: seq<Piece>, marks: set<nat>, upto: nat, piece: Piece)
    requires Tiles(text, pieces, marks, upto) && upto <= piece.start <= piece.end <= |text|
    requires forall i | upto <= i < piece.start && !IsSpace(text[i]) :: i in marks
    requires forall i | piece.start <= i < piece.end :: i !in marks
    ensures Tiles(text, pieces + [piece], marks, piece.end)
  {
    var more := pieces + [piece];
    forall i: nat | i < piece.end && !IsSpace(text[i])
      ensures Inside(more, i) <==> i !in marks
    {
      if Inside(pieces, i) {
        var k :| 0 <= k < |pieces| && pieces[k].start <= i < pieces[k].end;
        assert more[k].start <= i < more[k].end;
      }
      if piece.start <= i {
        assert more[|pieces|].start <= i < more[|pieces|].end;
      }
    }
  }

  // ----------------------------------------------------------------- alternating styles

  ghost predicate Increasing(marks: seq<nat>, n: nat) {
    && (forall k, l | 0 <= k < l < |marks| :: marks[k] < marks[l])
    && (forall k | 0 <= k < |marks| :: marks[k] < n)
  }

  ghost function Elements(marks: seq<nat>): set<nat> {
    set k | 0 <= k < |marks| :: marks[k]
  }

  function KindAfter(marks: nat): SpanKind {
    if marks % 2 == 0 then Narration else Quote
  }

  /** The piece between mark k-1 and mark k (or the paragraph's ends). */
  function Between(text: string, marks: seq<nat>, k: nat): (p: Piece)
    requires Increasing(marks, |text|) && k <= |marks|
    ensures p.start <= p.end <= |text|
  {
    Piece(KindAfter(k), if k == 0 then 0 else marks[k - 1] + 1, if k == |marks| then |text| else marks[k])
  }

  lemma AddBetween(text: string, pieces: seq<Piece>, marks: seq<nat>, k: nat)
    requires Increasing(marks, |text|) && k <= |marks|
    requires Tiles(text, pieces, Elements(marks), if k == 0 then 0 else marks[k - 1])
    ensures Tiles(text, pieces + [Between(text, marks, k)], Elements(marks), Between(text, marks, k).end)
  {
    var p := Between(text, marks, k);
    if k > 0 {
      assert marks[k - 1] in Elements(marks);
    }
    forall i | p.start <= i < p.end
      ensures i !in Elements(marks)
    {
    }
    AddPiece(text, pieces, Elements(marks), if k == 0 then 0 else marks[k - 1], p);
  }

  /** Narration first, or speech first when the paragraph opens with a dash (`opening` = 1). */
  ghost predicate KindsAlternate(pieces: seq<Piece>, opening: nat) {
    forall k | 0 <= k < |pieces| :: pieces[k].kind == KindAfter(k + opening)
  }

  /** `_alternating_pieces`: one piece between any two neighbouring marks, kinds alternating. */
  method AlternatingPieces(text: string, marks: seq<nat>) returns (pieces: seq<Piece>)
    requires Increasing(marks, |text|)
    ensures Tiles(text, pieces, Elements(marks), |text|)
    ensures |pieces| == |marks| + 1 && KindsAlternate(pieces, 0)
    ensures forall k | 0 <= k < |pieces| :: pieces[k] == Between(text, marks, k)
  {
    pieces := [];
    var pos: nat, kind := 0, Narration;
    for k := 0 to |marks|
      invariant |pieces| == k && kind == KindAfter(k) && pos == (if k == 0 then 0 else marks[k - 1] + 1)
      invariant Tiles(text, pieces, Elements(marks), if k == 0 then 0 else marks[k - 1])
      invariant forall j | 0 <= j < k :: pieces[j] == Between(text, marks, j)
    {
      AddBetween(text, pieces, marks, k);
      pieces := pieces + [Piece(kind, pos, marks[k])];
      pos := marks[k] + 1;
      kind := if kind == Narration then Quote else Narration;
    }
    AddBetween(text, pieces, marks, |marks|);
    assert Between(text, marks, |marks|) == Piece(kind, pos, |text|);
    pieces := pieces + [Piece(kind, pos, |text|)];
  }

  function Normalized(text: string, marks: string, straight: char): (r: string)
    ensures |r| == |text| && forall i | 0 <= i < |text| :: r[i] == if text[i] in marks then straight else text[i]
  {
    seq(|text|, i requires 0 <= i < |text| => if text[i] in marks then straight else text[i])
  }

  /** Positions of `c` from `i` on (`_double_boundaries`, `_guillemet_boundaries`). */
  function Positions(norm: string, c: char, i: nat): (marks: seq<nat>)
    requires i <= |norm|
    ensures Increasing(marks, |norm|)
    ensures forall k | 0 <= k < |marks| :: i <= marks[k] < |norm| && norm[marks[k]] == c
    ensures forall j | i <= j < |norm| && norm[j] == c :: j in marks
    decreases |norm| - i
  {
    if i == |norm| then []
    else if norm[i] == c then [i] + Positions(norm, c, i + 1)
    else Positions(norm, c, i + 1)
  }

  // ----------------------------------------------------------------- single quotes

  function Before(norm: string, i: nat): char {
    if 0 < i <= |norm| then norm[i - 1] else ' '
  }

  function AfterChar(norm: string, i: nat): char {
    if i + 1 < |norm| then norm[i + 1] else ' '
  }

  predicate Opens(norm: string, i: nat) {
    Before(norm, i) in SINGLE_OPEN_BEFORE
  }

  predicate Closes(norm: string, i: nat) {
    AfterChar(norm, i) in SINGLE_CLOSE_AFTER
  }

  /** Reads like "boys' room": a letter before, a space and a lower-case letter after. */
  predicate Elides(norm: string, i: nat, h: Heuristics) {
    h.isAlpha(Before(norm, i)) && AfterChar(norm, i) == ' ' && i + 2 < |norm| && h.isLower(norm[i + 2])
  }

  /** `_later_closer`. */
  method LaterCloserLoop(norm: string, positions: seq<nat>) returns (found: bool)
    ensures found == LaterCloser(norm, positions)
  {
    for n := 0 to |positions|
      invariant LaterCloser(norm, positions) == LaterCloser(norm, positions[n..])
    {
      var j := positions[n];
      assert positions[n..][0] == j && positions[n..][1..] == positions[n + 1..];
      if Opens(norm, j) {
        return false;
      }
      if Closes(norm, j) {
        return true;
      }
    }
    return false;
  }

  predicate LaterCloser(norm: string, positions: seq<nat>) {
    positions != [] && !Opens(norm, positions[0]) && (Closes(norm, positions[0]) || LaterCloser(norm, positions[1..]))
  }

  /** The marks recorded at the given apostrophes, starting inside or outside a quote. */
  function Recorded(norm: string, positions: seq<nat>, open: bool, h: Heuristics): seq<nat> {
    if positions == [] then []
    else
      var i, rest := positions[0], positions[1..];
      if !open && Opens(norm, i) then [i] + Recorded(norm, rest, true, h)
      else if open && Closes(norm, i) && !(Elides(norm, i, h) && LaterCloser(norm, rest)) then
        [i] + Recorded(norm, rest, false, h)
      else Recorded(norm, rest, open, h)
  }

  /** Whether a quote is open after the first apostrophe. */
  function OpenAfter(norm: string, positions: seq<nat>, open: bool, h: Heuristics): bool
    requires positions != []
  {
    var i, rest := positions[0], positions[1..];
    if open then !(Closes(norm, i) && !(Elides(norm, i, h) && LaterCloser(norm, rest))) else Opens(norm, i)
  }

  lemma RecordedStep(norm: string, positions: seq<nat>, n: nat, open: bool, h: Heuristics)
    requires n < |positions|
    ensures
      var rest, open' := positions[n + 1..], OpenAfter(norm, positions[n..], open, h);
      Recorded(norm, positions[n..], open, h) ==
        (if open' != open then [positions[n]] else []) + Recorded(norm, rest, open', h)
    ensures OpenAfter(norm, positions[n..], open, h) ==
      if open
      then !(Closes(norm, positions[n]) && !(Elides(norm, positions[n], h) && LaterCloser(norm, positions[n + 1..])))
      else Opens(norm, positions[n])
  {
    SuffixStep(positions, n);
    AppendNothing(Recorded(norm, positions[n + 1..], open, h));
  }

  /** `_single_boundaries`. */
  method SingleBoundaries(norm: string, h: Heuristics) returns (marks: seq<nat>)
    ensures marks == Recorded(norm, Positions(norm, '\'', 0), false, h)
  {
    marks := [];
    var open := false;
    var positions := Positions(norm, '\'', 0);
    for n := 0 to |positions|
      invariant marks + Recorded(norm, positions[n..], open, h) == Recorded(norm, positions, false, h)
    {
      var i := positions[n];
      RecordedStep(norm, positions, n, open, h);
      ConcatAssoc(marks, [i], Recorded(norm, positions[n + 1..], !open, h));
      if !open && Opens(norm, i) {
        marks := marks + [i];
        open := true;
      } else if open && Closes(norm, i) {
        if Elides(norm, i, h) {
          var later := LaterCloserLoop(norm, positions[n + 1..]);
          if later {
            continue;
          }
        }
        marks := marks + [i];
        open := false;
      }
    }
  }

  ghost predicate Sorted(xs: seq<nat>) {
    forall k, l | 0 <= k < l < |xs| :: xs[k] < xs[l]
  }

  lemma {:induction false} RecordedMembers(norm: string, positions: seq<nat>, open: bool, h: Heuristics)
    ensures forall m | m in Recorded(norm, positions, open, h) :: m in positions
  {
    if positions != [] {
      RecordedMembers(norm, positions[1..], OpenAfter(norm, positions, open, h), h);
    }
  }

  lemma SortedCons(x: nat, xs: seq<nat>)
    requires Sorted(xs) && forall m | m in xs :: x < m
    ensures Sorted([x] + xs)
  {
    var ys := [x] + xs;
    forall k, l | 0 <= k < l < |ys|
      ensures ys[k] < ys[l]
    {
      assert ys[l] == xs[l - 1] && ys[l] in xs;
    }
  }

  lemma {:induction false} RecordedIsSubsequence(norm: string, positions: seq<nat>, open: bool, h: Heuristics)
    requires Sorted(positions)
    ensures Sorted(Recorded(norm, positions, open, h))
    ensures forall m | m in Recorded(norm, positions, open, h) :: m in positions
  {
    RecordedMembers(norm, positions, open, h);
    if positions != [] {
      var rest, open' := positions[1..], OpenAfter(norm, positions, open, h);
      RecordedIsSubsequence(norm, rest, open', h);
      if open' != open {
        SortedCons(positions[0], Recorded(norm, rest, open', h));
      }
    }
  }

  lemma RecordedIncrease(norm: string, h: Heuristics)
    ensures Increasing(Recorded(norm, Positions(norm, '\'', 0), false, h), |norm|)
  {
    var marks := Recorded(norm, Positions(norm, '\'', 0), false, h);
    RecordedIsSubsequence(norm, Positions(norm, '\'', 0), false, h);
    forall k | 0 <= k < |marks|
      ensures marks[k] < |norm|
    {
      assert marks[k] in marks;
    }
  }

  /** The first apostrophe is recorded exactly if it opens or closes a quote. */
  lemma RecordedHead(norm: string, positions: seq<nat>, open: bool, h: Heuristics)
    requires positions != []
    ensures
      var open' := OpenAfter(norm, positions, open, h);
      && Recorded(norm, positions, open, h) ==
           (if open' != open then [positions[0]] else []) + Recorded(norm, positions[1..], open', h)
      && (open' != open ==> if open then Closes(norm, positions[0]) else Opens(norm, positions[0]))
  {
    AppendNothing(Recorded(norm, positions[1..], open, h));
  }

  /** Mark `k` of a text that starts inside or outside a quote can close a quote, or can open one. */
  predicate StandsRight(norm: string, m: nat, open: bool, k: nat) {
    if (k % 2 == 0) == open then Closes(norm, m) else Opens(norm, m)
  }

  lemma StandsRightAfter(norm: string, m: nat, open: bool, k: nat)
    requires k > 0
    ensures StandsRight(norm, m, open, k) <==> StandsRight(norm, m, !open, k - 1)
  {
  }

  /** Marks alternate: openers stand where a quote can open, closers where it can close. */
  lemma {:induction false} MarksAlternate(norm: string, positions: seq<nat>, open: bool, h: Heuristics, k: nat)
    requires k < |Recorded(norm, positions, open, h)|
    ensures StandsRight(norm, Recorded(norm, positions, open, h)[k], open, k)
  {
    var open' := OpenAfter(norm, positions, open, h);
    RecordedHead(norm, positions, open, h);
    var rest := Recorded(norm, positions[1..], open', h);
    if open' == open {
      AppendNothing(rest);
      MarksAlternate(norm, positions[1..], open, h, k);
    } else if k > 0 {
      MarksAlternate(norm, positions[1..], open', h, k - 1);
      StandsRightAfter(norm, rest[k - 1], open, k);
    }
  }

  /** A closer that is passed over leaves the quote open only until a later closer is recorded. */
  lemma {:induction false} SkippedCloserIsMadeUpFor(norm: string, positions: seq<nat>, h: Heuristics)
    requires LaterCloser(norm, positions)
    ensures Recorded(norm, positions, true, h) != []
  {
    if !Closes(norm, positions[0]) || (Elides(norm, positions[0], h) && LaterCloser(norm, positions[1..])) {
      SkippedCloserIsMadeUpFor(norm, positions[1..], h);
    }
  }

  /** A quote that stays open to the end of the paragraph contains no apostrophe that could close it: if
      no mark is recorded from inside a quote, no remaining apostrophe qualifies as a closer. */
  lemma {:induction false} OpenQuoteHasNoCloser(norm: string, positions: seq<nat>, h: Heuristics)
    requires Recorded(norm, positions, true, h) == []
    ensures forall i | i in positions :: !Closes(norm, i)
  {
    if positions != [] {
      var rest := positions[1..];
      if Closes(norm, positions[0]) {
        SkippedCloserIsMadeUpFor(norm, rest, h);
      }
      OpenQuoteHasNoCloser(norm, rest, h);
    }
  }

  lemma UnclosedStep(norm: string, positions: seq<nat>, open: bool, h: Heuristics)
    requires Recorded(norm, positions, open, h) != []
    ensures
      var marks, open' := Recorded(norm, positions, open, h), OpenAfter(norm, positions, open, h);
      var marks' := Recorded(norm, positions[1..], open', h);
      && ((|marks| % 2 == 0) == open ==> (|marks'| % 2 == 0) == open')
      && (marks' != [] ==> marks'[|marks'| - 1] == marks[|marks| - 1])
  {
    RecordedHead(norm, positions, open, h);
  }

  /** The same for a whole paragraph: an odd number of marks means that no apostrophe after the last mark
      could have closed the quote. */
  lemma {:induction false} UnclosedQuoteHasNoCloser(norm: string, positions: seq<nat>, open: bool, h: Heuristics, i: nat)
    requires Sorted(positions) && i in positions
    requires (|Recorded(norm, positions, open, h)| % 2 == 0) == open
    requires
      var marks := Recorded(norm, positions, open, h);
      marks != [] ==> i > marks[|marks| - 1]
    ensures !Closes(norm, i)
  {
    var marks := Recorded(norm, positions, open, h);
    if marks == [] {
      OpenQuoteHasNoCloser(norm, positions, h);
    } else {
      UnclosedStep(norm, positions, open, h);
      RecordedMembers(norm, positions, open, h);
      LastRecordedIsLater(positions, marks);
      assert i in positions[1..];
      UnclosedQuoteHasNoCloser(norm, positions[1..], OpenAfter(norm, positions, open, h), h, i);
    }
  }

  lemma LastRecordedIsLater(positions: seq<nat>, marks: seq<nat>)
    requires Sorted(positions) && marks != [] && forall m | m in marks :: m in positions
    ensures positions != [] && positions[0] <= marks[|marks| - 1]
  {
    assert marks[|marks| - 1] in positions;
    var k :| 0 <= k < |positions| && positions[k] == marks[|marks| - 1];
  }

  // ----------------------------------------------------------------- dashes

  /** Length of the dash at `i`: an em dash, an en dash or two hyphens; 0 when there is none. */
  function DashLength(text: string, i: nat): (n: nat)
    ensures n <= 2 && (n > 0 ==> i + n <= |text| && forall j | i <= j < i + n :: text[j] in "\U{2014}\U{2013}-")
  {
    if i < |text| && text[i] in "\U{2014}\U{2013}" then 1
    else if i + 1 < |text| && text[i] == '-' && text[i + 1] == '-' then 2
    else 0
  }

  /** Length of a separator match at `i`: a dash with whitespace on both sides. */
  function SeparatorLength(text: string, i: nat): (n: nat)
    ensures n <= 2 && (n > 0 ==> i + n <= |text|)
  {
    var n := DashLength(text, i);
    if n > 0 && i > 0 && IsSpace(text[i - 1]) && i + n < |text| && IsSpace(text[i + n]) then n else 0
  }

  /** The separator matches from `i` on, leftmost first, without overlap. */
  function Separators(text: string, i: nat): (seps: seq<(nat, nat)>)
    ensures forall k | 0 <= k < |seps| :: i <= seps[k].0 < seps[k].1 <= |text|
    ensures forall k, l | 0 <= k < l < |seps| :: seps[k].1 <= seps[l].0
    decreases |text| - i
  {
    if i >= |text| then []
    else
      var n := SeparatorLength(text, i);
      if n > 0 then [(i, i + n)] + Separators(text, i + n) else Separators(text, i + 1)
  }

  /** Positions of the dashes that cut the paragraph: the opening one and the separators. */
  ghost function DashMarks(text: string): (marks: set<nat>)
    ensures forall i: nat :: i in marks <==> IsDashMark(text, i)
  {
    var lead, n := Lead(text), DashLength(text, Lead(text));
    if n == 0 then {}
    else
      var marks := MarksFrom(lead, lead + n, Separators(text, lead + n));
      assert forall i: nat :: i in marks <==> IsDashMark(text, i) by {
        forall i: nat
          ensures i in marks <==> IsDashMark(text, i)
        {
          MarksFromAre(lead, lead + n, Separators(text, lead + n), i);
        }
      }
      marks
  }

  /** Position `i` is in the opening dash or in a separator after it. */
  ghost predicate IsDashMark(text: string, i: nat) {
    var lead, n := Lead(text), DashLength(text, Lead(text));
    n > 0 && (lead <= i < lead + n || InMatch(Separators(text, lead + n), i))
  }

  /** The opening dash and the separators. */
  ghost function MarksFrom(lead: nat, first: nat, seps: seq<(nat, nat)>): set<nat>
    requires lead <= first && forall k | 0 <= k < |seps| :: seps[k].0 <= seps[k].1
  {
    Range(lead, first) + SeparatorMarks(seps)
  }

  lemma MarksFromAre(lead: nat, first: nat, seps: seq<(nat, nat)>, i: nat)
    requires lead <= first && forall k | 0 <= k < |seps| :: seps[k].0 <= seps[k].1
    ensures i in MarksFrom(lead, first, seps) <==> lead <= i < first || InMatch(seps, i)
  {
  }

  ghost function Range(a: nat, b: nat): (r: set<nat>)
    requires a <= b
    ensures forall i :: i in r <==> a <= i < b
    decreases b - a
  {
    if a == b then {} else {a} + Range(a + 1, b)
  }

  ghost predicate InMatch(seps: seq<(nat, nat)>, i: int) {
    exists k | 0 <= k < |seps| :: seps[k].0 <= i < seps[k].1
  }

  ghost function SeparatorMarks(seps: seq<(nat, nat)>): (r: set<nat>)
    requires forall k | 0 <= k < |seps| :: seps[k].0 <= seps[k].1
    ensures forall i :: i in r <==> InMatch(seps, i)
  {
    if seps == [] then {}
    else
      var r := Range(seps[0].0, seps[0].1) + SeparatorMarks(seps[1..]);
      assert forall i :: i in r <==> InMatch(seps, i) by {
        forall i
          ensures i in r <==> InMatch(seps, i)
        {
          if InMatch(seps[1..], i) {
            var k :| 0 <= k < |seps[1..]| && seps[1..][k].0 <= i < seps[1..][k].1;
            assert seps[k + 1].0 <= i < seps[k + 1].1;
          }
          if k :| 0 <= k < |seps| && seps[k].0 <= i < seps[k].1 {
            assert k > 0 ==> seps[1..][k - 1].0 <= i < seps[1..][k - 1].1;
          }
        }
      }
      r
  }

  /** `_dash_speech`: where a dashed speech ends and narration takes over, if it does. */
  function SpeechCut(piece: string, followedByDash: bool, h: Heuristics): (cut: Option<nat>)
    requires ValidMatches(h)
    ensures cut.Some? ==> cut.value <= |piece|
  {
    var sentence := if followedByDash then h.sentenceEnd(piece) else None;
    var tag := h.tagStart(piece);
    if tag.Some? && (sentence.None? || tag.value < sentence.value) then tag else sentence
  }

  method DashSpeech(text: string, start: nat, end: nat, followedByDash: bool, h: Heuristics) returns (pieces: seq<Piece>)
    requires start <= end <= |text| && ValidMatches(h)
    ensures pieces == [Piece(Quote, start, end)]
      || exists c: nat :: start <= c <= end && !Blank(text[start..c])
           && pieces == [Piece(Quote, start, c), Piece(Narration, c, end)]
  {
    var cut := SpeechCut(text[start..end], followedByDash, h);
    if cut.None? || Strip(text[start..end][..cut.value]) == "" {
      return [Piece(Quote, start, end)];
    }
    var c: nat := start + cut.value;
    assert text[start..end][..cut.value] == text[start..c];
    StripEmpty(text[start..c]);
    assert start <= c <= end && !Blank(text[start..c]);
    return [Piece(Quote, start, c), Piece(Narration, c, end)];
  }

  /** One part of a dashed paragraph, cut into one or two adjoining pieces from `start` to `end`. */
  ghost predicate IsPart(part: seq<Piece>, start: nat, end: nat) {
    || (|part| == 1 && part[0].start == start <= part[0].end == end)
    || (|part| == 2 && part[0].start == start <= part[0].end == part[1].start <= part[1].end == end)
  }

  lemma AddPart(text: string, pieces: seq<Piece>, marks: set<nat>, upto: nat, part: seq<Piece>, start: nat, end: nat)
    requires Tiles(text, pieces, marks, upto) && IsPart(part, start, end) && upto <= start && end <= |text|
    requires forall i | upto <= i < start && !IsSpace(text[i]) :: i in marks
    requires forall i | start <= i < end :: i !in marks
    ensures Tiles(text, pieces + part, marks, end)
  {
    AddPiece(text, pieces, marks, upto, part[0]);
    if |part| == 1 {
      assert [part[0]] == part;
    } else {
      AddPiece(text, pieces + [part[0]], marks, part[0].end, part[1]);
      assert pieces + [part[0]] + [part[1]] == pieces + part;
    }
  }

  method DashPart(text: string, start: nat, end: nat, kind: SpanKind, followedByDash: bool, h: Heuristics)
    returns (part: seq<Piece>)
    requires start <= end <= |text| && ValidMatches(h)
    ensures IsPart(part, start, end) && part[0].kind == kind
    ensures |part| == 2 ==> kind == Quote && part[1].kind == Narration
  {
    if kind == Quote {
      part := DashSpeech(text, start, end, followedByDash, h);
    } else {
      part := [Piece(kind, start, end)];
    }
  }

  /** Start of part `k`: after the opening dash or after separator k-1. */
  function PartStart(seps: seq<(nat, nat)>, first: nat, k: nat): nat
    requires k <= |seps|
  {
    if k == 0 then first else seps[k - 1].1
  }

  function PartEnd(text: string, seps: seq<(nat, nat)>, k: nat): nat
    requires k <= |seps|
  {
    if k == |seps| then |text| else seps[k].0
  }

  /** Where the part before part `k` ended. */
  function PartFrom(text: string, seps: seq<(nat, nat)>, k: nat): nat
    requires k <= |seps|
  {
    if k == 0 then 0 else PartEnd(text, seps, k - 1)
  }

  /** No mark lies in [start, end), and only marks or whitespace between `from` and `start`. */
  ghost predicate PartOk(text: string, marks: set<nat>, from: nat, start: nat, end: nat) {
    && from <= start <= end <= |text|
    && (forall i | start <= i < end :: i !in marks)
    && (forall i | from <= i < start && !IsSpace(text[i]) :: i in marks)
  }

  /** Matches in order without overlap, from `first` on. */
  ghost predicate Apart(seps: seq<(nat, nat)>, first: nat, length: nat) {
    && first <= length && (forall k | 0 <= k < |seps| :: first <= seps[k].0 < seps[k].1 <= length)
    && (forall k, l | 0 <= k < l < |seps| :: seps[k].1 <= seps[l].0)
  }

  lemma PartInText(text: string, first: nat, seps: seq<(nat, nat)>, k: nat)
    requires Apart(seps, first, |text|) && k <= |seps|
    ensures first <= PartStart(seps, first, k) <= PartEnd(text, seps, k) <= |text|
  {
  }

  lemma MatchIsElsewhere(text: string, first: nat, seps: seq<(nat, nat)>, k: nat, m: nat)
    requires Apart(seps, first, |text|) && k <= |seps| && m < |seps|
    ensures m < k ==> seps[m].1 <= PartStart(seps, first, k)
    ensures m >= k ==> PartEnd(text, seps, k) <= seps[m].0
  {
  }

  /** No separator lies inside a part. */
  lemma PartAvoidsMatch(text: string, first: nat, seps: seq<(nat, nat)>, k: nat, i: nat)
    requires Apart(seps, first, |text|) && k <= |seps|
    requires PartStart(seps, first, k) <= i < PartEnd(text, seps, k)
    ensures !InMatch(seps, i)
  {
    forall m: nat | m < |seps|
      ensures !(seps[m].0 <= i < seps[m].1)
    {
      MatchIsElsewhere(text, first, seps, k, m);
    }
  }

  /** Between two parts there is nothing but the separator. */
  lemma GapIsMatch(text: string, seps: seq<(nat, nat)>, first: nat, k: nat, i: nat)
    requires 0 < k <= |seps| && PartEnd(text, seps, k - 1) <= i < PartStart(seps, first, k)
    ensures InMatch(seps, i)
  {
    assert seps[k - 1].0 <= i < seps[k - 1].1;
  }

  lemma DashMarksAre(text: string, first: nat, seps: seq<(nat, nat)>, i: nat)
    requires DashLength(text, Lead(text)) > 0 && first == Lead(text) + DashLength(text, Lead(text))
    requires seps == Separators(text, first)
    ensures i in DashMarks(text) <==> Lead(text) <= i < first || InMatch(seps, i)
  {
    assert i in DashMarks(text) <==> IsDashMark(text, i);
  }

  lemma PartAvoidsMarks(text: string, first: nat, seps: seq<(nat, nat)>, k: nat)
    requires DashLength(text, Lead(text)) > 0 && first == Lead(text) + DashLength(text, Lead(text))
    requires seps == Separators(text, first) && k <= |seps|
    ensures PartOk(text, DashMarks(text), PartFrom(text, seps, k), PartStart(seps, first, k), PartEnd(text, seps, k))
  {
    var start, end := PartStart(seps, first, k), PartEnd(text, seps, k);
    assert Apart(seps, first, |text|);
    PartInText(text, first, seps, k);
    forall i: nat | start <= i < end
      ensures i !in DashMarks(text)
    {
      DashMarksAre(text, first, seps, i);
      PartAvoidsMatch(text, first, seps, k, i);
    }
    if k > 0 {
      PartInText(text, first, seps, k - 1);
    }
    forall i: nat | PartFrom(text, seps, k) <= i < start && !IsSpace(text[i])
      ensures i in DashMarks(text)
    {
      DashMarksAre(text, first, seps, i);
      if k > 0 {
        GapIsMatch(text, seps, first, k, i);
      }
    }
  }

  /** The parts of a paragraph that opens with a dash, as (start, end). */
  function Parts(text: string, first: nat, seps: seq<(nat, nat)>): (parts: seq<(nat, nat)>)
    ensures |parts| == |seps| + 1
    ensures forall k | 0 <= k <= |seps| :: parts[k] == (PartStart(seps, first, k), PartEnd(text, seps, k))
  {
    seq(|seps| + 1, k requires 0 <= k <= |seps| => (PartStart(seps, first, k), PartEnd(text, seps, k)))
  }

  /** Parts up to the end of the text, apart by exactly the marks (and whitespace at the front). */
  ghost predicate CutByMarks(text: string, parts: seq<(nat, nat)>, marks: set<nat>) {
    && parts != [] && parts[|parts| - 1].1 == |text|
    && forall k | 0 <= k < |parts| ::
      PartOk(text, marks, if k == 0 then 0 else parts[k - 1].1, parts[k].0, parts[k].1)
  }

  lemma PartsAreCutByMarks(text: string, first: nat, seps: seq<(nat, nat)>, marks: set<nat>)
    requires forall k: nat | k <= |seps| ::
      PartOk(text, marks, PartFrom(text, seps, k), PartStart(seps, first, k), PartEnd(text, seps, k))
    ensures CutByMarks(text, Parts(text, first, seps), marks)
  {
    var parts := Parts(text, first, seps);
    forall k | 0 <= k < |parts|
      ensures PartOk(text, marks, if k == 0 then 0 else parts[k - 1].1, parts[k].0, parts[k].1)
    {
      assert PartOk(text, marks, PartFrom(text, seps, k), PartStart(seps, first, k), PartEnd(text, seps, k));
      assert k > 0 ==> parts[k - 1].1 == PartEnd(text, seps, k - 1);
    }
  }

  /** Kinds alternate from speech, and `kind` is the next one. */
  ghost predicate KindsSoFar(pieces: seq<Piece>, kind: SpanKind) {
    kind == KindAfter(|pieces| + 1) && forall j | 0 <= j < |pieces| :: pieces[j].kind == KindAfter(j + 1)
  }

  lemma KindsGrow(pieces: seq<Piece>, kind: SpanKind, part: seq<Piece>, start: nat, end: nat)
    requires KindsSoFar(pieces, kind) && IsPart(part, start, end) && part[0].kind == kind
    requires |part| == 2 ==> kind == Quote && part[1].kind == Narration
    ensures KindsSoFar(pieces + part, if (pieces + part)[|pieces + part| - 1].kind == Quote then Narration else Quote)
  {
  }

  method CutParts(text: string, parts: seq<(nat, nat)>, h: Heuristics, ghost marks: set<nat>) returns (pieces: seq<Piece>)
    requires ValidMatches(h) && CutByMarks(text, parts, marks)
    ensures Tiles(text, pieces, marks, |text|)
    ensures pieces != [] && KindsAlternate(pieces, 1)
  {
    var kind := Quote;
    pieces := [];
    for k := 0 to |parts|
      invariant Tiles(text, pieces, marks, if k == 0 then 0 else parts[k - 1].1)
      invariant k > 0 ==> pieces != []
      invariant KindsSoFar(pieces, kind)
    {
      var part := DashPart(text, parts[k].0, parts[k].1, kind, k + 1 < |parts|, h);
      AddPart(text, pieces, marks, if k == 0 then 0 else parts[k - 1].1, part, parts[k].0, parts[k].1);
      KindsGrow(pieces, kind, part, parts[k].0, parts[k].1);
      pieces := pieces + part;
      kind := if pieces[|pieces| - 1].kind == Quote then Narration else Quote;
    }
  }

  /** `_dash_pieces`. */
  method DashPieces(text: string, h: Heuristics) returns (pieces: seq<Piece>)
    requires ValidMatches(h)
    ensures Tiles(text, pieces, DashMarks(text), |text|)
    ensures DashLength(text, Lead(text)) == 0 ==> pieces == [Piece(Narration, 0, |text|)]
    ensures pieces != [] && KindsAlternate(pieces, if DashLength(text, Lead(text)) > 0 then 1 else 0)
  {
    if DashLength(text, Lead(text)) == 0 {
      AddPiece(text, [], DashMarks(text), 0, Piece(Narration, 0, |text|));
      return [Piece(Narration, 0, |text|)];
    }
    var first := Lead(text) + DashLength(text, Lead(text));
    var seps := Separators(text, first);
    forall k: nat | k <= |seps| {
      PartAvoidsMarks(text, first, seps, k);
    }
    PartsAreCutByMarks(text, first, seps, DashMarks(text));
    pieces := CutParts(text, Parts(text, first, seps), h, DashMarks(text));
  }

  // ----------------------------------------------------------------- spans

  /** The cutting marks of each style. */
  ghost function MarksOf(text: string, style: Style, h: Heuristics): set<nat> {
    match style
    case Double => set i | 0 <= i < |text| && text[i] in DOUBLE_MARKS
    case Guillemet => set i | 0 <= i < |text| && text[i] in GUILLEMET_MARKS
    case Single =>
      var norm := Normalized(text, SINGLE_MARKS, '\'');
      Elements(Recorded(norm, Positions(norm, '\'', 0), false, h))
    case Dash => DashMarks(text)
  }

  lemma PositionsAreMarks(text: string, marks: string, straight: char)
    requires straight in marks
    ensures Elements(Positions(Normalized(text, marks, straight), straight, 0)) == set i | 0 <= i < |text| && text[i] in marks
  {
    var norm := Normalized(text, marks, straight);
    var positions := Positions(norm, straight, 0);
    forall i: nat
      ensures i in Elements(positions) <==> i < |text| && text[i] in marks
    {
      if i < |text| && text[i] in marks {
        assert norm[i] == straight;
        assert i in positions;
      }
    }
  }

  /** The cutting marks of the three quote styles, in order. */
  method QuoteMarks(text: string, style: Style, h: Heuristics) returns (marks: seq<nat>)
    requires style != Dash
    ensures Increasing(marks, |text|) && Elements(marks) == MarksOf(text, style, h)
  {
    match style {
      case Double =>
        PositionsAreMarks(text, DOUBLE_MARKS, '"');
        marks := Positions(Normalized(text, DOUBLE_MARKS, '"'), '"', 0);
      case Guillemet =>
        PositionsAreMarks(text, GUILLEMET_MARKS, '\U{AB}');
        marks := Positions(Normalized(text, GUILLEMET_MARKS, '\U{AB}'), '\U{AB}', 0);
      case Single =>
        var norm := Normalized(text, SINGLE_MARKS, '\'');
        marks := SingleBoundaries(norm, h);
        RecordedIncrease(norm, h);
    }
  }

  /** `_pieces`. */
  method PiecesOf(text: string, style: Style, h: Heuristics) returns (pieces: seq<Piece>)
    requires ValidMatches(h)
    ensures Tiles(text, pieces, MarksOf(text, style, h), |text|)
    ensures KindsAlternate(pieces, if style == Dash && DashLength(text, Lead(text)) > 0 then 1 else 0)
  {
    if style == Dash {
      pieces := DashPieces(text, h);
    } else {
      var marks := QuoteMarks(text, style, h);
      pieces := AlternatingPieces(text, marks);
    }
  }

  ghost predicate InSpan(spans: seq<TextSpan>, i: int) {
    exists k | 0 <= k < |spans| :: spans[k].start <= i < spans[k].end
  }

  /** Ordered, non-empty, stripped verbatim slices, numbered from 0. */
  ghost predicate VerbatimSlices(text: string, spans: seq<TextSpan>) {
    && (forall k | 0 <= k < |spans| ::
         && spans[k].number == k && spans[k].start < spans[k].end <= |text|
         && spans[k].text == text[spans[k].start..spans[k].end]
         && !IsSpace(text[spans[k].start]) && !IsSpace(text[spans[k].end - 1]))
    && (forall k, l | 0 <= k < l < |spans| :: spans[k].end <= spans[l].start)
  }

  /** `text[start:end]`, which never fails. */
  function Slice(text: string, start: nat, end: nat): string {
    if start <= end <= |text| then text[start..end] else if start < |text| < end then text[start..] else ""
  }

  /** The stripped piece, as a span. */
  function Tightened(text: string, piece: Piece, number: nat): TextSpan {
    var slice := Slice(text, piece.start, piece.end);
    var start := piece.start + Lead(slice);
    TextSpan(number, piece.kind, Strip(slice), start, start + |Strip(slice)|)
  }

  /** A slice of a slice, by its place in the text. */
  lemma PlaceInText(text: string, a: nat, b: nat, lead: nat, t: string)
    requires a <= b <= |text| && lead + |t| <= b - a && t == text[a..b][lead..lead + |t|]
    ensures t == text[a + lead..a + lead + |t|]
    ensures t != "" ==> t[0] == text[a + lead] && t[|t| - 1] == text[a + lead + |t| - 1]
  {
    SliceOfSlice(text, a, b, lead, lead + |t|);
  }

  lemma TightenedFields(text: string, piece: Piece, number: nat)
    requires piece.start <= piece.end <= |text|
    ensures
      var slice, span := text[piece.start..piece.end], Tightened(text, piece, number);
      span.text == Strip(slice) && span.start == piece.start + Lead(slice) && span.end == span.start + |Strip(slice)|
  {
  }

  /** The stripped text `t` of a piece, found `lead` characters into it, as a verbatim slice of the whole text. */
  ghost predicate IsVerbatim(text: string, piece: Piece, span: TextSpan) {
    && piece.start <= span.start <= span.end <= piece.end <= |text| && span.text == text[span.start..span.end]
    && (span.text != "" ==> !IsSpace(text[span.start]) && !IsSpace(text[span.end - 1]))
  }

  lemma VerbatimFrom(text: string, piece: Piece, lead: nat, t: string, span: TextSpan)
    requires piece.start <= piece.end <= |text| && lead + |t| <= piece.end - piece.start
    requires t == text[piece.start..piece.end][lead..lead + |t|]
    requires t != "" ==> !IsSpace(t[0]) && !IsSpace(t[|t| - 1])
    requires span.text == t && span.start == piece.start + lead && span.end == span.start + |t|
    ensures IsVerbatim(text, piece, span)
  {
    PlaceInText(text, piece.start, piece.end, lead, t);
  }

  lemma TightenedBounds(text: string, piece: Piece, number: nat)
    requires piece.start <= piece.end <= |text|
    ensures IsVerbatim(text, piece, Tightened(text, piece, number))
  {
    TightenedFields(text, piece, number);
    BoundsOf(text, piece, text[piece.start..piece.end], Tightened(text, piece, number));
  }

  lemma BoundsOf(text: string, piece: Piece, slice: string, span: TextSpan)
    requires piece.start <= piece.end <= |text| && slice == text[piece.start..piece.end]
    requires span.text == Strip(slice) && span.start == piece.start + Lead(slice) && span.end == span.start + |Strip(slice)|
    ensures IsVerbatim(text, piece, span)
  {
    StrippedPlace(slice);
    VerbatimFrom(text, piece, Lead(slice), Strip(slice), span);
  }

  lemma StrippedPlace(s: string)
    ensures Lead(s) + |Strip(s)| <= |s| && Strip(s) == s[Lead(s)..Lead(s) + |Strip(s)|]
    ensures Strip(s) != "" ==> !IsSpace(Strip(s)[0]) && !IsSpace(Strip(s)[|Strip(s)| - 1])
  {
    StripPosition(s);
  }

  lemma SliceOfSlice(text: string, a: nat, b: nat, c: nat, d: nat)
    requires a <= b <= |text| && c <= d <= b - a
    ensures text[a..b][c..d] == text[a + c..a + d]
  {
    var left, right := text[a..b][c..d], text[a + c..a + d];
    assert |left| == |right| == d - c;
    forall k | 0 <= k < d - c
      ensures left[k] == right[k]
    {
      assert left[k] == text[a..b][c + k] == text[a + c + k];
    }
  }

  lemma CoversFrom(text: string, piece: Piece, lead: nat, n: nat, i: nat)
    requires piece.start <= i < piece.end <= |text| && !IsSpace(text[i]) && lead + n <= piece.end - piece.start
    requires var slice := text[piece.start..piece.end]; forall j | 0 <= j < lead :: IsSpace(slice[j])
    requires var slice := text[piece.start..piece.end]; forall j | lead + n <= j < |slice| :: IsSpace(slice[j])
    ensures piece.start + lead <= i < piece.start + lead + n
  {
    assert text[i] == text[piece.start..piece.end][i - piece.start];
  }

  lemma TightenedCovers(text: string, piece: Piece, number: nat, i: nat)
    requires piece.start <= i < piece.end <= |text| && !IsSpace(text[i])
    ensures var span := Tightened(text, piece, number); span.start <= i < span.end
  {
    var slice := text[piece.start..piece.end];
    StripSurroundings(slice);
    TightenedFields(text, piece, number);
    CoversFrom(text, piece, Lead(slice), |Strip(slice)|, i);
  }

  lemma TightenedSlice(text: string, piece: Piece, number: nat)
    requires piece.start <= piece.end <= |text|
    ensures
      var span := Tightened(text, piece, number);
      && piece.start <= span.start <= span.end <= piece.end && span.text == text[span.start..span.end]
      && (span.text != "" ==> !IsSpace(text[span.start]) && !IsSpace(text[span.end - 1]))
      && (forall i | piece.start <= i < piece.end && !IsSpace(text[i]) :: span.start <= i < span.end)
  {
    TightenedBounds(text, piece, number);
    forall i: nat | piece.start <= i < piece.end && !IsSpace(text[i])
      ensures var span := Tightened(text, piece, number); span.start <= i < span.end
    {
      TightenedCovers(text, piece, number, i);
    }
  }

  /** The spans of all pieces that are not blank, numbered from `number`. */
  function TightenAll(text: string, pieces: seq<Piece>, number: nat): seq<TextSpan> {
    if pieces == [] then []
    else if Tightened(text, pieces[0], number).text == "" then TightenAll(text, pieces[1..], number)
    else [Tightened(text, pieces[0], number)] + TightenAll(text, pieces[1..], number + 1)
  }

  /** `split_spans`.  Every non-space character of the paragraph is in exactly one span, except the marks of
      the style that cut it, which are in none.  The spans are the stripped pieces, whose kinds alternate from
      narration, or from speech after an opening dash. */
  method SplitSpans(text: string, style: Style, h: Heuristics) returns (spans: seq<TextSpan>, pieces: seq<Piece>)
    requires ValidMatches(h)
    ensures VerbatimSlices(text, spans)
    ensures forall i: nat | i < |text| && !IsSpace(text[i]) :: InSpan(spans, i) <==> i !in MarksOf(text, style, h)
    ensures Tiles(text, pieces, MarksOf(text, style, h), |text|) && spans == TightenAll(text, pieces, 0)
    ensures KindsAlternate(pieces, if style == Dash && DashLength(text, Lead(text)) > 0 then 1 else 0)
  {
    pieces := PiecesOf(text, style, h);
    spans := StripPieces(text, pieces, MarksOf(text, style, h));
  }

  /** The spans after one more piece: a blank piece gives none. */
  function AddSpan(text: string, spans: seq<TextSpan>, piece: Piece): seq<TextSpan> {
    var span := Tightened(text, piece, |spans|);
    if span.text == "" then spans else spans + [span]
  }

  function LastEnd(done: seq<Piece>): nat {
    if done == [] then 0 else done[|done| - 1].end
  }

  ghost predicate EndsBy(spans: seq<TextSpan>, end: nat) {
    forall j | 0 <= j < |spans| :: spans[j].end <= end
  }

  /** `spans` are what the pieces `done` give. */
  ghost predicate Stripped(text: string, done: seq<Piece>, spans: seq<TextSpan>) {
    && VerbatimSlices(text, spans)
    && EndsBy(spans, LastEnd(done))
    && SameChars(text, done, spans)
  }

  ghost predicate Follows(text: string, done: seq<Piece>, piece: Piece) {
    LastEnd(done) <= piece.start <= piece.end <= |text|
  }

  lemma VerbatimSnoc(text: string, spans: seq<TextSpan>, span: TextSpan)
    requires VerbatimSlices(text, spans) && forall j | 0 <= j < |spans| :: spans[j].end <= span.start
    requires span.number == |spans| && span.start < span.end <= |text| && span.text == text[span.start..span.end]
    requires !IsSpace(text[span.start]) && !IsSpace(text[span.end - 1])
    ensures VerbatimSlices(text, spans + [span])
  {
  }

  lemma AppendSlice(text: string, spans: seq<TextSpan>, piece: Piece)
    requires piece.start <= piece.end <= |text| && Tightened(text, piece, |spans|).text != ""
    requires VerbatimSlices(text, spans) && forall j | 0 <= j < |spans| :: spans[j].end <= piece.start
    ensures VerbatimSlices(text, AddSpan(text, spans, piece)) && Tightened(text, piece, |spans|).end <= piece.end
  {
    TightenedBounds(text, piece, |spans|);
    VerbatimSnoc(text, spans, Tightened(text, piece, |spans|));
  }

  lemma InsideSnoc(done: seq<Piece>, piece: Piece, i: int)
    ensures Inside(done + [piece], i) <==> Inside(done, i) || piece.start <= i < piece.end
  {
    var more := done + [piece];
    assert more[|done|] == piece;
    if Inside(done, i) {
      var j :| 0 <= j < |done| && done[j].start <= i < done[j].end;
      assert more[j].start <= i < more[j].end;
    }
    if Inside(more, i) {
      var j :| 0 <= j < |more| && more[j].start <= i < more[j].end;
      assert j < |done| ==> done[j].start <= i < done[j].end;
    }
  }

  lemma InSpanSnoc(spans: seq<TextSpan>, span: TextSpan, i: int)
    ensures InSpan(spans + [span], i) <==> InSpan(spans, i) || span.start <= i < span.end
  {
    var more := spans + [span];
    assert more[|spans|] == span;
    if InSpan(spans, i) {
      var j :| 0 <= j < |spans| && spans[j].start <= i < spans[j].end;
      assert more[j].start <= i < more[j].end;
    }
    if InSpan(more, i) {
      var j :| 0 <= j < |more| && more[j].start <= i < more[j].end;
      assert j < |spans| ==> spans[j].start <= i < spans[j].end;
    }
  }

  /** A non-space character of the piece ends up in its span. */
  lemma AddSpanAt(text: string, spans: seq<TextSpan>, piece: Piece, i: nat)
    requires piece.start <= piece.end <= |text| && i < |text| && !IsSpace(text[i])
    ensures InSpan(AddSpan(text, spans, piece), i) <==> InSpan(spans, i) || piece.start <= i < piece.end
  {
    var span := Tightened(text, piece, |spans|);
    TightenedSlice(text, piece, |spans|);
    InSpanSnoc(spans, span, i);
  }

  /** The spans cover exactly the non-space characters of the pieces. */
  ghost predicate SameChars(text: string, done: seq<Piece>, spans: seq<TextSpan>) {
    forall i: nat | i < |text| && !IsSpace(text[i]) :: InSpan(spans, i) <==> Inside(done, i)
  }

  lemma CharsStep(text: string, done: seq<Piece>, piece: Piece, spans: seq<TextSpan>)
    requires SameChars(text, done, spans) && piece.start <= piece.end <= |text|
    ensures SameChars(text, done + [piece], AddSpan(text, spans, piece))
  {
    forall i: nat | i < |text| && !IsSpace(text[i])
      ensures InSpan(AddSpan(text, spans, piece), i) <==> Inside(done + [piece], i)
    {
      AddSpanAt(text, spans, piece, i);
      InsideSnoc(done, piece, i);
    }
  }

  lemma EndsStep(text: string, piece: Piece, spans: seq<TextSpan>)
    requires piece.start <= piece.end <= |text| && EndsBy(spans, piece.start)
    ensures EndsBy(AddSpan(text, spans, piece), piece.end)
  {
    TightenedBounds(text, piece, |spans|);
    var more := AddSpan(text, spans, piece);
    forall j | 0 <= j < |more|
      ensures more[j].end <= piece.end
    {
      if j < |spans| {
        assert more[j] == spans[j];
      }
    }
  }

  lemma VerbatimStep(text: string, spans: seq<TextSpan>, piece: Piece)
    requires piece.start <= piece.end <= |text| && VerbatimSlices(text, spans)
    requires forall j | 0 <= j < |spans| :: spans[j].end <= piece.start
    ensures VerbatimSlices(text, AddSpan(text, spans, piece))
  {
    if Tightened(text, piece, |spans|).text != "" {
      AppendSlice(text, spans, piece);
    }
  }

  lemma StripStep(text: string, done: seq<Piece>, piece: Piece, spans: seq<TextSpan>)
    requires Stripped(text, done, spans) && Follows(text, done, piece)
    ensures Stripped(text, done + [piece], AddSpan(text, spans, piece))
  {
    assert EndsBy(spans, piece.start);
    EndsStep(text, piece, spans);
    CharsStep(text, done, piece, spans);
    VerbatimStep(text, spans, piece);
    assert LastEnd(done + [piece]) == piece.end;
  }

  /** One unfolding of `TightenAll`, appended to the spans found so far. */
  lemma TightenStep(text: string, piece: Piece, rest: seq<Piece>, spans: seq<TextSpan>)
    ensures
      var spans' := AddSpan(text, spans, piece);
      spans + TightenAll(text, [piece] + rest, |spans|) == spans' + TightenAll(text, rest, |spans'|)
  {
    var span := Tightened(text, piece, |spans|);
    assert ([piece] + rest)[0] == piece && ([piece] + rest)[1..] == rest;
    if span.text != "" {
      ConcatAssoc(spans, [span], TightenAll(text, rest, |spans| + 1));
    }
  }

  /** Pieces in order inside the text. */
  ghost predicate InOrder(text: string, pieces: seq<Piece>) {
    && (forall k | 0 <= k < |pieces| :: pieces[k].start <= pieces[k].end <= |text|)
    && (forall k, l | 0 <= k < l < |pieces| :: pieces[k].end <= pieces[l].start)
  }

  lemma PrefixSnoc(pieces: seq<Piece>, k: nat)
    requires k < |pieces|
    ensures pieces[..k + 1] == pieces[..k] + [pieces[k]]
    ensures k > 0 ==> pieces[..k] != [] && pieces[..k][|pieces[..k]| - 1] == pieces[k - 1]
  {
  }

  lemma {:induction false} StripRest(text: string, pieces: seq<Piece>, k: nat, spans: seq<TextSpan>)
    requires InOrder(text, pieces) && k <= |pieces| && Stripped(text, pieces[..k], spans)
    ensures Stripped(text, pieces, spans + TightenAll(text, pieces[k..], |spans|))
    decreases |pieces| - k
  {
    if k == |pieces| {
      assert pieces[..k] == pieces && pieces[k..] == [];
      AppendNothing(spans);
    } else {
      var spans' := AddSpan(text, spans, pieces[k]);
      PrefixSnoc(pieces, k);
      StripStep(text, pieces[..k], pieces[k], spans);
      StripRest(text, pieces, k + 1, spans');
      SuffixStep(pieces, k);
      TightenStep(text, pieces[k], pieces[k + 1..], spans);
    }
  }

  lemma StripAll(text: string, pieces: seq<Piece>, marks: set<nat>)
    requires Tiles(text, pieces, marks, |text|)
    ensures VerbatimSlices(text, TightenAll(text, pieces, 0))
    ensures forall i: nat | i < |text| && !IsSpace(text[i]) :: InSpan(TightenAll(text, pieces, 0), i) <==> i !in marks
  {
    var all := TightenAll(text, pieces, 0);
    assert pieces[0..] == pieces;
    assert pieces[..0] == [];
    assert [] + all == all;
    NothingStripped(text);
    StripRest(text, pieces, 0, []);
    StrippedMeans(text, pieces, all, marks);
  }

  lemma NothingStripped(text: string)
    ensures Stripped(text, [], [])
  {
  }

  lemma StrippedMeans(text: string, pieces: seq<Piece>, spans: seq<TextSpan>, marks: set<nat>)
    requires Tiles(text, pieces, marks, |text|) && Stripped(text, pieces, spans)
    ensures forall i: nat | i < |text| && !IsSpace(text[i]) :: InSpan(spans, i) <==> i !in marks
  {
  }

  method StripPieces(text: string, pieces: seq<Piece>, ghost marks: set<nat>) returns (spans: seq<TextSpan>)
    requires Tiles(text, pieces, marks, |text|)
    ensures VerbatimSlices(text, spans) && spans == TightenAll(text, pieces, 0)
    ensures forall i: nat | i < |text| && !IsSpace(text[i]) :: InSpan(spans, i) <==> i !in marks
  {
    spans := [];
    ghost var all := TightenAll(text, pieces, 0);
    assert pieces[0..] == pieces && [] + all == all;
    for k := 0 to |pieces|
      invariant spans + TightenAll(text, pieces[k..], |spans|) == all
    {
      SuffixStep(pieces, k);
      TightenStep(text, pieces[k], pieces[k + 1..], spans);
      var span := Tightened(text, pieces[k], |spans|);
      if span.text == "" {
        continue;
      }
      spans := spans + [span];
    }
    assert pieces[|pieces|..] == [];
    AppendNothing(spans);
    StripAll(text, pieces, marks);
  }
}
