/** Cutting a segment's text into pieces the speech provider accepts (`split_text`). */
module SplitText {
  import opened Common
  import opened Text

  // ----------------------------------------------------------------- sentences

  /** Whether the sentence regex matches at `i`: whitespace right after a full stop, `!` or `?`. */
  predicate IsBoundary(text: string, i: nat) {
    0 < i < |text| && text[i - 1] in ".!?" && IsSpace(text[i])
  }

  /** First boundary at or after `i`, or the length of the text. */
  function Boundary(text: string, i: nat): (b: nat)
    requires i <= |text|
    ensures i <= b <= |text| && (b < |text| ==> IsBoundary(text, b))
    decreases |text| - i
  {
    if i == |text| || IsBoundary(text, i) then i else Boundary(text, i + 1)
  }

  /** `_SENTENCE_SPLIT_RE.split(text)`: the whitespace at a boundary belongs to no sentence. */
  function Sentences(text: string): seq<string>
    decreases |text|
  {
    var b := Boundary(text, 0);
    if b == |text| then [text] else [text[..b]] + Sentences(LStrip(text[b..]))
  }

  lemma {:induction false} SentencesKeepText(text: string)
    ensures Squeeze(Flatten(Sentences(text))) == Squeeze(text)
    decreases |text|
  {
    var b := Boundary(text, 0);
    if b == |text| {
      assert Flatten([text]) == text + Flatten<char>([]) == text;
    } else {
      var rest := LStrip(text[b..]);
      SentencesKeepText(rest);
      FlattenCons(text[..b], Sentences(rest));
      SqueezeConcat(text[..b], Flatten(Sentences(rest)));
      SqueezeConcat(text[..b], text[b..]);
      TakeAndDrop(text, b);
      SqueezeLStrip(text[b..]);
    }
  }

  lemma SqueezeLStrip(s: string)
    ensures Squeeze(LStrip(s)) == Squeeze(s)
  {
    assert s == s[..Lead(s)] + LStrip(s);
    SqueezeConcat(s[..Lead(s)], LStrip(s));
    SqueezeBlank(s[..Lead(s)]);
  }

  // ----------------------------------------------------------------- breaking one giant sentence

  /** `s.rfind(" ", 0, end)`, or -1. */
  function LastSpace(s: string, end: nat): (i: int)
    requires end <= |s|
    ensures -1 <= i < end && (i >= 0 ==> s[i] == ' ') && forall j | i < j < end :: s[j] != ' '
    decreases end
  {
    if end == 0 then -1 else if s[end - 1] == ' ' then end - 1 else LastSpace(s, end - 1)
  }

  /** Where a sentence longer than the limit is cut. */
  function CutAt(s: string, maxChars: nat): (cut: nat)
    requires 1 <= maxChars < |s|
    ensures 1 <= cut <= maxChars
  {
    var i := LastSpace(s, maxChars);
    if i > 0 then i else maxChars
  }

  lemma StripIsNoLonger(s: string)
    ensures |Strip(s)| <= |s|
  {
  }

  function Broken(s: string, maxChars: nat): seq<string>
    requires maxChars >= 1
    decreases |s|
  {
    if |s| <= maxChars then []
    else
      var cut := CutAt(s, maxChars);
      StripIsNoLonger(s[cut..]);
      [Strip(s[..cut])] + Broken(Strip(s[cut..]), maxChars)
  }

  function Remainder(s: string, maxChars: nat): (r: string)
    requires maxChars >= 1
    ensures |r| <= maxChars
    decreases |s|
  {
    if |s| <= maxChars then s
    else
      var cut := CutAt(s, maxChars);
      StripIsNoLonger(s[cut..]);
      Remainder(Strip(s[cut..]), maxChars)
  }

  ghost predicate AllWithin(pieces: seq<string>, maxChars: nat) {
    forall i | 0 <= i < |pieces| :: |pieces[i]| <= maxChars
  }

  lemma {:induction false} BreakKeepsText(s: string, maxChars: nat)
    requires maxChars >= 1
    ensures Squeeze(Flatten(Broken(s, maxChars))) + Squeeze(Remainder(s, maxChars)) == Squeeze(s)
    ensures AllWithin(Broken(s, maxChars), maxChars)
    decreases |s|
  {
    if |s| > maxChars {
      var cut := CutAt(s, maxChars);
      var front, rest := s[..cut], Strip(s[cut..]);
      StripIsNoLonger(s[cut..]);
      StripIsNoLonger(front);
      BreakKeepsText(rest, maxChars);
      SqueezeStrip(front);
      SqueezeStrip(s[cut..]);
      assert s == front + s[cut..];
      SqueezeConcat(front, s[cut..]);
      SqueezeConcat(Strip(front), Flatten(Broken(rest, maxChars)));
      ConcatAssoc(Squeeze(front), Squeeze(Flatten(Broken(rest, maxChars))), Squeeze(Remainder(rest, maxChars)));
    }
  }

  // ----------------------------------------------------------------- packing sentences

  function Single(piece: string): seq<string> {
    if piece == "" then [] else [piece]
  }

  function Joined(current: string, sentence: string): string {
    if current == "" then sentence else Strip(current + " " + sentence)
  }

  /** The pieces made of `current` and the sentences still to come. */
  function Pack(sentences: seq<string>, current: string, maxChars: nat): seq<string>
    requires maxChars >= 1
    decreases |sentences|
  {
    if sentences == [] then Single(current)
    else
      var s, rest := sentences[0], sentences[1..];
      if |s| > maxChars then Single(current) + (Broken(s, maxChars) + Pack(rest, Remainder(s, maxChars), maxChars))
      else if |Joined(current, s)| <= maxChars then Pack(rest, Joined(current, s), maxChars)
      else [current] + Pack(rest, s, maxChars)
  }

  function NonEmpty(pieces: seq<string>): seq<string> {
    if pieces == [] then [] else Single(pieces[0]) + NonEmpty(pieces[1..])
  }

  /** The result of `split_text`. */
  function Pieces(text: string, maxChars: nat): seq<string>
    requires maxChars >= 1
  {
    var stripped := Strip(text);
    if |stripped| <= maxChars then Single(stripped) else NonEmpty(Pack(Sentences(stripped), "", maxChars))
  }

  lemma SingleText(piece: string)
    ensures Flatten(Single(piece)) == piece
  {
    if piece != "" {
      assert Flatten([piece]) == piece + Flatten<char>([]) == piece;
    }
  }

  lemma JoinedText(current: string, sentence: string)
    ensures Squeeze(Joined(current, sentence)) == Squeeze(current) + Squeeze(sentence)
  {
    if current == "" {
      assert Squeeze(sentence) == "" + Squeeze(sentence);
    } else {
      SqueezeStrip(current + " " + sentence);
      SqueezeConcat(current + " ", sentence);
      SqueezeConcat(current, " ");
      SqueezeBlank(" ");
    }
  }

  lemma {:induction false} PackKeepsText(sentences: seq<string>, current: string, maxChars: nat)
    requires maxChars >= 1
    ensures Squeeze(Flatten(Pack(sentences, current, maxChars))) == Squeeze(current) + Squeeze(Flatten(sentences))
    decreases |sentences|
  {
    if sentences == [] {
      SingleText(current);
    } else {
      var s, rest := sentences[0], sentences[1..];
      SqueezeConcat(s, Flatten(rest));
      if |s| > maxChars {
        var r := Remainder(s, maxChars);
        var tail := Pack(rest, r, maxChars);
        PackKeepsText(rest, r, maxChars);
        BreakKeepsText(s, maxChars);
        FlattenConcat(Broken(s, maxChars), tail);
        FlattenConcat(Single(current), Broken(s, maxChars) + tail);
        SingleText(current);
        SqueezeConcat(current, Flatten(Broken(s, maxChars)) + Flatten(tail));
        SqueezeConcat(Flatten(Broken(s, maxChars)), Flatten(tail));
        ConcatAssoc(Squeeze(Flatten(Broken(s, maxChars))), Squeeze(r), Squeeze(Flatten(rest)));
      } else if |Joined(current, s)| <= maxChars {
        PackKeepsText(rest, Joined(current, s), maxChars);
        JoinedText(current, s);
        ConcatAssoc(Squeeze(current), Squeeze(s), Squeeze(Flatten(rest)));
      } else {
        var tail := Pack(rest, s, maxChars);
        PackKeepsText(rest, s, maxChars);
        FlattenConcat([current], tail);
        assert Flatten([current]) == current + Flatten<char>([]) == current;
        SqueezeConcat(current, Flatten(tail));
      }
    }
  }

  lemma WithinConcat(a: seq<string>, b: seq<string>, maxChars: nat)
    requires AllWithin(a, maxChars) && AllWithin(b, maxChars)
    ensures AllWithin(a + b, maxChars)
  {
  }

  lemma {:induction false} PackStaysWithin(sentences: seq<string>, current: string, maxChars: nat)
    requires maxChars >= 1 && |current| <= maxChars
    ensures AllWithin(Pack(sentences, current, maxChars), maxChars)
    decreases |sentences|
  {
    if sentences != [] {
      var s, rest := sentences[0], sentences[1..];
      if |s| > maxChars {
        BreakKeepsText(s, maxChars);
        var tail := Pack(rest, Remainder(s, maxChars), maxChars);
        PackStaysWithin(rest, Remainder(s, maxChars), maxChars);
        WithinConcat(Broken(s, maxChars), tail, maxChars);
        WithinConcat(Single(current), Broken(s, maxChars) + tail, maxChars);
      } else if |Joined(current, s)| <= maxChars {
        PackStaysWithin(rest, Joined(current, s), maxChars);
      } else {
        PackStaysWithin(rest, s, maxChars);
        WithinConcat([current], Pack(rest, s, maxChars), maxChars);
      }
    }
  }

  lemma {:induction false} NonEmptyKeepsText(pieces: seq<string>, maxChars: nat)
    requires AllWithin(pieces, maxChars)
    ensures Flatten(NonEmpty(pieces)) == Flatten(pieces)
    ensures AllWithin(NonEmpty(pieces), maxChars)
    ensures forall i | 0 <= i < |NonEmpty(pieces)| :: NonEmpty(pieces)[i] != ""
  {
    if pieces != [] {
      assert AllWithin(pieces[1..], maxChars);
      NonEmptyKeepsText(pieces[1..], maxChars);
      FlattenConcat(Single(pieces[0]), NonEmpty(pieces[1..]));
      SingleText(pieces[0]);
    }
  }

  /** Nothing but whitespace is added or lost, in order, and every piece is non-empty and within the limit. */
  lemma PiecesKeepText(text: string, maxChars: nat)
    requires maxChars >= 1
    ensures
      var pieces := Pieces(text, maxChars);
      && Squeeze(Flatten(pieces)) == Squeeze(text)
      && AllWithin(pieces, maxChars) && (forall i | 0 <= i < |pieces| :: pieces[i] != "")
  {
    var stripped := Strip(text);
    SqueezeStrip(text);
    if |stripped| <= maxChars {
      SingleText(stripped);
    } else {
      var packed := Pack(Sentences(stripped), "", maxChars);
      SentencesKeepText(stripped);
      PackKeepsText(Sentences(stripped), "", maxChars);
      PackStaysWithin(Sentences(stripped), "", maxChars);
      NonEmptyKeepsText(packed, maxChars);
      assert "" + Squeeze(stripped) == Squeeze(stripped);
    }
  }

  // ----------------------------------------------------------------- the loops

  /** The inner loop: cuts a giant sentence down to the limit. */
  method BreakSentence(sentence: string, maxChars: nat) returns (cut: seq<string>, rest: string)
    requires maxChars >= 1
    ensures cut == Broken(sentence, maxChars) && rest == Remainder(sentence, maxChars)
  {
    cut, rest := [], sentence;
    while |rest| > maxChars
      invariant cut + Broken(rest, maxChars) == Broken(sentence, maxChars)
      invariant Remainder(rest, maxChars) == Remainder(sentence, maxChars)
      decreases |rest|
    {
      var space := LastSpace(rest, maxChars);
      var at := if space > 0 then space else maxChars;
      StripIsNoLonger(rest[at..]);
      ConcatAssoc(cut, [Strip(rest[..at])], Broken(Strip(rest[at..]), maxChars));
      cut := cut + [Strip(rest[..at])];
      rest := Strip(rest[at..]);
    }
  }

  /** One turn of the packing loop; `rest` are the sentences still to come. */
  method PackSentence(pieces: seq<string>, current: string, sentence: string, maxChars: nat, ghost rest: seq<string>)
    returns (pieces': seq<string>, current': string)
    requires maxChars >= 1
    ensures pieces' + Pack(rest, current', maxChars) == pieces + Pack([sentence] + rest, current, maxChars)
  {
    assert ([sentence] + rest)[1..] == rest;
    if |sentence| > maxChars {
      var cut, remainder := BreakSentence(sentence, maxChars);
      ghost var tail := Pack(rest, remainder, maxChars);
      ConcatAssoc(pieces, Single(current), cut + tail);
      ConcatAssoc(pieces + Single(current), cut, tail);
      pieces' := if current != "" then pieces + [current] else pieces;
      assert pieces' == pieces + Single(current);
      return pieces' + cut, remainder;
    }
    var candidate := if current == "" then sentence else Strip(current + " " + sentence);
    if |candidate| <= maxChars {
      return pieces, candidate;
    }
    ConcatAssoc(pieces, [current], Pack(rest, sentence, maxChars));
    return pieces + [current], sentence;
  }

  /** The packing loop. */
  method PackAll(sentences: seq<string>, maxChars: nat) returns (pieces: seq<string>)
    requires maxChars >= 1
    ensures pieces == Pack(sentences, "", maxChars)
  {
    pieces := [];
    var current := "";
    ghost var all := Pack(sentences, "", maxChars);
    assert [] + all == all && sentences[0..] == sentences;
    for k := 0 to |sentences|
      invariant pieces + Pack(sentences[k..], current, maxChars) == all
    {
      SuffixStep(sentences, k);
      pieces, current := PackSentence(pieces, current, sentences[k], maxChars, sentences[k + 1..]);
    }
    if current != "" {
      pieces := pieces + [current];
    }
  }

  /** `split_text`. */
  method Split(text: string, maxChars: nat) returns (pieces: seq<string>)
    requires maxChars >= 1
    ensures pieces == Pieces(text, maxChars)
    ensures Squeeze(Flatten(pieces)) == Squeeze(text)
    ensures AllWithin(pieces, maxChars) && forall i | 0 <= i < |pieces| :: pieces[i] != ""
  {
    PiecesKeepText(text, maxChars);
    var stripped := Strip(text);
    if |stripped| <= maxChars {
      pieces := if stripped == "" then [] else [stripped];
    } else {
      pieces := PackAll(Sentences(stripped), maxChars);
      pieces := NonEmpty(pieces);
    }
  }
}
