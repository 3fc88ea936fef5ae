/** The heuristic analyzer, as far as who gets which quote: paragraphs by key, the quotes that some rule attributes,
    and how the other quotes of a paragraph are filled in.  What the rules find in the text is arbitrary, given by
    paragraph and span number. */
module Heuristic {
  import opened Book
  import opened Chunker
  import opened Common
  import opened Paragraphs

  /** Characters are compared by identity; their names are read at the end of the run. */
  type Character = nat

  /** What the rules find at span `i` of paragraph `p`. */
  datatype Rules = Rules(
    startsScene: nat -> bool,
    mentioned: (nat, nat) -> seq<Character>,
    vocative: (nat, nat) -> Option<Character>,
    hit: (nat, nat) -> Option<Character>,
    tone: (nat, nat) -> (string, string),
    nameOf: Character -> string)

  // ----------------------------------------------------------------- the conversation

  datatype Conversation = Conversation(
    participants: seq<Character>, speakers: seq<Character>, lastMention: Option<Character>, addressee: Option<Character>,
    lastQuote: string)

  const SILENCE := Conversation([], [], None, None, "")

  function Mention(c: Conversation, who: Character): Conversation {
    c.(participants := Without(c.participants, who) + [who], lastMention := Some(who))
  }

  function MentionAll(c: Conversation, who: seq<Character>): Conversation {
    if who == [] then c else Mention(MentionAll(c, who[..|who| - 1]), who[|who| - 1])
  }

  function Spoke(c: Conversation, who: Character): Conversation {
    Mention(c, who).(
    speakers := LastOf(Without(c.speakers, who) + [who], 2),
    addressee := if c.addressee == Some(who) then None else c.addressee)
  }

  function LastSpeaker(c: Conversation): Option<Character> {
    if c.speakers == [] then None else Some(c.speakers[|c.speakers| - 1])
  }

  /** The most recent of `names` who is neither `a` nor `b`. */
  function MostRecentOther(names: seq<Character>, a: Option<Character>, b: Option<Character>): (who: Option<Character>)
    ensures who.Some? ==> who != a && who != b && who.value in names
    ensures who.None? ==> forall n | n in names :: Some(n) == a || Some(n) == b
  {
    if names == [] then None
    else
      var last := names[|names| - 1];
      if Some(last) != a && Some(last) != b then Some(last)
      else
        assert names == names[..|names| - 1] + [last];
        MostRecentOther(names[..|names| - 1], a, b)
  }

  /** `partner`: whom the last speaker is talking to. */
  function Partner(c: Conversation, speaker: Option<Character>, exclude: Option<Character>): Option<Character> {
    if c.addressee.Some? && c.addressee != speaker && c.addressee != exclude then c.addressee
    else MostRecentOther(c.participants, speaker, exclude)
  }

  /** `_fallback`: the partner, else the last speaker, else nobody. */
  function FallbackSpeaker(c: Conversation, addressed: Option<Character>): Option<Character> {
    var partner := Partner(c, LastSpeaker(c), addressed);
    if partner.Some? then partner else LastSpeaker(c)
  }

  /** The fallback lets someone else than the last speaker answer, if anyone else is there who is not being addressed. */
  lemma FallbackAlternates(c: Conversation, addressed: Option<Character>)
    ensures
      var who := FallbackSpeaker(c, addressed);
      && ((exists n | n in c.participants :: Some(n) != LastSpeaker(c) && Some(n) != addressed) ==>
           who.Some? && who != LastSpeaker(c) && who != addressed)
      && (who.None? ==> c.speakers == [])
  {
  }

  // ----------------------------------------------------------------- filling in the other quotes of a paragraph

  /** Which spans are quotes. */
  function Quotes(spans: seq<Span>): (q: seq<bool>)
    ensures |q| == |spans| && forall i | 0 <= i < |q| :: q[i] == (spans[i].kind == Quote)
  {
    seq(|spans|, i requires 0 <= i < |spans| => spans[i].kind == Quote)
  }

  /** Whom the rules name, for the quotes that they attribute. */
  function Hits(spans: seq<Span>, p: nat, rules: Rules): (h: seq<Option<Character>>)
    ensures |h| == |spans| && forall i | 0 <= i < |h| :: h[i] == if spans[i].kind == Quote then rules.hit(p, i) else None
  {
    seq(|spans|, i requires 0 <= i < |spans| => if spans[i].kind == Quote then rules.hit(p, i) else None)
  }

  function PrevQuote(quotes: seq<bool>, i: nat): (j: Option<nat>)
    requires i <= |quotes|
    ensures j.Some? ==> j.value < i && quotes[j.value] && forall k | j.value < k < i :: !quotes[k]
    ensures j.None? ==> forall k | 0 <= k < i :: !quotes[k]
  {
    if i == 0 then None else if quotes[i - 1] then Some(i - 1) else PrevQuote(quotes, i - 1)
  }

  function NextHit(hits: seq<Option<Character>>, i: nat): (j: Option<nat>)
    requires i <= |hits|
    ensures j.Some? ==> i <= j.value < |hits| && hits[j.value].Some? && forall k | i <= k < j.value :: hits[k].None?
    ensures j.None? ==> forall k | i <= k < |hits| :: hits[k].None?
    decreases |hits| - i
  {
    if i == |hits| then None else if hits[i].Some? then Some(i) else NextHit(hits, i + 1)
  }

  /** Quote `i` keeps its own hit; otherwise it goes with the quote before it, or with the next quote that has a hit
      if that one is at least as near. */
  function SpeakerAt(hits: seq<Option<Character>>, quotes: seq<bool>, i: nat): Option<Character>
    requires |hits| == |quotes| && i < |hits|
  {
    if hits[i].Some? then hits[i]
    else
      var prev, next := PrevQuote(quotes, i), NextHit(hits, i + 1);
      if prev.Some? && (next.None? || i - prev.value < next.value - i) then SpeakerAt(hits, quotes, prev.value)
      else if next.Some? then hits[next.value]
      else None
  }

  function Distance(i: int, j: int): nat {
    if i < j then j - i else i - j
  }

  /** `j` comes before `k` for the key `(abs(j - i), -j)`. */
  predicate Nearer(i: nat, j: nat, k: nat) {
    Distance(i, j) < Distance(i, k) || (Distance(i, j) == Distance(i, k) && j >= k)
  }

  /** `min(resolved, key=...)`. */
  method Nearest(keys: set<nat>, i: nat) returns (j: nat)
    requires keys != {}
    ensures j in keys && forall k | k in keys :: Nearer(i, j, k)
  {
    j :| j in keys;
    var rest := keys;
    while rest != {}
      invariant rest <= keys && j in keys
      invariant forall k | k in keys :: k in rest || Nearer(i, j, k)
      decreases |rest|
    {
      var k :| k in rest;
      if !Nearer(i, j, k) {
        forall m | m in keys && m !in rest
          ensures Nearer(i, k, m)
        {
          assert Nearer(i, j, m);
        }
        j := k;
      }
      rest := rest - {k};
    }
  }

  ghost predicate HitsAreQuotes(hits: seq<Option<Character>>, quotes: seq<bool>) {
    |hits| == |quotes| && forall j | 0 <= j < |hits| :: hits[j].Some? ==> quotes[j]
  }

  /** What `resolved` holds once the unattributed quotes before `i` are filled in. */
  ghost predicate Resolved(
    resolved: map<nat, Option<Character>>, hits: seq<Option<Character>>, quotes: seq<bool>, i: nat)
    requires |hits| == |quotes|
  {
    && (forall j: nat :: j in resolved <==> j < |hits| && quotes[j] && (hits[j].Some? || j < i))
    && (forall j: nat | j in resolved :: resolved[j] == SpeakerAt(hits, quotes, j))
  }

  /** The nearest resolved quote is the quote before, or the next one with a hit. */
  lemma NearestIsNeighbour(
    resolved: map<nat, Option<Character>>, hits: seq<Option<Character>>, quotes: seq<bool>, i: nat, j: nat)
    requires HitsAreQuotes(hits, quotes) && i < |hits| && quotes[i] && hits[i].None? && Resolved(resolved, hits, quotes, i)
    requires j in resolved && forall k | k in resolved :: Nearer(i, j, k)
    ensures resolved[j] == SpeakerAt(hits, quotes, i)
  {
    var prev, next := PrevQuote(quotes, i), NextHit(hits, i + 1);
    if prev.Some? {
      assert prev.value in resolved;
    }
    if next.Some? {
      assert quotes[next.value] && next.value in resolved;
    }
  }

  /** The filling loop of `_process_paragraph`, once some quote of the paragraph has a hit. */
  method FillFromNeighbours(hits: seq<Option<Character>>, quotes: seq<bool>, hit: nat)
    returns (resolved: map<nat, Option<Character>>)
    requires HitsAreQuotes(hits, quotes) && hit < |hits| && hits[hit].Some?
    ensures Resolved(resolved, hits, quotes, |hits|)
  {
    resolved := map j: nat | j < |hits| && hits[j].Some? :: hits[j];
    for i := 0 to |hits|
      invariant Resolved(resolved, hits, quotes, i)
    {
      if quotes[i] && hits[i].None? {
        assert hit in resolved;
        var j := Nearest(resolved.Keys, i);
        NearestIsNeighbour(resolved, hits, quotes, i, j);
        resolved := resolved[i := resolved[j]];
      }
    }
  }

  /** Every quote of such a paragraph gets a speaker. */
  lemma {:induction false} SomebodySpeaks(hits: seq<Option<Character>>, quotes: seq<bool>, hit: nat, i: nat)
    requires HitsAreQuotes(hits, quotes) && hit < |hits| && hits[hit].Some? && i < |hits| && quotes[i]
    ensures SpeakerAt(hits, quotes, i).Some?
    decreases i
  {
    var prev := PrevQuote(quotes, i);
    if hits[i].None? && prev.Some? {
      SomebodySpeaks(hits, quotes, hit, prev.value);
    }
  }

  // ----------------------------------------------------------------- one chunk

  /** A label before names are read. */
  datatype Pending = Pending(span: Span, character: Option<Character>, tone: (string, string))

  /** With a hit in the paragraph the closed form, without one the same character for all. */
  function CharacterOf(spans: seq<Span>, p: nat, rules: Rules, shared: Option<Character>, i: nat): Option<Character>
    requires i < |spans|
  {
    if NextHit(Hits(spans, p, rules), 0).Some? then SpeakerAt(Hits(spans, p, rules), Quotes(spans), i) else shared
  }

  // What a paragraph does to the conversation, and the labels it gets.

  function AfterSpan(c: Conversation, span: Span, p: nat, i: nat, rules: Rules): Conversation {
    if span.kind == Narration then MentionAll(c, rules.mentioned(p, i))
    else
      var quoted := c.(lastQuote := span.text);
      match rules.hit(p, i) case Some(who) => Spoke(quoted, who) case None => quoted
  }

  /** The conversation after the names and the hits of the first `n` spans. */
  function Scanned(c: Conversation, spans: seq<Span>, p: nat, rules: Rules, n: nat): Conversation
    requires n <= |spans|
  {
    if n == 0 then c else AfterSpan(Scanned(c, spans, p, rules, n - 1), spans[n - 1], p, n - 1, rules)
  }

  /** Whom the last of the first `n` spans addresses that addresses anybody. */
  function AddressedIn(spans: seq<Span>, p: nat, rules: Rules, n: nat): Option<Character>
    requires n <= |spans|
  {
    if n == 0 then None
    else if spans[n - 1].kind == Quote && rules.vocative(p, n - 1).Some? then rules.vocative(p, n - 1)
    else AddressedIn(spans, p, rules, n - 1)
  }

  function Opened(c: Conversation, p: nat, rules: Rules): Conversation {
    if rules.startsScene(p) then SILENCE else c
  }

  /** Who speaks the quotes of a paragraph in which no rule finds a speaker; `c` is the conversation before it. */
  function SharedSpeaker(c: Conversation, spans: seq<Span>, p: nat, rules: Rules): Option<Character> {
    FallbackSpeaker(Scanned(Opened(c, p, rules), spans, p, rules, |spans|), AddressedIn(spans, p, rules, |spans|))
  }

  /** Who speaks quote `i`. */
  function SpeakerIn(c: Conversation, spans: seq<Span>, p: nat, rules: Rules, i: nat): Option<Character>
    requires i < |spans|
  {
    CharacterOf(spans, p, rules, SharedSpeaker(c, spans, p, rules), i)
  }

  /** The labels of the first `n` spans. */
  function LabelsIn(c: Conversation, spans: seq<Span>, p: nat, rules: Rules, n: nat): seq<Pending>
    requires n <= |spans|
  {
    if n == 0 then []
    else
      LabelsIn(c, spans, p, rules, n - 1)
      + if spans[n - 1].kind == Quote then [Pending(spans[n - 1], SpeakerIn(c, spans, p, rules, n - 1), rules.tone(p, n - 1))]
        else []
  }

  /** The conversation once the quotes without a hit among the first `n` spans have spoken too. */
  function Answered(c: Conversation, spans: seq<Span>, p: nat, rules: Rules, n: nat): Conversation
    requires n <= |spans|
  {
    if n == 0 then Scanned(Opened(c, p, rules), spans, p, rules, |spans|)
    else
      var before, who := Answered(c, spans, p, rules, n - 1), SpeakerIn(c, spans, p, rules, n - 1);
      if spans[n - 1].kind == Quote && rules.hit(p, n - 1).None? && who.Some? then Spoke(before, who.value) else before
  }

  function AfterParagraph(c: Conversation, spans: seq<Span>, p: nat, rules: Rules): Conversation {
    var answered := Answered(c, spans, p, rules, |spans|);
    match AddressedIn(spans, p, rules, |spans|)
    case Some(who) => Mention(answered.(addressee := Some(who)), who)
    case None => answered
  }

  /** The conversation before paragraph `p`. */
  function Before(c: Conversation, paragraphs: seq<Paragraphs.Group>, rules: Rules, p: nat): Conversation
    requires p <= |paragraphs|
  {
    if p == 0 then c else AfterParagraph(Before(c, paragraphs, rules, p - 1), paragraphs[p - 1], p - 1, rules)
  }

  /** The labels of the first `p` paragraphs. */
  function LabelsOf(c: Conversation, paragraphs: seq<Paragraphs.Group>, rules: Rules, p: nat): seq<Pending>
    requires p <= |paragraphs|
  {
    if p == 0 then []
    else
      var spans := paragraphs[p - 1];
      LabelsOf(c, paragraphs, rules, p - 1) + LabelsIn(Before(c, paragraphs, rules, p - 1), spans, p - 1, rules, |spans|)
  }

  function PendingIds(labels: seq<Pending>): (ids: seq<string>)
    ensures |ids| == |labels| && forall i | 0 <= i < |ids| :: ids[i] == labels[i].span.id
  {
    seq(|labels|, i requires 0 <= i < |labels| => labels[i].span.id)
  }

  lemma QuoteIdsSnoc(spans: seq<Span>, span: Span)
    ensures QuoteIds(spans + [span]) == QuoteIds(spans) + if span.kind == Quote then [span.id] else []
  {
    QuoteIdsConcat(spans, [span]);
    assert [span][1..] == [];
  }

  lemma {:induction false} LabelsInNameTheQuotes(c: Conversation, spans: seq<Span>, p: nat, rules: Rules, n: nat)
    requires n <= |spans|
    ensures PendingIds(LabelsIn(c, spans, p, rules, n)) == QuoteIds(spans[..n])
  {
    if n > 0 {
      LabelsInNameTheQuotes(c, spans, p, rules, n - 1);
      assert spans[..n] == spans[..n - 1] + [spans[n - 1]];
      QuoteIdsSnoc(spans[..n - 1], spans[n - 1]);
    }
  }

  /** The labels are exactly the quotes of the paragraphs, in order. */
  lemma {:induction false} LabelsNameTheQuotes(c: Conversation, paragraphs: seq<Paragraphs.Group>, rules: Rules, p: nat)
    requires p <= |paragraphs|
    ensures PendingIds(LabelsOf(c, paragraphs, rules, p)) == QuoteIds(Flatten(paragraphs[..p]))
  {
    if p > 0 {
      var spans := paragraphs[p - 1];
      var added := LabelsIn(Before(c, paragraphs, rules, p - 1), spans, p - 1, rules, |spans|);
      LabelsNameTheQuotes(c, paragraphs, rules, p - 1);
      assert PendingIds(added) == QuoteIds(spans) by {
        LabelsInNameTheQuotes(Before(c, paragraphs, rules, p - 1), spans, p - 1, rules, |spans|);
        assert spans[..|spans|] == spans;
      }
      OneMoreParagraph(paragraphs, p - 1, LabelsOf(c, paragraphs, rules, p - 1), added);
    }
  }

  lemma OneMoreParagraph(paragraphs: seq<Paragraphs.Group>, p: nat, before: seq<Pending>, added: seq<Pending>)
    requires p < |paragraphs| && PendingIds(before) == QuoteIds(Flatten(paragraphs[..p]))
    requires PendingIds(added) == QuoteIds(paragraphs[p])
    ensures PendingIds(before + added) == QuoteIds(Flatten(paragraphs[..p + 1]))
  {
    TakeMore(paragraphs, p);
    FlattenSnoc(paragraphs[..p], paragraphs[p]);
    QuoteIdsConcat(Flatten(paragraphs[..p]), paragraphs[p]);
    assert PendingIds(before + added) == PendingIds(before) + PendingIds(added);
  }

  /** In a paragraph without a hit every quote has the same speaker: somebody other than the last speaker and the one
      addressed, if such a participant is there; nobody only if nobody has spoken yet. */
  lemma UnattributedParagraphAlternates(c: Conversation, spans: seq<Span>, p: nat, rules: Rules, i: nat)
    requires i < |spans| && forall j | 0 <= j < |spans| :: spans[j].kind == Quote ==> rules.hit(p, j).None?
    ensures
      var now := Scanned(Opened(c, p, rules), spans, p, rules, |spans|);
      var addressed, who := AddressedIn(spans, p, rules, |spans|), SpeakerIn(c, spans, p, rules, i);
      && who == SpeakerIn(c, spans, p, rules, 0)
      && ((exists n | n in now.participants :: Some(n) != LastSpeaker(now) && Some(n) != addressed) ==>
           who.Some? && who != LastSpeaker(now) && who != addressed)
      && (who.None? ==> now.speakers == [])
  {
    FallbackAlternates(
      Scanned(Opened(c, p, rules), spans, p, rules, |spans|), AddressedIn(spans, p, rules, |spans|));
  }

  class ChunkRun {
    const rules: Rules
    var conv: Conversation
    var labels: seq<Pending>

    /** `seeded` is the conversation that the context before the chunk suggests. */
    constructor (rules: Rules, seeded: Conversation)
      ensures this.rules == rules && conv == seeded && labels == []
    {
      this.rules, conv, labels := rules, seeded, [];
    }

    /** The first loop over a paragraph: names in narration, hits in quotes. */
    method Scan(p: nat, spans: seq<Span>) returns (addressed: Option<Character>)
      modifies this`conv
      ensures conv == Scanned(old(conv), spans, p, rules, |spans|) && addressed == AddressedIn(spans, p, rules, |spans|)
    {
      addressed := None;
      for i := 0 to |spans|
        invariant conv == Scanned(old(conv), spans, p, rules, i) && addressed == AddressedIn(spans, p, rules, i)
      {
        if spans[i].kind == Narration {
          conv := MentionAll(conv, rules.mentioned(p, i));
        } else {
          var addressee := rules.vocative(p, i);
          if addressee.Some? {
            addressed := addressee;
          }
          conv := conv.(lastQuote := spans[i].text);
          var hit := rules.hit(p, i);
          if hit.Some? {
            conv := Spoke(conv, hit.value);
          }
        }
      }
    }

    /** The quotes that had no hit speak, in order. */
    method LetOthersSpeak(p: nat, spans: seq<Span>, resolved: map<nat, Option<Character>>, ghost before: Conversation)
      requires conv == Answered(before, spans, p, rules, 0)
      requires forall i: nat | i < |spans| && spans[i].kind == Quote ::
        i in resolved && resolved[i] == SpeakerIn(before, spans, p, rules, i)
      modifies this`conv
      ensures conv == Answered(before, spans, p, rules, |spans|)
    {
      for i := 0 to |spans|
        invariant conv == Answered(before, spans, p, rules, i)
      {
        if spans[i].kind == Quote && rules.hit(p, i).None? && resolved[i].Some? {
          conv := Spoke(conv, resolved[i].value);
        }
      }
    }

    /** The last loop over a paragraph: one label for each quote. */
    method AppendLabels(p: nat, spans: seq<Span>, resolved: map<nat, Option<Character>>, ghost before: Conversation)
      requires forall i: nat | i < |spans| && spans[i].kind == Quote ::
        i in resolved && resolved[i] == SpeakerIn(before, spans, p, rules, i)
      modifies this`labels
      ensures labels == old(labels) + LabelsIn(before, spans, p, rules, |spans|)
    {
      for i := 0 to |spans|
        invariant labels == old(labels) + LabelsIn(before, spans, p, rules, i)
      {
        if spans[i].kind != Quote {
          continue;
        }
        var one := Pending(spans[i], resolved[i], rules.tone(p, i));
        ConcatAssoc(old(labels), LabelsIn(before, spans, p, rules, i), [one]);
        labels := labels + [one];
      }
    }

    /** `_process_paragraph`. */
    method ProcessParagraph(p: nat, spans: seq<Span>)
      modifies this
      ensures labels == old(labels) + LabelsIn(old(conv), spans, p, rules, |spans|)
      ensures conv == AfterParagraph(old(conv), spans, p, rules)
    {
      if rules.startsScene(p) {
        conv := SILENCE;
      }
      var addressed := Scan(p, spans);
      var hits, quotes := Hits(spans, p, rules), Quotes(spans);
      var hit := NextHit(hits, 0);
      var resolved: map<nat, Option<Character>>;
      if hit.Some? {
        resolved := FillFromNeighbours(hits, quotes, hit.value);
      } else {
        var shared := FallbackSpeaker(conv, addressed);
        resolved := map j: nat | j < |spans| && quotes[j] :: shared;
      }
      LetOthersSpeak(p, spans, resolved, old(conv));
      if addressed.Some? {
        conv := Mention(conv.(addressee := addressed), addressed.value);
      }
      AppendLabels(p, spans, resolved, old(conv));
    }

    /** `run`: the labels, in the order in which the paragraphs are processed. */
    method Run(spans: seq<Span>, keys: Keys) returns (result: seq<Label>)
      requires labels == []
      modifies this
      ensures
        var paragraphs := ByKey(spans, keys);
        result == Named(LabelsOf(old(conv), paragraphs, rules, |paragraphs|), rules)
      ensures LabelIds(result) == QuoteIds(Flatten(ByKey(spans, keys)))
    {
      var paragraphs := ParagraphsOf(spans, keys);
      for p := 0 to |paragraphs|
        invariant labels == LabelsOf(old(conv), paragraphs, rules, p) && conv == Before(old(conv), paragraphs, rules, p)
      {
        ProcessParagraph(p, paragraphs[p]);
      }
      LabelsNameTheQuotes(old(conv), paragraphs, rules, |paragraphs|);
      assert paragraphs[..|paragraphs|] == paragraphs;
      result := Named(labels, rules);
    }
  }

  function Named(labels: seq<Pending>, rules: Rules): (r: seq<Label>)
    ensures LabelIds(r) == PendingIds(labels)
  {
    seq(|labels|, i requires 0 <= i < |labels| =>
      Label(
        labels[i].span.id,
        if labels[i].character.Some? then rules.nameOf(labels[i].character.value) else NARRATOR,
        labels[i].tone.0, labels[i].tone.1))
  }
}
