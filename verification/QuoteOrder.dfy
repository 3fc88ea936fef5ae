/** In which order grouping by paragraph key leaves the quotes of a chunk. */
module QuoteOrder {
  import opened Book
  import opened Common
  import opened Paragraphs

  // ----------------------------------------------------------------- grouping by key, one span at a time

  function Place(spans: seq<Span>, keys: Keys): (g: Option<nat>)
    requires spans != []
    ensures g.Some? ==> g.value < |ByKey(spans[..|spans| - 1], keys)|
  {
    GroupWith(ByKey(spans[..|spans| - 1], keys), keys(spans[|spans| - 1].id), keys)
  }

  /** How many groups come before a span that joins group `g`, or that gets a group of its own. */
  function Cut(groups: seq<Group>, g: Option<nat>): (n: nat)
    requires g.Some? ==> g.value < |groups|
    ensures n <= |groups|
  {
    match g case Some(k) => k + 1 case None => |groups|
  }

  /** What comes before such a span, in the flattened groups. */
  function BeforeIn(groups: seq<Group>, g: Option<nat>): seq<Span>
    requires g.Some? ==> g.value < |groups|
  {
    Flatten(groups[..Cut(groups, g)])
  }

  /** What comes after it. */
  function AfterIn(groups: seq<Group>, g: Option<nat>): seq<Span>
    requires g.Some? ==> g.value < |groups|
  {
    Flatten(groups[Cut(groups, g)..])
  }

  function Joined(groups: seq<Group>, g: Option<nat>, span: Span): seq<Group>
    requires g.Some? ==> g.value < |groups|
  {
    if g.Some? then groups[g.value := groups[g.value] + [span]] else groups + [[span]]
  }

  function Before(spans: seq<Span>, keys: Keys): seq<Span>
    requires spans != []
  {
    BeforeIn(ByKey(spans[..|spans| - 1], keys), Place(spans, keys))
  }

  function After(spans: seq<Span>, keys: Keys): seq<Span>
    requires spans != []
  {
    AfterIn(ByKey(spans[..|spans| - 1], keys), Place(spans, keys))
  }

  lemma FlattenSplit(groups: seq<Group>, n: nat)
    requires n <= |groups|
    ensures Flatten(groups) == Flatten(groups[..n]) + Flatten(groups[n..])
  {
    TakeAndDrop(groups, n);
    FlattenConcat(groups[..n], groups[n..]);
  }

  lemma GrownSplit(groups: seq<Group>, g: nat, span: Span)
    requires g < |groups|
    ensures
      var grown, front := groups[g := groups[g] + [span]], groups[..g + 1];
      grown[..g + 1] == front[g := front[g] + [span]] && grown[g + 1..] == groups[g + 1..]
  {
  }

  lemma FlattenInserted(groups: seq<Group>, g: nat, span: Span)
    requires g < |groups|
    ensures Flatten(groups[g := groups[g] + [span]]) == Flatten(groups[..g + 1]) + [span] + Flatten(groups[g + 1..])
  {
    GrownSplit(groups, g, span);
    FlattenSplit(groups[g := groups[g] + [span]], g + 1);
    FlattenGrown(groups[..g + 1], span);
  }

  lemma FlattenAdded(groups: seq<Group>, span: Span)
    ensures Flatten(groups + [[span]]) == Flatten(groups[..|groups|]) + [span] + Flatten(groups[|groups|..])
  {
    assert groups[..|groups|] == groups;
    FlattenSnoc(groups, [span]);
    AppendNothing(Flatten(groups) + [span]);
  }

  /** The groups are cut in two where the span goes in. */
  lemma JoinedInserts(groups: seq<Group>, g: Option<nat>, span: Span)
    requires g.Some? ==> g.value < |groups|
    ensures Flatten(Joined(groups, g, span)) == BeforeIn(groups, g) + [span] + AfterIn(groups, g)
  {
    match g
    case Some(k) => FlattenInserted(groups, k, span);
    case None => FlattenAdded(groups, span);
  }

  lemma ByKeyStep(spans: seq<Span>, keys: Keys)
    requires spans != []
    ensures ByKey(spans, keys) == Joined(ByKey(spans[..|spans| - 1], keys), Place(spans, keys), spans[|spans| - 1])
  {
  }

  /** The last span is inserted after its group. */
  lemma LastIsInserted(spans: seq<Span>, keys: Keys)
    requires spans != []
    ensures Flatten(ByKey(spans[..|spans| - 1], keys)) == Before(spans, keys) + After(spans, keys)
    ensures Flatten(ByKey(spans, keys)) == Before(spans, keys) + [spans[|spans| - 1]] + After(spans, keys)
  {
    var groups := ByKey(spans[..|spans| - 1], keys);
    ByKeyStep(spans, keys);
    FlattenSplit(groups, Cut(groups, Place(spans, keys)));
    JoinedInserts(groups, Place(spans, keys), spans[|spans| - 1]);
  }

  // ----------------------------------------------------------------- nothing is lost

  ghost predicate SameSpans(a: seq<Span>, b: seq<Span>) {
    |a| == |b| && forall s :: s in a <==> s in b
  }

  lemma {:induction false} ByKeyKeepsSpans(spans: seq<Span>, keys: Keys)
    ensures SameSpans(Flatten(ByKey(spans, keys)), spans)
  {
    if spans != [] {
      var n := |spans| - 1;
      ByKeyKeepsSpans(spans[..n], keys);
      LastIsInserted(spans, keys);
      assert spans == spans[..n] + [spans[n]];
    }
  }

  ghost predicate NoId(spans: seq<Span>, id: string) {
    forall i | 0 <= i < |spans| :: spans[i].id != id
  }

  lemma UniqueInserted(a: seq<Span>, span: Span, b: seq<Span>)
    requires UniqueIds(a + b) && NoId(a + b, span.id)
    ensures UniqueIds(a + [span] + b)
  {
    var all, rest := a + [span] + b, a + b;
    forall i, j | 0 <= i < j < |all|
      ensures all[i].id != all[j].id
    {
      assert i < |a| ==> all[i] == rest[i];
      assert i > |a| ==> all[i] == rest[i - 1];
      assert j < |a| ==> all[j] == rest[j];
      assert j > |a| ==> all[j] == rest[j - 1];
    }
  }

  lemma {:induction false} ByKeyKeepsUnique(spans: seq<Span>, keys: Keys)
    requires UniqueIds(spans)
    ensures UniqueIds(Flatten(ByKey(spans, keys)))
  {
    if spans != [] {
      var n := |spans| - 1;
      ByKeyKeepsUnique(spans[..n], keys);
      ByKeyKeepsSpans(spans[..n], keys);
      LastIsInserted(spans, keys);
      var rest := Before(spans, keys) + After(spans, keys);
      forall i | 0 <= i < |rest|
        ensures rest[i].id != spans[n].id
      {
        assert rest[i] in spans[..n];
      }
      UniqueInserted(Before(spans, keys), spans[n], After(spans, keys));
    }
  }

  // ----------------------------------------------------------------- each quote once

  lemma {:induction false} QuoteIdsAreUnique(spans: seq<Span>)
    requires UniqueIds(spans)
    ensures NamesEachQuoteOnce(QuoteIds(spans), spans)
  {
    if spans != [] {
      assert forall i | 0 <= i < |spans[1..]| :: spans[1..][i] == spans[i + 1];
      QuoteIdsAreUnique(spans[1..]);
      QuoteIdsMembers(spans[1..]);
      if spans[0].kind == Quote {
        var rest := QuoteIds(spans[1..]);
        assert spans[0].id !in rest;
        assert QuoteIds(spans) == [spans[0].id] + rest;
      } else {
        assert QuoteIds(spans) == QuoteIds(spans[1..]);
      }
    }
  }

  /** Labels in the order of the grouped paragraphs name each quote once. */
  lemma GroupedQuotesAreNamedOnce(spans: seq<Span>, keys: Keys)
    requires UniqueIds(spans)
    ensures NamesEachQuoteOnce(QuoteIds(Flatten(ByKey(spans, keys))), spans)
  {
    var grouped := Flatten(ByKey(spans, keys));
    ByKeyKeepsUnique(spans, keys);
    ByKeyKeepsSpans(spans, keys);
    QuoteIdsAreUnique(grouped);
    QuoteIdsMembers(grouped);
    QuoteIdsMembers(spans);
    forall id
      ensures id in QuoteIds(grouped) <==> id in QuoteIds(spans)
    {
      if i :| 0 <= i < |grouped| && grouped[i].kind == Quote && grouped[i].id == id {
        assert grouped[i] in spans;
      }
      if i :| 0 <= i < |spans| && spans[i].kind == Quote && spans[i].id == id {
        assert spans[i] in grouped;
      }
    }
  }

  // ----------------------------------------------------------------- when the order is kept

  /** Position of the first span with this key. */
  function FirstSeen(spans: seq<Span>, keys: Keys, key: string): (n: nat)
    ensures n <= |spans|
    ensures n < |spans| ==> keys(spans[n].id) == key
    ensures forall i | 0 <= i < n :: keys(spans[i].id) != key
  {
    if spans == [] || keys(spans[0].id) == key then 0 else 1 + FirstSeen(spans[1..], keys, key)
  }

  lemma FirstSeenSnoc(front: seq<Span>, last: Span, keys: Keys, key: string)
    ensures
      FirstSeen(front + [last], keys, key) ==
        if FirstSeen(front, keys, key) < |front| then FirstSeen(front, keys, key)
        else if keys(last.id) == key then |front| else |front| + 1
  {
    var all, n, m := front + [last], FirstSeen(front + [last], keys, key), FirstSeen(front, keys, key);
    assert all[|front|] == last;
    assert forall i | 0 <= i < |front| :: all[i] == front[i];
  }

  /** Where the key of group `g` is first seen. */
  function SeenAt(groups: seq<Group>, spans: seq<Span>, keys: Keys, g: nat): nat
    requires g < |groups| && groups[g] != []
  {
    FirstSeen(spans, keys, KeyOf(groups[g], keys))
  }

  /** The groups are in the order in which their keys are first seen. */
  ghost predicate InFirstSeenOrder(groups: seq<Group>, spans: seq<Span>, keys: Keys) {
    && (forall g | 0 <= g < |groups| :: groups[g] != [] && SeenAt(groups, spans, keys, g) < |spans|)
    && forall g, h | 0 <= g < h < |groups| :: SeenAt(groups, spans, keys, g) < SeenAt(groups, spans, keys, h)
  }

  /** Joining a span leaves the keys of the groups as they were. */
  lemma JoinedKeys(groups: seq<Group>, g: Option<nat>, span: Span, keys: Keys, h: nat)
    requires AreGroups(groups, keys) && h < |groups|
    requires g.Some? ==> g.value < |groups| && KeyOf(groups[g.value], keys) == keys(span.id)
    ensures
      var joined := Joined(groups, g, span);
      h < |joined| && joined[h] != [] && KeyOf(joined[h], keys) == KeyOf(groups[h], keys)
  {
  }

  /** A key that no group has is in no span. */
  lemma NewKeyIsSeenLast(groups: seq<Group>, front: seq<Span>, last: Span, keys: Keys)
    requires AreGroups(groups, keys) && SameSpans(Flatten(groups), front)
    requires forall g | 0 <= g < |groups| :: KeyOf(groups[g], keys) != keys(last.id)
    ensures FirstSeen(front, keys, keys(last.id)) == |front|
  {
    forall m | 0 <= m < |front|
      ensures keys(front[m].id) != keys(last.id)
    {
      assert front[m] in Flatten(groups);
      var i :| 0 <= i < |Flatten(groups)| && Flatten(groups)[i] == front[m];
      FlattenKeys(groups, keys, i);
    }
  }

  lemma JoinedKeySeen(groups: seq<Group>, g: Option<nat>, front: seq<Span>, last: Span, keys: Keys, h: nat)
    requires AreGroups(groups, keys) && InFirstSeenOrder(groups, front, keys) && h < |groups|
    requires g == GroupWith(groups, keys(last.id), keys)
    ensures
      var joined := Joined(groups, g, last);
      && h < |joined| && joined[h] != []
      && SeenAt(joined, front + [last], keys, h) == SeenAt(groups, front, keys, h) < |front|
  {
    JoinedKeys(groups, g, last, keys, h);
    FirstSeenSnoc(front, last, keys, KeyOf(groups[h], keys));
  }

  lemma JoinedIsInOrder(groups: seq<Group>, g: Option<nat>, front: seq<Span>, last: Span, keys: Keys)
    requires AreGroups(groups, keys) && SameSpans(Flatten(groups), front) && InFirstSeenOrder(groups, front, keys)
    requires g == GroupWith(groups, keys(last.id), keys)
    ensures InFirstSeenOrder(Joined(groups, g, last), front + [last], keys)
  {
    var joined, all := Joined(groups, g, last), front + [last];
    forall h | 0 <= h < |joined|
      ensures joined[h] != []
      ensures h < |groups| ==> SeenAt(joined, all, keys, h) == SeenAt(groups, front, keys, h) < |front|
      ensures h == |groups| ==> SeenAt(joined, all, keys, h) == |front|
    {
      if h < |groups| {
        JoinedKeySeen(groups, g, front, last, keys, h);
      } else {
        NewKeyIsSeenLast(groups, front, last, keys);
        FirstSeenSnoc(front, last, keys, keys(last.id));
      }
    }
    forall h, k | 0 <= h < k < |joined|
      ensures SeenAt(joined, all, keys, h) < SeenAt(joined, all, keys, k)
    {
      assert k < |groups| ==> SeenAt(groups, front, keys, h) < SeenAt(groups, front, keys, k);
    }
  }

  lemma ByKeySnoc(front: seq<Span>, last: Span, keys: Keys)
    ensures ByKey(front + [last], keys) == Joined(ByKey(front, keys), GroupWith(ByKey(front, keys), keys(last.id), keys), last)
  {
    var spans := front + [last];
    assert spans[..|spans| - 1] == front && spans[|spans| - 1] == last;
    ByKeyStep(spans, keys);
  }

  lemma {:induction false} ByKeyIsInFirstSeenOrder(spans: seq<Span>, keys: Keys)
    ensures InFirstSeenOrder(ByKey(spans, keys), spans, keys)
  {
    if spans != [] {
      var front, last := spans[..|spans| - 1], spans[|spans| - 1];
      ByKeyIsInFirstSeenOrder(front, keys);
      ByKeyKeepsSpans(front, keys);
      var groups := ByKey(front, keys);
      JoinedIsInOrder(groups, GroupWith(groups, keys(last.id), keys), front, last, keys);
      ByKeySnoc(front, last, keys);
      FrontAndLast(spans);
    }
  }

  /** A quote of `spans` whose key is first seen after `key`. */
  ghost predicate LaterQuote(spans: seq<Span>, keys: Keys, key: string, i: nat) {
    i < |spans| && spans[i].kind == Quote && FirstSeen(spans, keys, keys(spans[i].id)) > FirstSeen(spans, keys, key)
  }

  /** A span of the flattened groups has the key of one of them. */
  lemma KeyOfMember(groups: seq<Group>, keys: Keys, s: Span) returns (h: nat)
    requires AreGroups(groups, keys) && s in Flatten(groups)
    ensures h < |groups| && keys(s.id) == KeyOf(groups[h], keys)
  {
    var i :| 0 <= i < |Flatten(groups)| && Flatten(groups)[i] == s;
    FlattenKeys(groups, keys, i);
    h :| 0 <= h < |groups| && keys(s.id) == KeyOf(groups[h], keys);
  }

  lemma PartsAreGroups(groups: seq<Group>, keys: Keys, g: nat)
    requires AreGroups(groups, keys) && g < |groups|
    ensures AreGroups(groups[..g + 1], keys) && AreGroups(groups[g + 1..], keys)
  {
  }

  /** The spans of the groups after `g` are exactly those with later keys. */
  lemma AfterIsLater(groups: seq<Group>, g: nat, front: seq<Span>, keys: Keys, s: Span)
    requires AreGroups(groups, keys) && InFirstSeenOrder(groups, front, keys) && g < |groups|
    requires s in Flatten(groups[..g + 1]) + Flatten(groups[g + 1..])
    ensures s in Flatten(groups[g + 1..]) <==>
      FirstSeen(front, keys, keys(s.id)) > FirstSeen(front, keys, KeyOf(groups[g], keys))
  {
    PartsAreGroups(groups, keys, g);
    if s in Flatten(groups[g + 1..]) {
      var h := KeyOfMember(groups[g + 1..], keys, s);
      assert groups[g + 1..][h] == groups[g + 1 + h];
    } else {
      var h := KeyOfMember(groups[..g + 1], keys, s);
      assert groups[..g + 1][h] == groups[h];
    }
  }

  lemma NoQuotes(spans: seq<Span>)
    ensures QuoteIds(spans) == [] <==> forall s | s in spans :: s.kind != Quote
  {
    QuoteIdsMembers(spans);
    if QuoteIds(spans) != [] {
      assert QuoteIds(spans)[0] in QuoteIds(spans);
      var i :| 0 <= i < |spans| && spans[i].kind == Quote && spans[i].id == QuoteIds(spans)[0];
      assert spans[i] in spans;
    } else {
      forall s | s in spans
        ensures s.kind != Quote
      {
        var i :| 0 <= i < |spans| && spans[i] == s;
        assert s.id !in QuoteIds(spans);
      }
    }
  }

  /** No quote of `spans` has a later key. */
  ghost predicate NoLaterQuote(spans: seq<Span>, keys: Keys, key: string) {
    forall i | 0 <= i < |spans| :: !LaterQuote(spans, keys, key, i)
  }

  lemma QuotesAfterGroupIff(groups: seq<Group>, g: nat, front: seq<Span>, keys: Keys)
    requires AreGroups(groups, keys) && InFirstSeenOrder(groups, front, keys) && g < |groups|
    requires SameSpans(Flatten(groups[..g + 1]) + Flatten(groups[g + 1..]), front)
    ensures QuoteIds(Flatten(groups[g + 1..])) == [] <==> NoLaterQuote(front, keys, KeyOf(groups[g], keys))
  {
    var key, after := KeyOf(groups[g], keys), Flatten(groups[g + 1..]);
    NoQuotes(after);
    forall i | 0 <= i < |front|
      ensures LaterQuote(front, keys, key, i) <==> front[i].kind == Quote && front[i] in after
    {
      AfterIsLater(groups, g, front, keys, front[i]);
    }
    forall s | s in after
      ensures exists i :: 0 <= i < |front| && front[i] == s
    {
      assert s in Flatten(groups[..g + 1]) + after;
    }
  }

  /** Quotes follow the last span in the groups exactly if some quote before it has a later key. */
  lemma QuotesAfterIff(spans: seq<Span>, keys: Keys)
    requires spans != []
    ensures QuoteIds(After(spans, keys)) == [] <==> NoLaterQuote(spans[..|spans| - 1], keys, keys(spans[|spans| - 1].id))
  {
    var front, last, g := spans[..|spans| - 1], spans[|spans| - 1], Place(spans, keys);
    var groups := ByKey(front, keys);
    ByKeyKeepsSpans(front, keys);
    ByKeyIsInFirstSeenOrder(front, keys);
    LastIsInserted(spans, keys);
    if g.Some? {
      QuotesAfterGroupIff(groups, g.value, front, keys);
    } else {
      NewKeyIsSeenLast(groups, front, last, keys);
    }
  }

  /** Keys of quotes are first seen in the order of the quotes. */
  ghost predicate SeenInOrder(spans: seq<Span>, keys: Keys) {
    forall i, j | 0 <= i < j < |spans| && spans[i].kind == Quote && spans[j].kind == Quote ::
      FirstSeen(spans, keys, keys(spans[i].id)) <= FirstSeen(spans, keys, keys(spans[j].id))
  }

  lemma SeenInOrderStep(spans: seq<Span>, keys: Keys)
    requires spans != []
    ensures
      var front, last := spans[..|spans| - 1], spans[|spans| - 1];
      SeenInOrder(spans, keys) <==> SeenInOrder(front, keys) && (last.kind == Quote ==> NoLaterQuote(front, keys, keys(last.id)))
  {
    var front, last := spans[..|spans| - 1], spans[|spans| - 1];
    assert spans == front + [last];
    FirstSeenSnoc(front, last, keys, keys(last.id));
    forall i | 0 <= i < |front|
      ensures FirstSeen(spans, keys, keys(spans[i].id)) == FirstSeen(front, keys, keys(front[i].id)) < |front|
    {
      FirstSeenSnoc(front, last, keys, keys(front[i].id));
    }
    forall i | 0 <= i < |front|
      ensures LaterQuote(front, keys, keys(last.id), i) <==>
        spans[i].kind == Quote && FirstSeen(spans, keys, keys(spans[i].id)) > FirstSeen(spans, keys, keys(last.id))
    {
    }
  }

  lemma GroupsOfThree(a: Span, b: Span, c: Span, keys: Keys)
    requires keys(a.id) == keys(c.id) != keys(b.id)
    ensures ByKey([a, b, c], keys) == [[a, c], [b]]
  {
    assert [] + [a] == [a] && [a] + [b] == [a, b] && [a, b] + [c] == [a, b, c] && [a] + [c] == [a, c];
    ByKeySnoc([], a, keys);
    ByKeySnoc([a], b, keys);
    ByKeySnoc([a, b], c, keys);
    assert ByKey([a, b], keys) == [[a], [b]];
    assert GroupWith([[a], [b]], keys(c.id), keys) == Some(0);
  }

  lemma ThreeQuotes(a: Span, b: Span, c: Span)
    requires a.kind == Quote && b.kind == Quote && c.kind == Quote
    ensures QuoteIds([a, b, c]) == [a.id, b.id, c.id]
  {
    QuoteIdsConcat([a, b], [c]);
    QuoteIdsConcat([a], [b]);
    QuotesOfOne(a);
    QuotesOfOne(b);
    QuotesOfOne(c);
    assert [a, b] + [c] == [a, b, c] && [a] + [b] == [a, b];
  }

  /** Three quotes of which the last one returns to the first one's paragraph: grouping puts it second. */
  lemma ReturningQuoteMovesUp(a: Span, b: Span, c: Span, keys: Keys)
    requires a.kind == Quote && b.kind == Quote && c.kind == Quote && a.id != c.id
    requires keys(a.id) == keys(c.id) != keys(b.id)
    ensures UniqueIds([a, b, c]) && QuoteIds([a, b, c]) == [a.id, b.id, c.id]
    ensures QuoteIds(Flatten(ByKey([a, b, c], keys))) == [a.id, c.id, b.id] != [a.id, b.id, c.id]
  {
    ThreeQuotes(a, b, c);
    assert [a.id, c.id, b.id][1] != [a.id, b.id, c.id][1];
    GroupsOfThree(a, b, c, keys);
    FlattenCons([a, c], [[b]]);
    FlattenCons([b], []);
    assert [[a, c]] + [[b]] == [[a, c], [b]] && [[b]] + [] == [[b]];
    assert Flatten([[a, c], [b]]) == [a, c] + [b] && [a, c] == [a] + [c];
    QuoteIdsConcat([a, c], [b]);
    QuoteIdsConcat([a], [c]);
    QuotesOfOne(a);
    QuotesOfOne(b);
    QuotesOfOne(c);
  }

  /** Putting `x` in the middle gives the same list as putting it last exactly if nothing follows. */
  lemma LastStaysLast(a: seq<string>, b: seq<string>, all: seq<string>, x: string)
    requires x !in b
    ensures a + [x] + b == all + [x] <==> b == [] && a + b == all
  {
    var left, right := a + [x] + b, all + [x];
    assert right[|right| - 1] == x && right[..|right| - 1] == all;
    if b != [] {
      assert left[|left| - 1] == b[|b| - 1] && b[|b| - 1] in b;
    } else {
      assert left == a + [x] && left[..|left| - 1] == a;
      assert a + b == a;
    }
  }

  /** Grouping by key leaves the quotes in span order exactly if their keys are first seen in that order. */
  lemma {:induction false} QuotesKeepOrderIff(spans: seq<Span>, keys: Keys)
    requires UniqueIds(spans)
    ensures QuoteIds(Flatten(ByKey(spans, keys))) == QuoteIds(spans) <==> SeenInOrder(spans, keys)
  {
    if spans != [] {
      var front, last := spans[..|spans| - 1], spans[|spans| - 1];
      QuotesKeepOrderIff(front, keys);
      SeenInOrderStep(spans, keys);
      QuotesAfterIff(spans, keys);
      InsertedQuotes(spans, keys);
    }
  }

  lemma InsertedQuotes(spans: seq<Span>, keys: Keys)
    requires spans != [] && UniqueIds(spans)
    ensures
      var front, last := spans[..|spans| - 1], spans[|spans| - 1];
      QuoteIds(Flatten(ByKey(spans, keys))) == QuoteIds(spans) <==>
      QuoteIds(Flatten(ByKey(front, keys))) == QuoteIds(front) && (last.kind == Quote ==> QuoteIds(After(spans, keys)) == [])
  {
    var front, last := spans[..|spans| - 1], spans[|spans| - 1];
    var before, after := Before(spans, keys), After(spans, keys);
    var one := if last.kind == Quote then [last.id] else [];
    LastIsInserted(spans, keys);
    QuoteIdsConcat(before + [last], after);
    QuoteIdsConcat(before, [last]);
    QuoteIdsConcat(before, after);
    QuoteIdsConcat(front, [last]);
    assert spans == front + [last];
    QuotesOfOne(last);
    if last.kind == Quote {
      LastIsNotAfter(spans, keys);
      LastStaysLast(QuoteIds(before), QuoteIds(after), QuoteIds(front), last.id);
    } else {
      AppendNothing(QuoteIds(before));
      AppendNothing(QuoteIds(front));
    }
  }

  lemma QuotesOfOne(span: Span)
    ensures QuoteIds([span]) == if span.kind == Quote then [span.id] else []
  {
    assert [span][1..] == [];
  }

  lemma LastIsNotAfter(spans: seq<Span>, keys: Keys)
    requires spans != [] && UniqueIds(spans)
    ensures spans[|spans| - 1].id !in QuoteIds(After(spans, keys))
  {
    var n := |spans| - 1;
    var after := After(spans, keys);
    LastIsInserted(spans, keys);
    ByKeyKeepsSpans(spans[..n], keys);
    QuoteIdsMembers(after);
    forall i | 0 <= i < |after|
      ensures after[i].id != spans[n].id
    {
      assert after[i] in Before(spans, keys) + after;
      assert after[i] in spans[..n];
    }
  }
}
