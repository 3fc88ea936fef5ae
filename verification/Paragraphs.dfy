/** Regrouping a chunk's spans by paragraph.  The paragraph key of a span id is an arbitrary function (the source
    reads it off ids such as "c1p7s2").  `Runs` is `_paragraph_groups`, `ByKey` is `_paragraphs_of`. */
module Paragraphs {
  import opened Common
  import opened Book

  type Keys = string -> string

  type Group = seq<Span>

  ghost predicate SameKey(group: Group, keys: Keys) {
    forall i, j | 0 <= i < |group| && 0 <= j < |group| :: keys(group[i].id) == keys(group[j].id)
  }

  ghost predicate AreGroups(groups: seq<Group>, keys: Keys) {
    forall g | 0 <= g < |groups| :: groups[g] != [] && SameKey(groups[g], keys)
  }

  function KeyOf(group: Group, keys: Keys): string
    requires group != []
  {
    keys(group[|group| - 1].id)
  }

  // ----------------------------------------------------------------- consecutive runs

  /** Consecutive spans with the same key. */
  function Runs(spans: seq<Span>, keys: Keys): (groups: seq<Group>)
    ensures AreGroups(groups, keys)
    ensures groups == [] <==> spans == []
    ensures groups != [] ==> KeyOf(groups[|groups| - 1], keys) == keys(spans[|spans| - 1].id)
  {
    if spans == [] then []
    else
      var front, last := Runs(spans[..|spans| - 1], keys), spans[|spans| - 1];
      if front != [] && KeyOf(front[|front| - 1], keys) == keys(last.id) then
        front[|front| - 1 := front[|front| - 1] + [last]]
      else front + [[last]]
  }

  /** `_paragraph_groups`. */
  method ParagraphGroups(spans: seq<Span>, keys: Keys) returns (groups: seq<Group>)
    ensures groups == Runs(spans, keys)
  {
    groups := [];
    var current: Option<string> := None;
    for i := 0 to |spans|
      invariant groups == Runs(spans[..i], keys)
      invariant current == if i == 0 then None else Some(keys(spans[i - 1].id))
    {
      assert spans[..i + 1][..i] == spans[..i];
      var key := keys(spans[i].id);
      if current != Some(key) {
        groups := groups + [[]];
        current := Some(key);
      }
      var last := groups[|groups| - 1];
      groups := groups[|groups| - 1 := last + [spans[i]]];
      assert last == [] ==> last + [spans[i]] == [spans[i]];
    }
    assert spans[..|spans|] == spans;
  }

  /** Neighbouring groups have different keys. */
  ghost predicate Alternate(groups: seq<Group>, keys: Keys) {
    forall g, h | 0 <= g && h == g + 1 < |groups| && groups[g] != [] && groups[h] != [] ::
      KeyOf(groups[g], keys) != KeyOf(groups[h], keys)
  }

  /** Flattening after the last group grew by one span. */
  lemma FlattenGrown(front: seq<Group>, span: Span)
    requires front != []
    ensures Flatten(front[|front| - 1 := front[|front| - 1] + [span]]) == Flatten(front) + [span]
  {
    var n := |front| - 1;
    assert front[n := front[n] + [span]] == front[..n] + [front[n] + [span]];
    FlattenSnoc(front[..n], front[n] + [span]);
    assert front == front[..n] + [front[n]];
    FlattenSnoc(front[..n], front[n]);
    ConcatAssoc(Flatten(front[..n]), front[n], [span]);
  }

  /** The runs are the spans in order, cut exactly where the key changes. */
  lemma {:induction false} RunsCutWhereTheKeyChanges(spans: seq<Span>, keys: Keys)
    ensures Flatten(Runs(spans, keys)) == spans && Alternate(Runs(spans, keys), keys)
  {
    if spans != [] {
      var n := |spans| - 1;
      RunsCutWhereTheKeyChanges(spans[..n], keys);
      var front := Runs(spans[..n], keys);
      assert spans == spans[..n] + [spans[n]];
      if front != [] && KeyOf(front[|front| - 1], keys) == keys(spans[n].id) {
        FlattenGrown(front, spans[n]);
      } else {
        FlattenSnoc(front, [spans[n]]);
      }
    }
  }

  lemma RunsSnoc(spans: seq<Span>, span: Span, keys: Keys)
    ensures
      var front := Runs(spans, keys);
      Runs(spans + [span], keys) ==
        if front != [] && KeyOf(front[|front| - 1], keys) == keys(span.id)
        then front[|front| - 1 := front[|front| - 1] + [span]] else front + [[span]]
  {
    assert (spans + [span])[..|spans|] == spans;
  }

  /** The groups without their very last span. */
  function Shorter(groups: seq<Group>): seq<Group>
    requires groups != [] && groups[|groups| - 1] != []
  {
    groups[|groups| - 1 := groups[|groups| - 1][..|groups[|groups| - 1]| - 1]]
  }

  lemma ShorterGrown(groups: seq<Group>)
    requires groups != [] && groups[|groups| - 1] != []
    ensures
      var n := |groups| - 1;
      var span := groups[n][|groups[n]| - 1];
      |Shorter(groups)| == |groups| && Shorter(groups)[n := Shorter(groups)[n] + [span]] == groups
  {
    var n := |groups| - 1;
    assert Shorter(groups)[n] + [groups[n][|groups[n]| - 1]] == groups[n];
  }

  lemma RunsOfGrown(shorter: seq<Group>, span: Span, keys: Keys)
    requires shorter != [] && shorter[|shorter| - 1] != [] && Runs(Flatten(shorter), keys) == shorter
    requires KeyOf(shorter[|shorter| - 1], keys) == keys(span.id)
    ensures
      var n := |shorter| - 1;
      Runs(Flatten(shorter[n := shorter[n] + [span]]), keys) == shorter[n := shorter[n] + [span]]
  {
    FlattenGrown(shorter, span);
    RunsSnoc(Flatten(shorter), span, keys);
  }

  lemma RunsOfAdded(front: seq<Group>, span: Span, keys: Keys)
    requires AreGroups(front, keys) && Alternate(front + [[span]], keys) && Runs(Flatten(front), keys) == front
    ensures Runs(Flatten(front + [[span]]), keys) == front + [[span]]
  {
    FlattenSnoc(front, [span]);
    RunsSnoc(Flatten(front), span, keys);
    var groups := front + [[span]];
    if front != [] {
      assert groups[|front| - 1] == front[|front| - 1] && groups[|front|] == [span];
    }
  }

  lemma LastAlone(groups: seq<Group>)
    requires groups != [] && |groups[|groups| - 1]| == 1
    ensures groups == groups[..|groups| - 1] + [[groups[|groups| - 1][0]]]
  {
    assert groups[|groups| - 1] == [groups[|groups| - 1][0]];
  }

  lemma FrontIsGroups(groups: seq<Group>, keys: Keys)
    requires AreGroups(groups, keys) && Alternate(groups, keys) && groups != []
    ensures AreGroups(groups[..|groups| - 1], keys) && Alternate(groups[..|groups| - 1], keys)
  {
  }

  /** Such a cut is unique. */
  lemma {:induction false} RunsAreUnique(groups: seq<Group>, keys: Keys)
    requires AreGroups(groups, keys) && Alternate(groups, keys)
    ensures Runs(Flatten(groups), keys) == groups
    decreases |groups|, if groups == [] then 0 else |groups[|groups| - 1]|
  {
    if groups != [] {
      var n := |groups| - 1;
      if |groups[n]| == 1 {
        var front, span := groups[..n], groups[n][0];
        LastAlone(groups);
        FrontIsGroups(groups, keys);
        RunsAreUnique(front, keys);
        RunsOfAdded(front, span, keys);
      } else {
        ShorterAlternates(groups, keys);
        RunsAreUnique(Shorter(groups), keys);
        ShorterGrown(groups);
        RunsOfGrown(Shorter(groups), groups[n][|groups[n]| - 1], keys);
      }
    }
  }

  lemma ShorterAlternates(groups: seq<Group>, keys: Keys)
    requires AreGroups(groups, keys) && Alternate(groups, keys) && groups != [] && |groups[|groups| - 1]| > 1
    ensures AreGroups(Shorter(groups), keys) && Alternate(Shorter(groups), keys)
    ensures KeyOf(Shorter(groups)[|groups| - 1], keys) == KeyOf(groups[|groups| - 1], keys)
  {
    var last := groups[|groups| - 1];
    assert SameKey(last, keys);
    assert keys(last[|last| - 2].id) == keys(last[|last| - 1].id);
  }

  /** A prefix or suffix of the runs is the runs of its own spans. */
  lemma RunsOfPart(groups: seq<Group>, keys: Keys, from: nat, to: nat)
    requires AreGroups(groups, keys) && Alternate(groups, keys) && from <= to <= |groups|
    ensures Runs(Flatten(groups[from..to]), keys) == groups[from..to]
  {
    RunsAreUnique(groups[from..to], keys);
  }

  // ----------------------------------------------------------------- a dictionary by key

  function GroupWith(groups: seq<Group>, key: string, keys: Keys): (g: Option<nat>)
    requires forall i | 0 <= i < |groups| :: groups[i] != []
    ensures g.Some? ==> g.value < |groups| && KeyOf(groups[g.value], keys) == key
    ensures g.None? ==> forall i | 0 <= i < |groups| :: KeyOf(groups[i], keys) != key
  {
    if groups == [] then None
    else if KeyOf(groups[|groups| - 1], keys) == key then Some(|groups| - 1)
    else GroupWith(groups[..|groups| - 1], key, keys)
  }

  ghost predicate DistinctKeys(groups: seq<Group>, keys: Keys) {
    forall g, h | 0 <= g < h < |groups| && groups[g] != [] && groups[h] != [] ::
      KeyOf(groups[g], keys) != KeyOf(groups[h], keys)
  }

  /** One group for each key, in the order in which the keys first occur. */
  function ByKey(spans: seq<Span>, keys: Keys): (groups: seq<Group>)
    ensures AreGroups(groups, keys) && DistinctKeys(groups, keys)
  {
    if spans == [] then []
    else
      var front, last := ByKey(spans[..|spans| - 1], keys), spans[|spans| - 1];
      match GroupWith(front, keys(last.id), keys)
      case Some(g) => front[g := front[g] + [last]]
      case None => front + [[last]]
  }

  /** The dictionary of `_paragraphs_of` finds the group of each key. */
  ghost predicate Indexes(position: map<string, nat>, groups: seq<Group>, keys: Keys) {
    && (forall g | 0 <= g < |groups| :: groups[g] != [] && KeyOf(groups[g], keys) in position)
    && forall key | key in position :: IndexesKey(position, groups, keys, key)
  }

  ghost predicate IndexesKey(position: map<string, nat>, groups: seq<Group>, keys: Keys, key: string)
    requires key in position
  {
    position[key] < |groups| && groups[position[key]] != [] && KeyOf(groups[position[key]], keys) == key
  }

  lemma IndexFinds(position: map<string, nat>, groups: seq<Group>, keys: Keys, key: string)
    requires Indexes(position, groups, keys) && DistinctKeys(groups, keys)
    ensures GroupWith(groups, key, keys) == if key in position then Some(position[key]) else None
  {
    var found := GroupWith(groups, key, keys);
    if key in position {
      assert IndexesKey(position, groups, keys, key);
    }
  }

  /** `_paragraphs_of`: the dictionary from keys to positions, and the groups in insertion order. */
  method ParagraphsOf(spans: seq<Span>, keys: Keys) returns (groups: seq<Group>)
    ensures groups == ByKey(spans, keys)
  {
    groups := [];
    var position: map<string, nat> := map[];
    for i := 0 to |spans|
      invariant groups == ByKey(spans[..i], keys) && Indexes(position, groups, keys)
    {
      assert spans[..i + 1][..i] == spans[..i];
      var key := keys(spans[i].id);
      IndexFinds(position, groups, keys, key);
      if key in position {
        var g := position[key];
        GrowKeepsIndex(position, groups, keys, g, spans[i]);
        groups := groups[g := groups[g] + [spans[i]]];
      } else {
        AddKeepsIndex(position, groups, keys, spans[i]);
        position := position[key := |groups|];
        groups := groups + [[spans[i]]];
      }
    }
    assert spans[..|spans|] == spans;
  }

  lemma GrowKeepsIndex(position: map<string, nat>, groups: seq<Group>, keys: Keys, g: nat, span: Span)
    requires Indexes(position, groups, keys) && g < |groups| && KeyOf(groups[g], keys) == keys(span.id)
    ensures Indexes(position, groups[g := groups[g] + [span]], keys)
  {
    forall key | key in position
      ensures IndexesKey(position, groups[g := groups[g] + [span]], keys, key)
    {
      assert IndexesKey(position, groups, keys, key);
    }
  }

  lemma AddKeepsIndex(position: map<string, nat>, groups: seq<Group>, keys: Keys, span: Span)
    requires Indexes(position, groups, keys)
    ensures Indexes(position[keys(span.id) := |groups|], groups + [[span]], keys)
  {
    var position', groups' := position[keys(span.id) := |groups|], groups + [[span]];
    forall key | key in position'
      ensures IndexesKey(position', groups', keys, key)
    {
      if key != keys(span.id) {
        assert IndexesKey(position, groups, keys, key);
      }
    }
  }

  /** No key comes back after another one. */
  ghost predicate Contiguous(spans: seq<Span>, keys: Keys) {
    forall i, j, k | 0 <= i < j < k < |spans| && keys(spans[i].id) == keys(spans[k].id) ::
      keys(spans[j].id) == keys(spans[i].id)
  }

  lemma ContiguousPart(spans: seq<Span>, keys: Keys, from: nat, to: nat)
    requires from <= to <= |spans| && Contiguous(spans, keys)
    ensures Contiguous(spans[from..to], keys)
  {
    var part := spans[from..to];
    forall i, j, k | 0 <= i < j < k < |part| && keys(part[i].id) == keys(part[k].id)
      ensures keys(part[j].id) == keys(part[i].id)
    {
      assert part[i] == spans[from + i] && part[j] == spans[from + j] && part[k] == spans[from + k];
    }
  }

  lemma {:induction false} FlattenMember(groups: seq<Group>, keys: Keys, g: nat, s: nat)
    requires g < |groups| && s < |groups[g]|
    ensures exists i | 0 <= i < |Flatten(groups)| :: Flatten(groups)[i] == groups[g][s]
  {
    if g == 0 {
      assert Flatten(groups)[s] == groups[0][s];
    } else {
      FlattenMember(groups[1..], keys, g - 1, s);
      var i :| 0 <= i < |Flatten(groups[1..])| && Flatten(groups[1..])[i] == groups[g][s];
      assert Flatten(groups)[|groups[0]| + i] == groups[g][s];
    }
  }

  /** Every group of the runs has a span with its key. */
  lemma SpanOfGroup(spans: seq<Span>, keys: Keys, g: nat) returns (i: nat)
    requires g < |Runs(spans, keys)|
    ensures i < |spans| && keys(spans[i].id) == KeyOf(Runs(spans, keys)[g], keys)
  {
    var groups := Runs(spans, keys);
    RunsCutWhereTheKeyChanges(spans, keys);
    FlattenMember(groups, keys, g, |groups[g]| - 1);
    i :| 0 <= i < |Flatten(groups)| && Flatten(groups)[i] == groups[g][|groups[g]| - 1];
  }

  /** With contiguous keys, the key of the last span can only be that of the last group before it. */
  lemma OnlyTheLastGroupGrows(front: seq<Span>, span: Span, keys: Keys, g: nat)
    requires Contiguous(front + [span], keys) && g < |Runs(front, keys)|
    requires KeyOf(Runs(front, keys)[g], keys) == keys(span.id)
    ensures KeyOf(Runs(front, keys)[|Runs(front, keys)| - 1], keys) == keys(span.id)
  {
    var i := SpanOfGroup(front, keys, g);
    var all, n := front + [span], |front|;
    assert all[i] == front[i] && all[n] == span && all[n - 1] == front[n - 1];
  }

  /** With contiguous keys the two groupings are the same. */
  lemma {:induction false} ByKeyIsRuns(spans: seq<Span>, keys: Keys)
    requires Contiguous(spans, keys)
    ensures ByKey(spans, keys) == Runs(spans, keys)
  {
    if spans != [] {
      var n := |spans| - 1;
      ContiguousPart(spans, keys, 0, n);
      assert spans[0..n] == spans[..n];
      ByKeyIsRuns(spans[..n], keys);
      var front := ByKey(spans[..n], keys);
      var found := GroupWith(front, keys(spans[n].id), keys);
      if found.Some? {
        assert spans == spans[..n] + [spans[n]];
        OnlyTheLastGroupGrows(spans[..n], spans[n], keys, found.value);
        assert found.value == |front| - 1;
      }
    }
  }

  lemma {:induction false} FlattenKeys(groups: seq<Group>, keys: Keys, i: nat)
    requires AreGroups(groups, keys) && i < |Flatten(groups)|
    ensures exists g | 0 <= g < |groups| :: keys(Flatten(groups)[i].id) == KeyOf(groups[g], keys)
  {
    if i < |groups[0]| {
      assert SameKey(groups[0], keys);
      assert Flatten(groups)[i] == groups[0][i];
      assert keys(Flatten(groups)[i].id) == KeyOf(groups[0], keys);
    } else {
      FlattenKeys(groups[1..], keys, i - |groups[0]|);
      var g :| 0 <= g < |groups[1..]| && keys(Flatten(groups[1..])[i - |groups[0]|].id) == KeyOf(groups[1..][g], keys);
      assert keys(Flatten(groups)[i].id) == KeyOf(groups[g + 1], keys);
    }
  }

  lemma {:induction false} DistinctGroupsAreContiguous(groups: seq<Group>, keys: Keys)
    requires AreGroups(groups, keys) && DistinctKeys(groups, keys)
    ensures Contiguous(Flatten(groups), keys)
  {
    if groups != [] {
      var first, rest := groups[0], Flatten(groups[1..]);
      var spans := Flatten(groups);
      DistinctGroupsAreContiguous(groups[1..], keys);
      assert SameKey(first, keys);
      forall k | 0 <= k < |rest|
        ensures keys(rest[k].id) != KeyOf(first, keys)
      {
        FlattenKeys(groups[1..], keys, k);
      }
      forall i, j, k | 0 <= i < j < k < |spans| && keys(spans[i].id) == keys(spans[k].id)
        ensures keys(spans[j].id) == keys(spans[i].id)
      {
        SameSide(first, rest, keys, i, j, k);
      }
    }
  }

  lemma SameSide(first: Group, rest: seq<Span>, keys: Keys, i: nat, j: nat, k: nat)
    requires first != [] && SameKey(first, keys) && Contiguous(rest, keys)
    requires forall m | 0 <= m < |rest| :: keys(rest[m].id) != KeyOf(first, keys)
    requires i < j < k < |first + rest| && keys((first + rest)[i].id) == keys((first + rest)[k].id)
    ensures keys((first + rest)[j].id) == keys((first + rest)[i].id)
  {
    var n := |first|;
    if k >= n {
      assert (first + rest)[k] == rest[k - n];
      assert i >= n;
      assert (first + rest)[i] == rest[i - n] && (first + rest)[j] == rest[j - n];
    }
  }

  /** The dictionary keeps the spans in order exactly if no key recurs; then it makes the runs. */
  lemma ByKeyKeepsOrderIff(spans: seq<Span>, keys: Keys)
    ensures Flatten(ByKey(spans, keys)) == spans <==> Contiguous(spans, keys)
    ensures Contiguous(spans, keys) ==> ByKey(spans, keys) == Runs(spans, keys)
  {
    if Contiguous(spans, keys) {
      ByKeyIsRuns(spans, keys);
      RunsCutWhereTheKeyChanges(spans, keys);
    }
    DistinctGroupsAreContiguous(ByKey(spans, keys), keys);
  }
}
