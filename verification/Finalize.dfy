/** End of the book (`finalize`): single-token names join the one multi-token name that contains them, provisional
    entries that never spoke go, and the remaining provisional names are capitalized. */
module Finalize {
  import opened Common
  import opened Names
  import opened Bible
  import Text

  predicate IsMulti(e: Entry) {
    !e.provisional && |Text.Tokens(e.name)| > 1
  }

  predicate IsSingle(e: Entry) {
    !e.provisional && |Text.Tokens(e.name)| == 1
  }

  predicate Hosts(e: Entry, single: string) {
    IsMulti(e) && IsTokenSubset(single, e.name)
  }

  function HostsOf(cast: Cast, single: string): (hosts: seq<nat>)
    ensures forall h | 0 <= h < |hosts| :: hosts[h] < |cast| && Hosts(cast[hosts[h]], single)
  {
    Select(cast, (e: Entry) => Hosts(e, single))
  }

  /** `_absorb`. */
  function Absorb(host: Entry, other: Entry): Entry {
    Entry(
      host.name, Merged(host.name, host.aliases + ([other.name] + other.aliases)),
      Known(host.gender, other.gender), Known(host.age, other.age), Longer(host.description, other.description),
      if other.firstChapter != 0 && (host.firstChapter == 0 || other.firstChapter < host.firstChapter)
        then other.firstChapter else host.firstChapter,
      host.lineCount + other.lineCount, host.provisional)
  }

  function IndexOf(cast: Cast, e: Entry): (i: Option<nat>)
    ensures i.Some? ==> i.value < |cast| && cast[i.value] == e
    ensures i.None? ==> e !in cast
  {
    if cast == [] then None
    else if cast[0] == e then Some(0)
    else match IndexOf(cast[1..], e) case Some(i) => Some(i + 1) case None => None
  }

  /** `list.remove`: the first equal entry goes. */
  function RemoveFirst(cast: Cast, e: Entry): Cast {
    match IndexOf(cast, e) case Some(i) => cast[..i] + cast[i + 1..] case None => cast
  }

  /** One turn of the first loop. */
  function AbsorbOne(cast: Cast, single: Entry): Cast {
    var hosts := HostsOf(cast, single.name);
    if |hosts| == 1 then RemoveFirst(cast[hosts[0] := Absorb(cast[hosts[0]], single)], single) else cast
  }

  function AbsorbAll(cast: Cast, singles: Cast): Cast
    decreases |singles|
  {
    if singles == [] then cast else AbsorbAll(AbsorbOne(cast, singles[0]), singles[1..])
  }

  function Singles(cast: Cast): (r: Cast)
    ensures forall i | 0 <= i < |r| :: IsSingle(r[i])
  {
    if cast == [] then [] else (if IsSingle(cast[0]) then [cast[0]] else []) + Singles(cast[1..])
  }

  function Tidy(e: Entry): Entry {
    if e.provisional then e.(name := TitleCase(e.name)) else e
  }

  function Survivors(cast: Cast): Cast {
    if cast == [] then []
    else
      var front, last := Survivors(cast[..|cast| - 1]), cast[|cast| - 1];
      if Lasting(last) then front + [Tidy(last)] else front
  }

  function Finalized(cast: Cast): Cast {
    Survivors(AbsorbAll(cast, Singles(cast)))
  }

  /** `finalize`. */
  method FinalizeBible(cast: Cast) returns (out: Cast)
    ensures out == Finalized(cast)
  {
    var characters := cast;
    var singles := Singles(cast);
    var k := 0;
    assert singles[0..] == singles;
    while k < |singles|
      invariant k <= |singles| && AbsorbAll(characters, singles[k..]) == AbsorbAll(cast, singles)
    {
      assert singles[k..][1..] == singles[k + 1..];
      var hosts := HostsOf(characters, singles[k].name);
      if |hosts| == 1 {
        characters := characters[hosts[0] := Absorb(characters[hosts[0]], singles[k])];
        characters := RemoveFirst(characters, singles[k]);
      }
      k := k + 1;
    }
    out := [];
    for i := 0 to |characters|
      invariant out == Survivors(characters[..i])
    {
      assert characters[..i + 1][..i] == characters[..i];
      var entry := characters[i];
      if entry.provisional && entry.lineCount == 0 {
        continue;
      }
      if entry.provisional {
        entry := entry.(name := TitleCase(entry.name));
      }
      out := out + [entry];
    }
    assert characters[..|characters|] == characters;
  }

  // ----------------------------------------------------------------- no name is lost

  lemma AbsorbKeepsNames(host: Entry, other: Entry, key: NameKey)
    requires Findable(key) && (Matches(host, key) || Matches(other, key))
    ensures Matches(Absorb(host, other), key)
  {
    var merged := Absorb(host, other);
    var all := host.aliases + ([other.name] + other.aliases);
    MatchesIsAnyKey(host, key);
    MatchesIsAnyKey(other, key);
    MatchesIsAnyKey(merged, key);
    AnyKeyConcat([other.name], other.aliases, key);
    AnyKeyConcat(host.aliases, [other.name] + other.aliases, key);
    SingleKey(other.name);
    if AnyKey(all, key) {
      MergedKeepsKeys(host.name, all, key);
    }
  }

  lemma RemoveKeepsOthers(cast: Cast, e: Entry, j: nat)
    requires j < |cast| && cast[j] != e
    ensures exists k | 0 <= k < |RemoveFirst(cast, e)| :: RemoveFirst(cast, e)[k] == cast[j]
  {
    var i := IndexOf(cast, e);
    if i.Some? {
      var k := if j < i.value then j else j - 1;
      assert RemoveFirst(cast, e)[k] == cast[j];
    } else {
      assert RemoveFirst(cast, e)[j] == cast[j];
    }
  }

  lemma AbsorbOneKeepsNames(cast: Cast, single: Entry, key: NameKey)
    requires Findable(key) && IsSingle(single) && Kept(cast, key)
    ensures Kept(AbsorbOne(cast, single), key)
  {
    var hosts := HostsOf(cast, single.name);
    if |hosts| == 1 {
      var h := hosts[0];
      var i :| 0 <= i < |cast| && Matches(cast[i], key) && Lasting(cast[i]);
      var absorbed := cast[h := Absorb(cast[h], single)];
      var j := if cast[i] == single then h else i;
      if j == h {
        AbsorbKeepsNames(cast[h], single, key);
      }
      assert Matches(absorbed[j], key) && Lasting(absorbed[j]) && absorbed[j] != single;
      RemoveKeepsOthers(absorbed, single, j);
    }
  }

  lemma {:induction false} AbsorbKeepsAllNames(cast: Cast, singles: Cast, key: NameKey)
    requires Findable(key) && Kept(cast, key) && forall i | 0 <= i < |singles| :: IsSingle(singles[i])
    ensures Kept(AbsorbAll(cast, singles), key)
    decreases |singles|
  {
    if singles != [] {
      AbsorbOneKeepsNames(cast, singles[0], key);
      AbsorbKeepsAllNames(AbsorbOne(cast, singles[0]), singles[1..], key);
    }
  }

  lemma TidyKeepsNames(e: Entry, key: NameKey)
    requires Matches(e, key)
    ensures Matches(Tidy(e), key)
  {
    TitleCaseKeepsKey(e.name);
  }

  lemma InCastSnoc(cast: Cast, e: Entry, key: NameKey)
    ensures InCast(cast, key) || Matches(e, key) ==> InCast(cast + [e], key)
  {
    AddedEntryKeepsNames(cast, e, key);
  }

  lemma SurvivorsStep(cast: Cast, key: NameKey)
    requires cast != []
    ensures
      var front, last := cast[..|cast| - 1], cast[|cast| - 1];
      InCast(Survivors(front), key) || (Lasting(last) && Matches(Tidy(last), key)) ==> InCast(Survivors(cast), key)
  {
    var front, last := cast[..|cast| - 1], cast[|cast| - 1];
    InCastSnoc(Survivors(front), Tidy(last), key);
  }

  lemma {:induction false} SurvivorsKeepNames(cast: Cast, key: NameKey)
    requires Kept(cast, key)
    ensures InCast(Survivors(cast), key)
  {
    var front, last := cast[..|cast| - 1], cast[|cast| - 1];
    var i :| 0 <= i < |cast| && Matches(cast[i], key) && Lasting(cast[i]);
    SurvivorsStep(cast, key);
    if i < |front| {
      assert Kept(front, key) by {
        assert Matches(front[i], key) && Lasting(front[i]);
      }
      SurvivorsKeepNames(front, key);
    } else {
      TidyKeepsNames(last, key);
    }
  }

  /** Every name of an entry with a proper name, or that has spoken, is still found at the end. */
  lemma FinalizeKeepsNames(cast: Cast, key: NameKey)
    requires Findable(key) && Kept(cast, key)
    ensures InCast(Finalized(cast), key)
  {
    AbsorbKeepsAllNames(cast, Singles(cast), key);
    SurvivorsKeepNames(AbsorbAll(cast, Singles(cast)), key);
  }

  // ----------------------------------------------------------------- and no other name is found

  lemma AbsorbAddsNoNames(host: Entry, other: Entry, key: NameKey)
    requires Matches(Absorb(host, other), key)
    ensures Matches(host, key) || Matches(other, key)
  {
    var all := host.aliases + ([other.name] + other.aliases);
    MatchesIsAnyKey(Absorb(host, other), key);
    MatchesIsAnyKey(host, key);
    MatchesIsAnyKey(other, key);
    if key != Key(host.name) {
      MergedHasNoOtherKeys(host.name, all, key);
      AnyKeyConcat(host.aliases, [other.name] + other.aliases, key);
      AnyKeyConcat([other.name], other.aliases, key);
    }
  }

  lemma RemovedHasNoOthers(cast: Cast, e: Entry, k: nat)
    requires k < |RemoveFirst(cast, e)|
    ensures exists j | 0 <= j < |cast| :: cast[j] == RemoveFirst(cast, e)[k]
  {
    var i := IndexOf(cast, e);
    var j := if i.Some? && k >= i.value then k + 1 else k;
    assert cast[j] == RemoveFirst(cast, e)[k];
  }

  lemma AbsorbOneAddsNoNames(cast: Cast, single: Entry, key: NameKey)
    requires IsSingle(single) && single in cast && Kept(AbsorbOne(cast, single), key)
    ensures Kept(cast, key)
  {
    var hosts := HostsOf(cast, single.name);
    if |hosts| == 1 {
      var h := hosts[0];
      var absorbed := cast[h := Absorb(cast[h], single)];
      var after := RemoveFirst(absorbed, single);
      var k :| 0 <= k < |after| && Matches(after[k], key) && Lasting(after[k]);
      RemovedHasNoOthers(absorbed, single, k);
      var j :| 0 <= j < |absorbed| && absorbed[j] == after[k];
      if j == h {
        AbsorbAddsNoNames(cast[h], single, key);
        var i :| 0 <= i < |cast| && cast[i] == single;
        assert Matches(cast[h], key) || Matches(cast[i], key);
      } else {
        assert cast[j] == after[k];
      }
    }
  }

  lemma {:induction false} AbsorbAddsNoNamesAtAll(cast: Cast, singles: Cast, key: NameKey)
    requires AllThere(cast, singles) && forall i | 0 <= i < |singles| :: IsSingle(singles[i])
    requires Kept(AbsorbAll(cast, singles), key)
    ensures Kept(cast, key)
    decreases |singles|
  {
    if singles != [] {
      AbsorbOneStep(cast, singles);
      AbsorbAddsNoNamesAtAll(AbsorbOne(cast, singles[0]), singles[1..], key);
      AbsorbOneAddsNoNames(cast, singles[0], key);
    }
  }

  lemma {:induction false} SurvivorsHaveNoOtherNames(cast: Cast, key: NameKey)
    requires InCast(Survivors(cast), key)
    ensures Kept(cast, key)
  {
    var n := |cast| - 1;
    var front, last := Survivors(cast[..n]), cast[n];
    var i :| 0 <= i < |Survivors(cast)| && Matches(Survivors(cast)[i], key);
    if i < |front| {
      assert Matches(front[i], key);
      SurvivorsHaveNoOtherNames(cast[..n], key);
      var j :| 0 <= j < n && Matches(cast[..n][j], key) && Lasting(cast[..n][j]);
      assert Matches(cast[j], key) && Lasting(cast[j]);
    } else {
      TitleCaseKeepsKey(last.name);
      assert Matches(last, key) && Lasting(last);
    }
  }

  /** `finalize` finds exactly the names of the entries that have a proper name or have spoken. */
  lemma FinalizeFindsIff(cast: Cast, key: NameKey)
    requires Findable(key)
    ensures InCast(Finalized(cast), key) <==> Kept(cast, key)
  {
    if Kept(cast, key) {
      FinalizeKeepsNames(cast, key);
    }
    if InCast(Finalized(cast), key) {
      SurvivorsHaveNoOtherNames(AbsorbAll(cast, Singles(cast)), key);
      AllSinglesAreThere(cast);
      AbsorbAddsNoNamesAtAll(cast, Singles(cast), key);
    }
  }

  // ----------------------------------------------------------------- no line is lost, and the merging is complete

  function Is(x: Entry): Entry -> nat {
    (e: Entry) => if e == x then 1 else 0
  }

  function HostWeight(single: string): Entry -> nat {
    (e: Entry) => if Hosts(e, single) then 1 else 0
  }

  lemma {:induction false} HostsAreCounted(cast: Cast, single: string)
    ensures |HostsOf(cast, single)| == Total(cast, HostWeight(single))
  {
    if cast != [] {
      var n := |cast| - 1;
      HostsAreCounted(cast[..n], single);
      assert cast == cast[..n] + [cast[n]];
      TotalAdded(cast[..n], cast[n], HostWeight(single));
    }
  }

  lemma {:induction false} CountedIsIn(cast: Cast, x: Entry)
    ensures Total(cast, Is(x)) > 0 <==> x in cast
  {
    if cast != [] {
      CountedIsIn(cast[1..], x);
    }
  }

  lemma TotalRemoved(cast: Cast, x: Entry, weight: Entry -> nat)
    requires x in cast
    ensures Total(RemoveFirst(cast, x), weight) + weight(x) == Total(cast, weight)
  {
    var i := IndexOf(cast, x).value;
    TotalAround(cast, i, weight);
    TotalConcat(cast[..i], cast[i + 1..], weight);
  }

  /** Absorbing moves weights from the single to its host. */
  lemma TotalAbsorbed(cast: Cast, single: Entry, weight: Entry -> nat)
    requires IsSingle(single) && single in cast && |HostsOf(cast, single.name)| == 1
    ensures
      var host := cast[HostsOf(cast, single.name)[0]];
      Total(AbsorbOne(cast, single), weight) + weight(host) + weight(single)
      == Total(cast, weight) + weight(Absorb(host, single))
  {
    var h := HostsOf(cast, single.name)[0];
    var absorbed := cast[h := Absorb(cast[h], single)];
    TotalReplaced(cast, h, Absorb(cast[h], single), weight);
    var i :| 0 <= i < |cast| && cast[i] == single;
    assert absorbed[i] == single;
    TotalRemoved(absorbed, single, weight);
  }

  /** The singles still to be looked at are all there. */
  ghost predicate AllThere(cast: Cast, singles: Cast) {
    forall x | IsSingle(x) :: Total(singles, Is(x)) <= Total(cast, Is(x))
  }

  lemma AbsorbOneStep(cast: Cast, singles: Cast)
    requires singles != [] && AllThere(cast, singles) && IsSingle(singles[0])
    ensures singles[0] in cast
    ensures AllThere(AbsorbOne(cast, singles[0]), singles[1..])
    ensures Lines(AbsorbOne(cast, singles[0])) == Lines(cast)
  {
    var single := singles[0];
    assert Total(singles, Is(single)) >= 1;
    CountedIsIn(cast, single);
    if |HostsOf(cast, single.name)| == 1 {
      TotalAbsorbed(cast, single, LineWeight());
    }
    forall x | IsSingle(x)
      ensures Total(singles[1..], Is(x)) <= Total(AbsorbOne(cast, single), Is(x))
    {
      if |HostsOf(cast, single.name)| == 1 {
        TotalAbsorbed(cast, single, Is(x));
      }
    }
  }

  lemma {:induction false} AbsorbKeepsLines(cast: Cast, singles: Cast)
    requires AllThere(cast, singles) && forall i | 0 <= i < |singles| :: IsSingle(singles[i])
    ensures Lines(AbsorbAll(cast, singles)) == Lines(cast)
    decreases |singles|
  {
    if singles != [] {
      AbsorbOneStep(cast, singles);
      AbsorbKeepsLines(AbsorbOne(cast, singles[0]), singles[1..]);
    }
  }

  lemma {:induction false} SinglesAreThere(cast: Cast, x: Entry)
    ensures Total(Singles(cast), Is(x)) == if IsSingle(x) then Total(cast, Is(x)) else 0
  {
    if cast != [] {
      SinglesAreThere(cast[1..], x);
      TotalConcat(if IsSingle(cast[0]) then [cast[0]] else [], Singles(cast[1..]), Is(x));
    }
  }

  lemma AllSinglesAreThere(cast: Cast)
    ensures AllThere(cast, Singles(cast))
  {
    forall x | IsSingle(x)
      ensures Total(Singles(cast), Is(x)) <= Total(cast, Is(x))
    {
      SinglesAreThere(cast, x);
    }
  }

  lemma {:induction false} SurvivorsKeepTotal(cast: Cast, weight: Entry -> nat)
    requires forall e :: weight(e) == if Lasting(e) then weight(Tidy(e)) else 0
    ensures Total(Survivors(cast), weight) == Total(cast, weight)
  {
    if cast != [] {
      var n := |cast| - 1;
      SurvivorsKeepTotal(cast[..n], weight);
      assert cast == cast[..n] + [cast[n]];
      TotalAdded(cast[..n], cast[n], weight);
      if Lasting(cast[n]) {
        TotalAdded(Survivors(cast[..n]), Tidy(cast[n]), weight);
      }
    }
  }

  /** `finalize` loses no counted line. */
  lemma FinalizeKeepsLines(cast: Cast)
    ensures Lines(Finalized(cast)) == Lines(cast)
  {
    AllSinglesAreThere(cast);
    AbsorbKeepsLines(cast, Singles(cast));
    SurvivorsKeepTotal(AbsorbAll(cast, Singles(cast)), LineWeight());
  }

  lemma AbsorbOneKeepsHosts(cast: Cast, single: Entry, name: string)
    requires IsSingle(single) && single in cast
    ensures |HostsOf(AbsorbOne(cast, single), name)| == |HostsOf(cast, name)|
  {
    HostsAreCounted(cast, name);
    HostsAreCounted(AbsorbOne(cast, single), name);
    if |HostsOf(cast, single.name)| == 1 {
      TotalAbsorbed(cast, single, HostWeight(name));
    }
  }

  /** An entry that has exactly one host loses one copy for each time it is looked at; the others lose none. */
  lemma {:induction false} AbsorbedCopies(cast: Cast, singles: Cast, x: Entry)
    requires AllThere(cast, singles) && forall i | 0 <= i < |singles| :: IsSingle(singles[i])
    requires IsSingle(x)
    ensures |HostsOf(AbsorbAll(cast, singles), x.name)| == |HostsOf(cast, x.name)|
    ensures Total(AbsorbAll(cast, singles), Is(x)) ==
      Total(cast, Is(x)) - if |HostsOf(cast, x.name)| == 1 then Total(singles, Is(x)) else 0
    decreases |singles|
  {
    if singles != [] {
      AbsorbOneStep(cast, singles);
      AbsorbOneKeepsHosts(cast, singles[0], x.name);
      AbsorbedCopies(AbsorbOne(cast, singles[0]), singles[1..], x);
      if |HostsOf(cast, singles[0].name)| == 1 {
        TotalAbsorbed(cast, singles[0], Is(x));
      }
    }
  }

  lemma {:induction false} SurvivorWasThere(cast: Cast, x: Entry)
    requires x in Survivors(cast) && !x.provisional
    ensures x in cast
  {
    var n := |cast| - 1;
    if Lasting(cast[n]) && x == Tidy(cast[n]) {
      assert x == cast[n];
    } else {
      SurvivorWasThere(cast[..n], x);
    }
  }

  /** Afterwards no single-token name has exactly one host: all merging that could be done was done. */
  lemma FinalizeIsComplete(cast: Cast, x: Entry)
    requires x in Finalized(cast) && IsSingle(x)
    ensures |HostsOf(Finalized(cast), x.name)| == |HostsOf(cast, x.name)| != 1
  {
    var absorbed := AbsorbAll(cast, Singles(cast));
    AllSinglesAreThere(cast);
    SinglesAreThere(cast, x);
    AbsorbedCopies(cast, Singles(cast), x);
    SurvivorWasThere(absorbed, x);
    CountedIsIn(absorbed, x);
    SurvivorsKeepTotal(absorbed, HostWeight(x.name));
    HostsAreCounted(absorbed, x.name);
    HostsAreCounted(Finalized(cast), x.name);
  }
}
