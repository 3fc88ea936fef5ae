/** Character names: comparison keys, honorifics, descriptors and alias lists.
    A name is compared through its lower-cased whitespace-separated tokens. */
module Names {
  import opened Common
  import opened Text

  const HONORIFICS: set<string> := {
    "old", "young", "mr", "mrs", "ms", "miss", "dr", "captain", "sir", "lady", "lord", "aunt", "uncle"}
  const ARTICLES: set<string> := {"the", "a", "an"}

  type NameKey = seq<string>

  const NARRATOR_KEY: NameKey := ["narrator"]

  // ----------------------------------------------------------------- keys

  /** An honorific, with or without a full stop; `token` is lower-cased. */
  predicate IsHonorific(token: string) {
    token in HONORIFICS || (token != "" && token[|token| - 1] == '.' && token[..|token| - 1] in HONORIFICS)
  }

  predicate LeadsWithHonorific(key: NameKey) {
    |key| >= 2 && IsHonorific(key[0])
  }

  /** `alias_key`: honorifics count. */
  function AliasKey(name: string): (key: NameKey)
    ensures |key| == |Tokens(name)|
  {
    LowerAll(Tokens(name))
  }

  /** `normalize_name`: one leading honorific does not count. */
  function Key(name: string): NameKey {
    var key := AliasKey(name);
    if LeadsWithHonorific(key) then key[1..] else key
  }

  /** `" ".join(name.split())`. */
  function Clean(name: string): string {
    Join(Tokens(name))
  }

  lemma CleanKeepsKeys(name: string)
    ensures Tokens(Clean(name)) == Tokens(name) && AliasKey(Clean(name)) == AliasKey(name) && Key(Clean(name)) == Key(name)
  {
    TokensJoin(Tokens(name));
  }

  /** `strip_honorific`: the name without its honorific, and the full form if there was one. */
  function StripHonorific(name: string): (string, Option<string>) {
    var tokens := Tokens(name);
    if LeadsWithHonorific(AliasKey(name)) then (Join(tokens[1..]), Some(Join(tokens))) else (Join(tokens), None)
  }

  /** Either the stripped form or the full form carries the name's key. */
  lemma StrippedFormsKeepKey(name: string)
    ensures
      var (stripped, full) := StripHonorific(name);
      && (full.None? ==> Key(stripped) == Key(name) && AliasKey(stripped) == AliasKey(name))
      && (full.Some? ==> Key(full.value) == Key(name) && AliasKey(full.value) == AliasKey(name) && AliasKey(stripped) == Key(name))
      && (Tokens(name) != [] ==> Tokens(stripped) != [])
  {
    var tokens := Tokens(name);
    TokensJoin(tokens);
    if LeadsWithHonorific(AliasKey(name)) {
      assert forall i | 0 <= i < |tokens[1..]| :: IsWord(tokens[1..][i]);
      TokensJoin(tokens[1..]);
      assert LowerAll(tokens[1..]) == LowerAll(tokens)[1..];
    }
  }

  /** `is_descriptor`: "the stranger", "a rider". */
  predicate IsDescriptor(name: string) {
    var key := AliasKey(name);
    |key| >= 2 && key[0] in ARTICLES
  }

  /** `is_token_subset`: a one-token key that is one of several tokens. */
  predicate IsTokenSubset(single: string, multi: string) {
    var key, tokens := Key(single), AliasKey(multi);
    |key| == 1 && |tokens| > 1 && key[0] in tokens
  }

  /** `title_case`. */
  function TitleCase(name: string): string {
    Join(CapitalizeAll(Tokens(name)))
  }

  function CapitalizeAll(ts: seq<string>): (r: seq<string>)
    ensures |r| == |ts| && forall i | 0 <= i < |ts| :: r[i] == Capitalized(ts[i])
  {
    seq(|ts|, i requires 0 <= i < |ts| => Capitalized(ts[i]))
  }

  /** Capitalizing a name does not change what it is compared by. */
  lemma TitleCaseKeepsKey(name: string)
    ensures AliasKey(TitleCase(name)) == AliasKey(name) && Key(TitleCase(name)) == Key(name)
  {
    var tokens := Tokens(name);
    var titled := CapitalizeAll(tokens);
    forall i | 0 <= i < |tokens|
      ensures IsWord(titled[i]) && Lower(titled[i]) == Lower(tokens[i])
    {
      assert IsWord(tokens[i]);
      LowerCapitalized(tokens[i]);
    }
    TokensJoin(titled);
    assert LowerAll(titled) == LowerAll(tokens);
  }

  // ----------------------------------------------------------------- alias lists

  ghost predicate HasAliasKey(names: seq<string>, key: NameKey) {
    exists i | 0 <= i < |names| :: AliasKey(names[i]) == key
  }

  /** Some name of the list is compared by `key`. */
  ghost predicate AnyKey(names: seq<string>, key: NameKey) {
    exists i | 0 <= i < |names| :: Key(names[i]) == key
  }

  predicate Listed(names: seq<string>, key: NameKey) {
    names != [] && (AliasKey(names[|names| - 1]) == key || Listed(names[..|names| - 1], key))
  }

  lemma {:induction false} ListedIsHasAliasKey(names: seq<string>, key: NameKey)
    ensures Listed(names, key) <==> HasAliasKey(names, key)
  {
    if names != [] {
      var front := names[..|names| - 1];
      ListedIsHasAliasKey(front, key);
      if HasAliasKey(names, key) {
        var i :| 0 <= i < |names| && AliasKey(names[i]) == key;
        if i < |front| {
          assert AliasKey(front[i]) == key;
        }
      }
      if HasAliasKey(front, key) {
        var i :| 0 <= i < |front| && AliasKey(front[i]) == key;
        assert AliasKey(names[i]) == key;
      }
    }
  }

  /** The aliases in order, each the first with its key, none with the canonical name's key or blank. */
  function Merged(canonical: string, aliases: seq<string>): seq<string> {
    if aliases == [] then []
    else
      var front := Merged(canonical, aliases[..|aliases| - 1]);
      var alias := aliases[|aliases| - 1];
      var key := AliasKey(alias);
      if key == [] || key == AliasKey(canonical) || Listed(front, key) then front else front + [Clean(alias)]
  }

  /** The set that `merge_aliases` keeps beside its output. */
  ghost predicate SeenExactly(seen: set<NameKey>, canonical: string, out: seq<string>) {
    forall key :: key in seen <==> key == AliasKey(canonical) || Listed(out, key)
  }

  lemma MergedSnoc(canonical: string, aliases: seq<string>, alias: string)
    ensures
      var front, key := Merged(canonical, aliases), AliasKey(alias);
      Merged(canonical, aliases + [alias]) ==
        if key == [] || key == AliasKey(canonical) || Listed(front, key) then front else front + [Clean(alias)]
  {
    assert (aliases + [alias])[..|aliases|] == aliases;
  }

  lemma SeenSnoc(seen: set<NameKey>, canonical: string, out: seq<string>, alias: string)
    requires SeenExactly(seen, canonical, out)
    ensures SeenExactly(seen + {AliasKey(alias)}, canonical, out + [alias])
  {
    assert (out + [alias])[..|out|] == out;
  }

  /** One group of `merge_aliases`. */
  method MergeGroup(canonical: string, ghost before: seq<string>, group: seq<string>, seen: set<NameKey>, out: seq<string>)
    returns (seen': set<NameKey>, out': seq<string>)
    requires out == Merged(canonical, before) && SeenExactly(seen, canonical, out)
    ensures out' == Merged(canonical, before + group) && SeenExactly(seen', canonical, out')
  {
    seen', out' := seen, out;
    assert before + group[..0] == before;
    for a := 0 to |group|
      invariant out' == Merged(canonical, before + group[..a]) && SeenExactly(seen', canonical, out')
    {
      assert before + group[..a + 1] == (before + group[..a]) + [group[a]];
      MergedSnoc(canonical, before + group[..a], group[a]);
      var alias := Clean(group[a]);
      CleanKeepsKeys(group[a]);
      var key := AliasKey(alias);
      if key == [] || key in seen' {
        continue;
      }
      SeenSnoc(seen', canonical, out', alias);
      seen' := seen' + {key};
      out' := out' + [alias];
    }
    assert group[..|group|] == group;
  }

  /** `merge_aliases`. */
  method MergeAliases(canonical: string, groups: seq<seq<string>>) returns (out: seq<string>)
    ensures out == Merged(canonical, Flatten(groups))
  {
    out := [];
    var seen := {AliasKey(canonical)};
    for g := 0 to |groups|
      invariant out == Merged(canonical, Flatten(groups[..g])) && SeenExactly(seen, canonical, out)
    {
      FlattenSnoc(groups[..g], groups[g]);
      assert groups[..g + 1] == groups[..g] + [groups[g]];
      seen, out := MergeGroup(canonical, Flatten(groups[..g]), groups[g], seen, out);
    }
    assert groups[..|groups|] == groups;
  }

  /** No alias key is lost, except that of the canonical name itself. */
  lemma {:induction false} MergedKeepsAliasKeys(canonical: string, aliases: seq<string>, i: nat)
    requires i < |aliases| && AliasKey(aliases[i]) != []
    ensures AliasKey(aliases[i]) == AliasKey(canonical) || HasAliasKey(Merged(canonical, aliases), AliasKey(aliases[i]))
  {
    var front := aliases[..|aliases| - 1];
    var merged, merged' := Merged(canonical, front), Merged(canonical, aliases);
    var key := AliasKey(aliases[i]);
    if i < |front| {
      MergedKeepsAliasKeys(canonical, front, i);
      if HasAliasKey(merged, key) {
        var j :| 0 <= j < |merged| && AliasKey(merged[j]) == key;
        assert merged'[j] == merged[j];
      }
    } else {
      ListedIsHasAliasKey(merged, key);
      CleanKeepsKeys(aliases[i]);
      if merged' != merged {
        assert AliasKey(merged'[|merged|]) == key;
      }
    }
  }

  /** Hence no name becomes unfindable by merging alias lists. */
  lemma MergedKeepsKeys(canonical: string, aliases: seq<string>, key: NameKey)
    requires AnyKey(aliases, key) && key != []
    ensures key == Key(canonical) || AnyKey(Merged(canonical, aliases), key)
  {
    var i :| 0 <= i < |aliases| && Key(aliases[i]) == key;
    MergedKeepsAliasKeys(canonical, aliases, i);
    var merged := Merged(canonical, aliases);
    if AliasKey(aliases[i]) != AliasKey(canonical) {
      var j :| 0 <= j < |merged| && AliasKey(merged[j]) == AliasKey(aliases[i]);
      assert Key(merged[j]) == key;
    }
  }

  /** Nor does a merged list carry any other key. */
  lemma {:induction false} MergedHasNoOtherKeys(canonical: string, aliases: seq<string>, key: NameKey)
    requires AnyKey(Merged(canonical, aliases), key)
    ensures AnyKey(aliases, key)
  {
    var front, last := aliases[..|aliases| - 1], aliases[|aliases| - 1];
    var merged, merged' := Merged(canonical, front), Merged(canonical, aliases);
    var i :| 0 <= i < |merged'| && Key(merged'[i]) == key;
    if i < |merged| {
      assert Key(merged[i]) == key;
      MergedHasNoOtherKeys(canonical, front, key);
      var j :| 0 <= j < |front| && Key(front[j]) == key;
      assert Key(aliases[j]) == key;
    } else {
      CleanKeepsKeys(last);
      assert Key(aliases[|front|]) == key;
    }
  }

  /** No two aliases with the same key and none that repeats the canonical name. */
  ghost predicate DistinctAliases(canonical: string, aliases: seq<string>) {
    && (forall i, j | 0 <= i < j < |aliases| :: AliasKey(aliases[i]) != AliasKey(aliases[j]))
    && (forall i | 0 <= i < |aliases| :: AliasKey(aliases[i]) != AliasKey(canonical) && AliasKey(aliases[i]) != [])
  }

  lemma DistinctSnoc(canonical: string, aliases: seq<string>, alias: string)
    requires DistinctAliases(canonical, aliases) && !HasAliasKey(aliases, AliasKey(alias))
    requires AliasKey(alias) != [] && AliasKey(alias) != AliasKey(canonical)
    ensures DistinctAliases(canonical, aliases + [alias])
  {
  }

  lemma {:induction false} MergedIsDistinct(canonical: string, aliases: seq<string>)
    ensures DistinctAliases(canonical, Merged(canonical, aliases))
  {
    if aliases != [] {
      var front, alias := Merged(canonical, aliases[..|aliases| - 1]), aliases[|aliases| - 1];
      MergedIsDistinct(canonical, aliases[..|aliases| - 1]);
      ListedIsHasAliasKey(front, AliasKey(alias));
      CleanKeepsKeys(alias);
      if Merged(canonical, aliases) != front {
        DistinctSnoc(canonical, front, Clean(alias));
      }
    }
  }
}
