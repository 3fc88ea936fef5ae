/** The cast bible: who is who.  Updates from the analyzer and spoken lines are merged into entries; operations
    return new bibles.  Voice notes and the version counter are left out. */
module Bible {
  import Book
  import opened Common
  import opened Text
  import opened Names

  const UNKNOWN := "unknown"

  datatype Entry = Entry(
    name: string, aliases: seq<string>, gender: string, age: string, description: string, firstChapter: int,
    lineCount: nat, provisional: bool)

  datatype Update = Update(
    name: string, aliases: seq<string>, gender: string, age: string, description: string, mergeInto: Option<string>)

  type Cast = seq<Entry>

  // ----------------------------------------------------------------- looking up

  predicate AnyAlias(aliases: seq<string>, key: NameKey) {
    aliases != [] && (Key(aliases[0]) == key || AnyAlias(aliases[1..], key))
  }

  lemma {:induction false} AnyAliasIsAnyKey(aliases: seq<string>, key: NameKey)
    ensures AnyAlias(aliases, key) <==> AnyKey(aliases, key)
  {
    if aliases != [] {
      AnyAliasIsAnyKey(aliases[1..], key);
      if AnyKey(aliases, key) {
        var i :| 0 <= i < |aliases| && Key(aliases[i]) == key;
        assert i > 0 ==> aliases[1..][i - 1] == aliases[i];
      }
      if AnyKey(aliases[1..], key) {
        var i :| 0 <= i < |aliases[1..]| && Key(aliases[1..][i]) == key;
        assert aliases[i + 1] == aliases[1..][i];
      }
    }
  }

  /** `matches`: the name or an alias is compared by `key`. */
  predicate Matches(entry: Entry, key: NameKey) {
    key == Key(entry.name) || AnyAlias(entry.aliases, key)
  }

  function FirstMatch(cast: Cast, key: NameKey): (i: Option<nat>)
    ensures i.Some? ==> i.value < |cast| && Matches(cast[i.value], key)
    ensures i.None? ==> forall j | 0 <= j < |cast| :: !Matches(cast[j], key)
  {
    if cast == [] then None
    else if Matches(cast[0], key) then Some(0)
    else match FirstMatch(cast[1..], key)
      case Some(i) => Some(i + 1)
      case None =>
        assert forall j | 1 <= j < |cast| :: cast[j] == cast[1..][j - 1];
        None
  }

  /** `find`. */
  function Find(cast: Cast, name: string): (i: Option<nat>)
    ensures i.Some? ==> i.value < |cast| && Matches(cast[i.value], Key(name))
  {
    if name == "" || Key(name) == NARRATOR_KEY then None else FirstMatch(cast, Key(name))
  }

  predicate Agrees(a: string, b: string) {
    a == b || a == UNKNOWN || b == UNKNOWN
  }

  /** The descriptors that denote a kind of character: (gender, age). */
  function DescriptorTraits(key: NameKey): Option<(string, string)> {
    if key == ["the", "boy"] then Some(("male", "child"))
    else if key == ["the", "girl"] then Some(("female", "child"))
    else if key == ["the", "old", "man"] then Some(("male", "elderly"))
    else if key == ["the", "old", "woman"] then Some(("female", "elderly"))
    else None
  }

  predicate HasTraits(entry: Entry, traits: (string, string)) {
    !entry.provisional && entry.age == traits.1 && Agrees(entry.gender, traits.0)
  }

  /** Positions, in order, of the entries that `p` selects. */
  function Select(cast: Cast, p: Entry -> bool): (hits: seq<nat>)
    ensures forall h | 0 <= h < |hits| :: hits[h] < |cast| && p(cast[hits[h]])
  {
    if cast == [] then []
    else
      var n := |cast| - 1;
      var front := Select(cast[..n], p);
      if p(cast[n]) then front + [n] else front
  }

  /** `resolve_descriptor`: the only entry with the traits that the descriptor denotes. */
  function ResolveDescriptor(cast: Cast, name: string): (i: Option<nat>)
    ensures i.Some? ==> i.value < |cast| && !cast[i.value].provisional
  {
    var traits := DescriptorTraits(AliasKey(name));
    if traits.None? then None
    else
      var hits := Select(cast, (e: Entry) => HasTraits(e, traits.value));
      if |hits| == 1 then Some(hits[0]) else None
  }

  // ----------------------------------------------------------------- finding the entry an update is about

  predicate TraitsAgree(entry: Entry, update: Update) {
    Agrees(entry.gender, update.gender) && Agrees(entry.age, update.age)
  }

  /** The first alias that names an entry whose traits do not contradict the update's. */
  function AliasTarget(cast: Cast, update: Update, aliases: seq<string>): (i: Option<nat>)
    ensures i.Some? ==> i.value < |cast|
  {
    if aliases == [] then None
    else
      var candidate := Find(cast, aliases[0]);
      if candidate.Some? && TraitsAgree(cast[candidate.value], update) then candidate
      else AliasTarget(cast, update, aliases[1..])
  }

  predicate Related(entry: Entry, update: Update) {
    !entry.provisional && (IsTokenSubset(entry.name, update.name) || IsTokenSubset(update.name, entry.name))
  }

  /** `_subset_match`. */
  function SubsetMatch(cast: Cast, update: Update): (i: Option<nat>)
    ensures i.Some? ==> i.value < |cast|
  {
    var hosts := Select(cast, (e: Entry) => Related(e, update) && TraitsAgree(e, update));
    if |hosts| == 1 then Some(hosts[0]) else None
  }

  predicate Mentions(update: Update, entry: Entry) {
    var key := Key(entry.name);
    key != [] && (AnyAlias(update.aliases, key) || Contains(Lower(update.description), Join(key)))
  }

  /** `_provisional_match`: the first provisional entry whose descriptor the update mentions. */
  function ProvisionalMatch(cast: Cast, update: Update): (i: Option<nat>)
    ensures i.Some? ==> i.value < |cast|
  {
    var hits := Select(cast, (e: Entry) => e.provisional && TraitsAgree(e, update) && Mentions(update, e));
    if hits != [] then Some(hits[0]) else None
  }

  function OrElse(a: Option<nat>, b: Option<nat>): Option<nat> {
    if a.Some? then a else b
  }

  /** `merge_into` when it resolves, else `_find_target`. */
  function Target(cast: Cast, update: Update): (i: Option<nat>)
    ensures i.Some? ==> i.value < |cast|
  {
    var named := if update.mergeInto.Some? && update.mergeInto.value != "" then Find(cast, update.mergeInto.value) else None;
    OrElse(named,
      OrElse(Find(cast, update.name),
        OrElse(AliasTarget(cast, update, update.aliases),
          OrElse(SubsetMatch(cast, update), ProvisionalMatch(cast, update)))))
  }

  // ----------------------------------------------------------------- merging

  function Longer(a: string, b: string): string {
    if |b| > |a| then b else a
  }

  function Known(a: string, b: string): string {
    if a == UNKNOWN then b else a
  }

  /** Whether the update's name replaces the entry's. */
  predicate Renames(entry: Entry, incoming: string) {
    && incoming != "" && Key(incoming) != Key(entry.name)
    && ((entry.provisional && !IsDescriptor(incoming)) || IsTokenSubset(entry.name, incoming))
  }

  /** The aliases that `_merge_update` adds because of the two names. */
  function ExtraAliases(entry: Entry, update: Update): seq<string> {
    var (incoming, full) := StripHonorific(update.name);
    (if full.Some? then [update.name] else [])
    + if incoming == "" || Key(incoming) == Key(entry.name) then []
      else if Renames(entry, incoming) then [entry.name]
      else [incoming]
  }

  /** `_merge_update`. */
  function MergeUpdate(entry: Entry, update: Update): Entry {
    var incoming := StripHonorific(update.name).0;
    var name := if Renames(entry, incoming) then incoming else entry.name;
    Entry(
      name, Merged(name, entry.aliases + update.aliases + ExtraAliases(entry, update)),
      Known(entry.gender, update.gender), Known(entry.age, update.age), Longer(entry.description, update.description),
      entry.firstChapter, entry.lineCount, entry.provisional && !Renames(entry, incoming))
  }

  /** `_new_entry`. */
  function NewEntry(update: Update, chapter: int): Entry {
    var (name, full) := StripHonorific(update.name);
    Entry(
      name, Merged(name, update.aliases + if full.Some? then [full.value] else []), update.gender, update.age,
      update.description, chapter, 0, IsDescriptor(name))
  }

  /** One turn of the loop of `apply_updates`. */
  function ApplyUpdate(cast: Cast, update: Update, chapter: int): Cast {
    if Blank(update.name) then cast
    else match Target(cast, update)
      case Some(i) => cast[i := MergeUpdate(cast[i], update)]
      case None => cast + [NewEntry(update, chapter)]
  }

  function ApplyAll(cast: Cast, updates: seq<Update>, chapter: int): Cast {
    if updates == [] then cast
    else ApplyUpdate(ApplyAll(cast, updates[..|updates| - 1], chapter), updates[|updates| - 1], chapter)
  }

  /** `apply_updates`. */
  method ApplyUpdates(cast: Cast, updates: seq<Update>, chapter: int) returns (out: Cast)
    ensures out == ApplyAll(cast, updates, chapter)
  {
    out := cast;
    for u := 0 to |updates|
      invariant out == ApplyAll(cast, updates[..u], chapter)
    {
      assert updates[..u + 1][..u] == updates[..u];
      var update := updates[u];
      if Strip(update.name) == "" {
        StripEmpty(update.name);
        continue;
      }
      StripEmpty(update.name);
      var target := Target(out, update);
      if target.None? {
        out := out + [NewEntry(update, chapter)];
      } else {
        out := out[target.value := MergeUpdate(out[target.value], update)];
      }
    }
    assert updates[..|updates|] == updates;
  }

  // ----------------------------------------------------------------- a spoken line

  predicate IsNarrator(name: string) {
    Blank(name) || Key(name) == NARRATOR_KEY
  }

  function NewSpeaker(name: string, chapter: int): Entry {
    var (canonical, full) := StripHonorific(name);
    Entry(
      canonical, if full.Some? then [full.value] else [], UNKNOWN, UNKNOWN, "", chapter, 0, IsDescriptor(canonical))
  }

  function Counted(entry: Entry, chapter: int): Entry {
    entry.(lineCount := entry.lineCount + 1, firstChapter := if entry.firstChapter == 0 then chapter else entry.firstChapter)
  }

  /** The entry that `register_speaker` counts the line for, if it exists already. */
  function SpeakerEntry(cast: Cast, name: string): (i: Option<nat>)
    ensures i.Some? ==> i.value < |cast|
  {
    OrElse(Find(cast, name), ResolveDescriptor(cast, name))
  }

  function Registered(cast: Cast, name: string, chapter: int): Cast {
    if IsNarrator(name) then cast
    else match SpeakerEntry(cast, name)
      case Some(i) => cast[i := Counted(cast[i], chapter)]
      case None => cast + [Counted(NewSpeaker(name, chapter), chapter)]
  }

  /** `register_speaker`: the new bible and the name that the line goes to. */
  method RegisterSpeaker(cast: Cast, name: string, chapter: int) returns (out: Cast, canonical: string)
    ensures out == Registered(cast, name, chapter)
    ensures IsNarrator(name) <==> canonical == Book.NARRATOR && out == cast
    ensures !IsNarrator(name) ==>
      exists i | 0 <= i < |out| :: out[i].name == canonical && out[i].lineCount > 0
  {
    out, canonical := cast, Book.NARRATOR;
    if IsNarrator(name) {
      return;
    }
    var i := SpeakerEntry(cast, name);
    var at: nat;
    if i.Some? {
      at := i.value;
    } else {
      at := |out|;
      out := out + [NewSpeaker(name, chapter)];
    }
    out := out[at := Counted(out[at], chapter)];
    canonical := out[at].name;
    assert out[at].lineCount > 0;
  }

  // ----------------------------------------------------------------- no name is lost

  /** Any name with this key is findable. */
  predicate Findable(key: NameKey) {
    key != [] && key != NARRATOR_KEY
  }

  lemma MatchesIsAnyKey(entry: Entry, key: NameKey)
    ensures Matches(entry, key) <==> key == Key(entry.name) || AnyKey(entry.aliases, key)
  {
    AnyAliasIsAnyKey(entry.aliases, key);
  }

  lemma AnyKeyConcat(a: seq<string>, b: seq<string>, key: NameKey)
    ensures AnyKey(a + b, key) <==> AnyKey(a, key) || AnyKey(b, key)
  {
    if AnyKey(a, key) {
      var i :| 0 <= i < |a| && Key(a[i]) == key;
      assert Key((a + b)[i]) == key;
    }
    if AnyKey(b, key) {
      var i :| 0 <= i < |b| && Key(b[i]) == key;
      assert Key((a + b)[|a| + i]) == key;
    }
    if AnyKey(a + b, key) {
      var i :| 0 <= i < |a + b| && Key((a + b)[i]) == key;
      assert i < |a| ==> Key(a[i]) == key;
      assert i >= |a| ==> Key(b[i - |a|]) == key;
    }
  }

  lemma SingleKey(name: string)
    ensures AnyKey([name], Key(name))
  {
    assert [name][0] == name;
  }

  /** The name's key is carried by the stripped form, or by the update's own name among the extra aliases. */
  lemma ExtraAliasesKeepNames(entry: Entry, update: Update)
    requires Tokens(update.name) != []
    ensures
      var merged := MergeUpdate(entry, update);
      && (Key(update.name) == Key(merged.name) || Key(update.name) == Key(entry.name)
          || AnyKey(ExtraAliases(entry, update), Key(update.name)))
      && (Key(entry.name) == Key(merged.name) || AnyKey(ExtraAliases(entry, update), Key(entry.name)))
  {
    var (incoming, full) := StripHonorific(update.name);
    StrippedFormsKeepKey(update.name);
    var extra := ExtraAliases(entry, update);
    if full.Some? {
      assert extra[0] == update.name;
    } else {
      assert Key(incoming) == Key(update.name);
      assert incoming != "";
      if Key(incoming) != Key(entry.name) && !Renames(entry, incoming) {
        assert extra[0] == incoming;
      }
    }
    if Renames(entry, incoming) {
      assert extra[|extra| - 1] == entry.name;
    }
  }

  /** Merging an update loses no name of the entry and gains all names of the update. */
  lemma MergeKeepsNames(entry: Entry, update: Update, key: NameKey)
    requires Findable(key) && Tokens(update.name) != []
    requires Matches(entry, key) || key == Key(update.name) || AnyKey(update.aliases, key)
    ensures Matches(MergeUpdate(entry, update), key)
  {
    var merged := MergeUpdate(entry, update);
    var extra := ExtraAliases(entry, update);
    MatchesIsAnyKey(entry, key);
    MatchesIsAnyKey(merged, key);
    ExtraAliasesKeepNames(entry, update);
    AnyKeyConcat(entry.aliases, update.aliases, key);
    AnyKeyConcat(entry.aliases + update.aliases, extra, key);
    if AnyKey(entry.aliases + update.aliases + extra, key) {
      MergedKeepsKeys(merged.name, entry.aliases + update.aliases + extra, key);
    }
  }

  lemma NewEntryHasNames(update: Update, chapter: int, key: NameKey)
    requires Findable(key) && (key == Key(update.name) || AnyKey(update.aliases, key))
    ensures Matches(NewEntry(update, chapter), key)
  {
    var entry := NewEntry(update, chapter);
    var (name, full) := StripHonorific(update.name);
    var extra := if full.Some? then [full.value] else [];
    StrippedFormsKeepKey(update.name);
    MatchesIsAnyKey(entry, key);
    AnyKeyConcat(update.aliases, extra, key);
    if full.Some? {
      SingleKey(full.value);
    }
    if AnyKey(update.aliases + extra, key) {
      MergedKeepsKeys(name, update.aliases + extra, key);
    }
  }

  lemma NewSpeakerHasName(name: string, chapter: int)
    ensures Matches(NewSpeaker(name, chapter), Key(name))
  {
    StrippedFormsKeepKey(name);
    MatchesIsAnyKey(NewSpeaker(name, chapter), Key(name));
    var full := StripHonorific(name).1;
    if full.Some? {
      SingleKey(full.value);
    }
  }

  /** Some entry is known by `key`. */
  ghost predicate InCast(cast: Cast, key: NameKey) {
    exists i | 0 <= i < |cast| :: Matches(cast[i], key)
  }

  predicate Lasting(entry: Entry) {
    !entry.provisional || entry.lineCount > 0
  }

  /** An entry known by `key` that `finalize` will not drop: it has a proper name or has spoken. */
  ghost predicate Kept(cast: Cast, key: NameKey) {
    exists i | 0 <= i < |cast| :: Matches(cast[i], key) && Lasting(cast[i])
  }

  lemma TokensOfBlank(name: string)
    ensures Blank(name) <==> Tokens(name) == []
    decreases |name|
  {
    if name != "" {
      if IsSpace(name[0]) {
        TokensOfBlank(name[1..]);
        assert Blank(name) <==> Blank(name[1..]);
      } else {
        assert !Blank(name);
      }
    }
  }

  /** An update makes its own names findable and keeps all others so. */
  lemma UpdateKeepsNames(cast: Cast, update: Update, chapter: int, key: NameKey)
    requires Findable(key)
    ensures InCast(cast, key) ==> InCast(ApplyUpdate(cast, update, chapter), key)
    ensures Kept(cast, key) ==> Kept(ApplyUpdate(cast, update, chapter), key)
    ensures !Blank(update.name) && (key == Key(update.name) || AnyKey(update.aliases, key)) ==>
      InCast(ApplyUpdate(cast, update, chapter), key)
  {
    TokensOfBlank(update.name);
    var after := ApplyUpdate(cast, update, chapter);
    if !Blank(update.name) {
      var target := Target(cast, update);
      if target.Some? {
        UpdatedEntryKeepsNames(cast, target.value, update, key);
      } else {
        AddedEntryKeepsNames(cast, NewEntry(update, chapter), key);
        if key == Key(update.name) || AnyKey(update.aliases, key) {
          NewEntryHasNames(update, chapter, key);
        }
      }
    }
  }

  lemma AddedEntryKeepsNames(cast: Cast, entry: Entry, key: NameKey)
    ensures InCast(cast, key) || Matches(entry, key) ==> InCast(cast + [entry], key)
    ensures Kept(cast, key) || (Matches(entry, key) && Lasting(entry)) ==> Kept(cast + [entry], key)
  {
    assert (cast + [entry])[|cast|] == entry;
    assert forall i | 0 <= i < |cast| :: (cast + [entry])[i] == cast[i];
  }

  lemma UpdatedEntryKeepsNames(cast: Cast, i: nat, update: Update, key: NameKey)
    requires i < |cast| && Findable(key) && Tokens(update.name) != []
    ensures
      var after := cast[i := MergeUpdate(cast[i], update)];
      && (InCast(cast, key) ==> InCast(after, key)) && (Kept(cast, key) ==> Kept(after, key))
      && (key == Key(update.name) || AnyKey(update.aliases, key) ==> InCast(after, key))
  {
    var after := cast[i := MergeUpdate(cast[i], update)];
    if Matches(cast[i], key) || key == Key(update.name) || AnyKey(update.aliases, key) {
      MergeKeepsNames(cast[i], update, key);
      assert Matches(after[i], key);
    }
    if InCast(cast, key) {
      var j :| 0 <= j < |cast| && Matches(cast[j], key);
      assert j != i ==> after[j] == cast[j];
    }
    if Kept(cast, key) {
      var j :| 0 <= j < |cast| && Matches(cast[j], key) && Lasting(cast[j]);
      assert j != i ==> after[j] == cast[j];
      assert Lasting(after[j]);
    }
  }

  /** After `apply_updates`, every name and alias it was given, and every name known before, is known. */
  lemma {:induction false} UpdatesKeepNames(cast: Cast, updates: seq<Update>, chapter: int, key: NameKey)
    requires Findable(key)
    ensures InCast(cast, key) ==> InCast(ApplyAll(cast, updates, chapter), key)
    ensures Kept(cast, key) ==> Kept(ApplyAll(cast, updates, chapter), key)
    ensures (exists u | 0 <= u < |updates| :: IsAbout(updates[u], key)) ==> InCast(ApplyAll(cast, updates, chapter), key)
  {
    if updates != [] {
      var n := |updates| - 1;
      UpdatesKeepNames(cast, updates[..n], chapter, key);
      UpdateKeepsNames(ApplyAll(cast, updates[..n], chapter), updates[n], chapter, key);
      if u :| 0 <= u < |updates| && IsAbout(updates[u], key) {
        if u < n {
          assert IsAbout(updates[..n][u], key);
        }
      }
    }
  }

  /** The update is about someone called `key`. */
  ghost predicate IsAbout(update: Update, key: NameKey) {
    !Blank(update.name) && (key == Key(update.name) || AnyKey(update.aliases, key))
  }

  /** Counting a line keeps all names; the name itself is kept for good unless only a descriptor matched. */
  lemma RegisterKeepsNames(cast: Cast, name: string, chapter: int, key: NameKey)
    ensures InCast(cast, key) ==> InCast(Registered(cast, name, chapter), key)
    ensures Kept(cast, key) ==> Kept(Registered(cast, name, chapter), key)
  {
    if !IsNarrator(name) {
      var i := SpeakerEntry(cast, name);
      if i.Some? {
        var after := cast[i.value := Counted(cast[i.value], chapter)];
        assert forall j | 0 <= j < |cast| :: (Matches(cast[j], key) ==> Matches(after[j], key)) && (Lasting(cast[j]) ==> Lasting(after[j]));
      } else {
        AddedEntryKeepsNames(cast, Counted(NewSpeaker(name, chapter), chapter), key);
      }
    }
  }

  lemma RegisteredNameIsKept(cast: Cast, name: string, chapter: int)
    requires !IsNarrator(name) && (Find(cast, name).Some? || ResolveDescriptor(cast, name).None?)
    ensures Kept(Registered(cast, name, chapter), Key(name))
  {
    var i := SpeakerEntry(cast, name);
    var after := Registered(cast, name, chapter);
    if i.Some? {
      assert Matches(after[i.value], Key(name)) && Lasting(after[i.value]);
    } else {
      NewSpeakerHasName(name, chapter);
      var entry := Counted(NewSpeaker(name, chapter), chapter);
      assert Matches(entry, Key(name));
      AddedEntryKeepsNames(cast, entry, Key(name));
    }
  }

  /** Names in the cast are found. */
  lemma InCastIsFound(cast: Cast, name: string)
    requires name != "" && Key(name) != NARRATOR_KEY
    ensures Find(cast, name).Some? <==> InCast(cast, Key(name))
  {
  }

  // ----------------------------------------------------------------- no line is lost

  /** The weights of all entries, added up. */
  function Total(cast: Cast, weight: Entry -> nat): nat {
    if cast == [] then 0 else weight(cast[0]) + Total(cast[1..], weight)
  }

  lemma {:induction false} TotalConcat(a: Cast, b: Cast, weight: Entry -> nat)
    ensures Total(a + b, weight) == Total(a, weight) + Total(b, weight)
  {
    if a == [] {
      assert a + b == b;
    } else {
      TotalConcat(a[1..], b, weight);
      assert (a + b)[1..] == a[1..] + b;
    }
  }

  lemma TotalAround(cast: Cast, i: nat, weight: Entry -> nat)
    requires i < |cast|
    ensures Total(cast, weight) == Total(cast[..i], weight) + weight(cast[i]) + Total(cast[i + 1..], weight)
  {
    assert cast == cast[..i] + cast[i..] && cast[i..][1..] == cast[i + 1..];
    TotalConcat(cast[..i], cast[i..], weight);
  }

  lemma TotalReplaced(cast: Cast, i: nat, entry: Entry, weight: Entry -> nat)
    requires i < |cast|
    ensures Total(cast[i := entry], weight) + weight(cast[i]) == Total(cast, weight) + weight(entry)
  {
    var after := cast[i := entry];
    TotalAround(cast, i, weight);
    TotalAround(after, i, weight);
    assert after[..i] == cast[..i] && after[i + 1..] == cast[i + 1..];
  }

  lemma TotalAdded(cast: Cast, entry: Entry, weight: Entry -> nat)
    ensures Total(cast + [entry], weight) == Total(cast, weight) + weight(entry)
  {
    TotalConcat(cast, [entry], weight);
    assert [entry][1..] == [];
  }

  function LineWeight(): Entry -> nat {
    (e: Entry) => e.lineCount
  }

  function Lines(cast: Cast): nat {
    Total(cast, LineWeight())
  }

  lemma {:induction false} UpdatesKeepLines(cast: Cast, updates: seq<Update>, chapter: int)
    ensures Lines(ApplyAll(cast, updates, chapter)) == Lines(cast)
  {
    if updates != [] {
      var n := |updates| - 1;
      UpdatesKeepLines(cast, updates[..n], chapter);
      var before := ApplyAll(cast, updates[..n], chapter);
      if !Blank(updates[n].name) {
        var target := Target(before, updates[n]);
        if target.Some? {
          TotalReplaced(before, target.value, MergeUpdate(before[target.value], updates[n]), LineWeight());
        } else {
          TotalAdded(before, NewEntry(updates[n], chapter), LineWeight());
        }
      }
    }
  }

  lemma RegisterCountsOneLine(cast: Cast, name: string, chapter: int)
    ensures Lines(Registered(cast, name, chapter)) == Lines(cast) + if IsNarrator(name) then 0 else 1
  {
    if !IsNarrator(name) {
      var i := SpeakerEntry(cast, name);
      if i.Some? {
        TotalReplaced(cast, i.value, Counted(cast[i.value], chapter), LineWeight());
      } else {
        TotalAdded(cast, Counted(NewSpeaker(name, chapter), chapter), LineWeight());
      }
    }
  }
}
