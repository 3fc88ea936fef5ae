/** The cast bible over a whole book: the analyze stage applies each chunk's updates, counts each of its spoken
    lines and finalizes at the end; assembling then looks every speaker up in the final bible. */
module CastRun {
  import Book
  import opened Common
  import opened Names
  import opened Bible
  import opened Finalize
  import Text

  /** What one chunk contributes: its updates, and the speakers of its quotes other than the narrator, in order. */
  datatype Chunk = Chunk(updates: seq<Update>, speakers: seq<string>, chapter: int)

  function RegisterAll(cast: Cast, speakers: seq<string>, chapter: int): Cast {
    if speakers == [] then cast
    else Registered(RegisterAll(cast, speakers[..|speakers| - 1], chapter), speakers[|speakers| - 1], chapter)
  }

  function AfterChunk(cast: Cast, chunk: Chunk): Cast {
    RegisterAll(ApplyAll(cast, chunk.updates, chunk.chapter), chunk.speakers, chunk.chapter)
  }

  function AfterChunks(chunks: seq<Chunk>): Cast {
    if chunks == [] then [] else AfterChunk(AfterChunks(chunks[..|chunks| - 1]), chunks[|chunks| - 1])
  }

  function FinalCast(chunks: seq<Chunk>): Cast {
    Finalized(AfterChunks(chunks))
  }

  /** The lines of one chunk. */
  method RegisterSpeakers(cast: Cast, speakers: seq<string>, chapter: int) returns (out: Cast)
    ensures out == RegisterAll(cast, speakers, chapter)
  {
    out := cast;
    for k := 0 to |speakers|
      invariant out == RegisterAll(cast, speakers[..k], chapter)
    {
      assert speakers[..k + 1][..k] == speakers[..k];
      var canonical;
      out, canonical := RegisterSpeaker(out, speakers[k], chapter);
    }
    assert speakers[..|speakers|] == speakers;
  }

  /** The bible's part of the analyze loop. */
  method AnalyzeCast(chunks: seq<Chunk>) returns (cast: Cast)
    ensures cast == FinalCast(chunks)
  {
    cast := [];
    for c := 0 to |chunks|
      invariant cast == AfterChunks(chunks[..c])
    {
      assert chunks[..c + 1][..c] == chunks[..c];
      cast := ApplyUpdates(cast, chunks[c].updates, chunks[c].chapter);
      cast := RegisterSpeakers(cast, chunks[c].speakers, chunks[c].chapter);
    }
    assert chunks[..|chunks|] == chunks;
    cast := FinalizeBible(cast);
  }

  /** The bible just before line `k` of chunk `c` is counted. */
  function Before(chunks: seq<Chunk>, c: nat, k: nat): Cast
    requires c < |chunks| && k <= |chunks[c].speakers|
  {
    RegisterAll(ApplyAll(AfterChunks(chunks[..c]), chunks[c].updates, chunks[c].chapter), chunks[c].speakers[..k], chunks[c].chapter)
  }

  // ----------------------------------------------------------------- looking a speaker up at the end

  datatype Resolved = Narrator | Character(name: string) | NotInBible

  /** `_resolve_speaker` for a label; `NotInBible` is the branch that warns and lets the narrator speak. */
  function ResolveSpeaker(speaker: string, cast: Cast): Resolved {
    if IsNarrator(speaker) then Narrator
    else match Find(cast, speaker) case Some(i) => Character(cast[i].name) case None => NotInBible
  }

  /** `register_speaker` finds the name or makes an entry for it, and does not take the descriptor route. */
  predicate ByName(cast: Cast, name: string) {
    Find(cast, name).Some? || ResolveDescriptor(cast, name).None?
  }

  lemma {:induction false} RegisteringKeeps(cast: Cast, speakers: seq<string>, chapter: int, key: NameKey)
    ensures InCast(cast, key) ==> InCast(RegisterAll(cast, speakers, chapter), key)
    ensures Kept(cast, key) ==> Kept(RegisterAll(cast, speakers, chapter), key)
  {
    if speakers != [] {
      var n := |speakers| - 1;
      RegisteringKeeps(cast, speakers[..n], chapter, key);
      RegisterKeepsNames(RegisterAll(cast, speakers[..n], chapter), speakers[n], chapter, key);
    }
  }

  lemma RegisterOneMore(cast: Cast, speakers: seq<string>, chapter: int, k: nat)
    requires k < |speakers|
    ensures RegisterAll(cast, speakers[..k + 1], chapter) == Registered(RegisterAll(cast, speakers[..k], chapter), speakers[k], chapter)
  {
    assert speakers[..k + 1][..k] == speakers[..k];
  }

  /** From the state before line `k` to the end of its chunk. */
  lemma {:induction false} RestOfChunkKeeps(cast: Cast, speakers: seq<string>, chapter: int, k: nat, key: NameKey)
    requires k <= |speakers| && Kept(RegisterAll(cast, speakers[..k], chapter), key)
    ensures Kept(RegisterAll(cast, speakers, chapter), key)
    decreases |speakers| - k
  {
    if k == |speakers| {
      assert speakers[..k] == speakers;
    } else {
      RegisterKeepsNames(RegisterAll(cast, speakers[..k], chapter), speakers[k], chapter, key);
      RegisterOneMore(cast, speakers, chapter, k);
      RestOfChunkKeeps(cast, speakers, chapter, k + 1, key);
    }
  }

  lemma ChunkKeeps(cast: Cast, chunk: Chunk, key: NameKey)
    requires Findable(key)
    ensures Kept(cast, key) ==> Kept(AfterChunk(cast, chunk), key)
    ensures InCast(ApplyAll(cast, chunk.updates, chunk.chapter), key) ==> InCast(AfterChunk(cast, chunk), key)
  {
    UpdatesKeepNames(cast, chunk.updates, chunk.chapter, key);
    RegisteringKeeps(ApplyAll(cast, chunk.updates, chunk.chapter), chunk.speakers, chunk.chapter, key);
  }

  lemma AfterOneMore(chunks: seq<Chunk>, c: nat)
    requires c < |chunks|
    ensures AfterChunks(chunks[..c + 1]) == AfterChunk(AfterChunks(chunks[..c]), chunks[c])
  {
    assert chunks[..c + 1][..c] == chunks[..c];
  }

  lemma {:induction false} LaterChunksKeep(chunks: seq<Chunk>, c: nat, key: NameKey)
    requires c <= |chunks| && Findable(key) && Kept(AfterChunks(chunks[..c]), key)
    ensures Kept(AfterChunks(chunks), key)
    decreases |chunks| - c
  {
    if c == |chunks| {
      assert chunks[..c] == chunks;
    } else {
      ChunkKeeps(AfterChunks(chunks[..c]), chunks[c], key);
      AfterOneMore(chunks, c);
      LaterChunksKeep(chunks, c + 1, key);
    }
  }

  lemma KeysAreNotEmpty(name: string)
    requires !Text.Blank(name)
    ensures Key(name) != [] && name != ""
  {
    TokensOfBlank(name);
  }

  /** Every name that spoke and was registered by name is found in the final bible, whatever came later. */
  lemma SpokenNamesAreFound(chunks: seq<Chunk>, c: nat, k: nat)
    requires c < |chunks| && k < |chunks[c].speakers|
    requires var name := chunks[c].speakers[k]; !IsNarrator(name) && ByName(Before(chunks, c, k), name)
    ensures ResolveSpeaker(chunks[c].speakers[k], FinalCast(chunks)).Character?
  {
    var name := chunks[c].speakers[k];
    KeysAreNotEmpty(name);
    SpokenNameIsKept(chunks, c, k);
    LaterChunksKeep(chunks, c + 1, Key(name));
    FoundAtTheEndIff(chunks, name);
  }

  /** It is kept until the end of its chunk. */
  lemma SpokenNameIsKept(chunks: seq<Chunk>, c: nat, k: nat)
    requires c < |chunks| && k < |chunks[c].speakers|
    requires var name := chunks[c].speakers[k]; !IsNarrator(name) && ByName(Before(chunks, c, k), name)
    ensures Kept(AfterChunks(chunks[..c + 1]), Key(chunks[c].speakers[k]))
  {
    var chunk := chunks[c];
    var name := chunk.speakers[k];
    var start := ApplyAll(AfterChunks(chunks[..c]), chunk.updates, chunk.chapter);
    RegisteredNameIsKept(Before(chunks, c, k), name, chunk.chapter);
    RegisterOneMore(start, chunk.speakers, chunk.chapter, k);
    RestOfChunkKeeps(start, chunk.speakers, chunk.chapter, k + 1, Key(name));
    AfterOneMore(chunks, c);
  }

  /** Right after a line is counted its name is findable exactly if it was registered by name: the descriptor route
      records nothing. */
  lemma RegisteredNameFoundIff(cast: Cast, name: string, chapter: int)
    requires !IsNarrator(name)
    ensures Find(Registered(cast, name, chapter), name).Some? <==> ByName(cast, name)
  {
    KeysAreNotEmpty(name);
    var after := Registered(cast, name, chapter);
    InCastIsFound(after, name);
    if ByName(cast, name) {
      RegisteredNameIsKept(cast, name, chapter);
    } else {
      forall j | 0 <= j < |after|
        ensures !Matches(after[j], Key(name))
      {
        assert Matches(after[j], Key(name)) == Matches(cast[j], Key(name));
      }
    }
  }

  /** What assembling finds: the name of a speaker is in the final bible if and only if, when the analyze loop ends,
      an entry that has a proper name or has spoken is known by it. */
  lemma FoundAtTheEndIff(chunks: seq<Chunk>, name: string)
    requires !IsNarrator(name)
    ensures ResolveSpeaker(name, FinalCast(chunks)).Character? <==> Kept(AfterChunks(chunks), Key(name))
  {
    KeysAreNotEmpty(name);
    InCastIsFound(FinalCast(chunks), name);
    FinalizeFindsIff(AfterChunks(chunks), Key(name));
  }

  // ----------------------------------------------------------------- which names a bible knows

  /** The keys under which `name` is entered: its own and that of its form without the honorific. */
  predicate Enters(name: string, key: NameKey) {
    key == Key(name) || key == Key(StripHonorific(name).0)
  }

  /** The update brings the name. */
  ghost predicate NamedBy(update: Update, key: NameKey) {
    !Text.Blank(update.name) && (Enters(update.name, key) || AnyKey(update.aliases, key))
  }

  /** A line of a speaker nobody knows brings the name. */
  ghost predicate NewLine(cast: Cast, name: string, key: NameKey) {
    !IsNarrator(name) && SpeakerEntry(cast, name).None? && Enters(name, key)
  }

  lemma ExtraAliasesEnter(entry: Entry, update: Update, key: NameKey)
    requires Text.Tokens(update.name) != []
    ensures AnyKey(ExtraAliases(entry, update), key) ==> key == Key(entry.name) || Enters(update.name, key)
    ensures
      var incoming := StripHonorific(update.name).0;
      Key(incoming) == Key(entry.name) || Key(incoming) == Key(MergeUpdate(entry, update).name)
      || AnyKey(ExtraAliases(entry, update), Key(incoming))
  {
    var (incoming, full) := StripHonorific(update.name);
    var extra := ExtraAliases(entry, update);
    StrippedFormsKeepKey(update.name);
    if Key(incoming) != Key(entry.name) && !Renames(entry, incoming) {
      assert incoming != "";
      assert extra[|extra| - 1] == incoming;
    }
  }

  /** An entry after an update is known by its old names and the update's, and by no other. */
  lemma MergedNamesIff(entry: Entry, update: Update, key: NameKey)
    requires Findable(key) && !Text.Blank(update.name)
    ensures Matches(MergeUpdate(entry, update), key) <==> Matches(entry, key) || NamedBy(update, key)
  {
    TokensOfBlank(update.name);
    var merged, extra := MergeUpdate(entry, update), ExtraAliases(entry, update);
    var all := entry.aliases + update.aliases + extra;
    MatchesIsAnyKey(entry, key);
    MatchesIsAnyKey(merged, key);
    AnyKeyConcat(entry.aliases, update.aliases, key);
    AnyKeyConcat(entry.aliases + update.aliases, extra, key);
    ExtraAliasesEnter(entry, update, key);
    ExtraAliasesKeepNames(entry, update);
    if Matches(merged, key) && key != Key(merged.name) {
      MergedHasNoOtherKeys(merged.name, all, key);
    }
    if AnyKey(all, key) {
      MergedKeepsKeys(merged.name, all, key);
    }
  }

  lemma NewNamesIff(update: Update, chapter: int, key: NameKey)
    requires Findable(key) && !Text.Blank(update.name)
    ensures Matches(NewEntry(update, chapter), key) <==> NamedBy(update, key)
  {
    var entry := NewEntry(update, chapter);
    var (name, full) := StripHonorific(update.name);
    var extra := if full.Some? then [full.value] else [];
    StrippedFormsKeepKey(update.name);
    MatchesIsAnyKey(entry, key);
    AnyKeyConcat(update.aliases, extra, key);
    if full.Some? {
      SingleKey(full.value);
    }
    if AnyKey(update.aliases + extra, key) {
      MergedKeepsKeys(name, update.aliases + extra, key);
    }
    if Matches(entry, key) && key != Key(name) {
      MergedHasNoOtherKeys(name, update.aliases + extra, key);
    }
  }

  lemma NewSpeakerNamesIff(name: string, chapter: int, key: NameKey)
    ensures Matches(NewSpeaker(name, chapter), key) <==> Enters(name, key)
  {
    StrippedFormsKeepKey(name);
    MatchesIsAnyKey(NewSpeaker(name, chapter), key);
    var full := StripHonorific(name).1;
    if full.Some? {
      SingleKey(full.value);
    }
  }

  lemma ReplacedInCast(cast: Cast, i: nat, e: Entry, key: NameKey)
    requires i < |cast| && (Matches(cast[i], key) ==> Matches(e, key))
    ensures InCast(cast[i := e], key) <==> InCast(cast, key) || Matches(e, key)
  {
    var after := cast[i := e];
    assert after[i] == e;
    if j :| 0 <= j < |cast| && Matches(cast[j], key) {
      assert Matches(after[j], key);
    }
    if j :| 0 <= j < |after| && Matches(after[j], key) {
      assert j == i || Matches(cast[j], key);
    }
  }

  lemma AddedInCast(cast: Cast, e: Entry, key: NameKey)
    ensures InCast(cast + [e], key) <==> InCast(cast, key) || Matches(e, key)
  {
    AddedEntryKeepsNames(cast, e, key);
    if j :| 0 <= j < |cast + [e]| && Matches((cast + [e])[j], key) {
      assert j < |cast| ==> Matches(cast[j], key);
    }
  }

  /** An update makes known exactly the names it brings. */
  lemma UpdateNamesIff(cast: Cast, update: Update, chapter: int, key: NameKey)
    requires Findable(key)
    ensures InCast(ApplyUpdate(cast, update, chapter), key) <==> InCast(cast, key) || NamedBy(update, key)
  {
    if !Text.Blank(update.name) {
      match Target(cast, update)
      case Some(i) =>
        MergedNamesIff(cast[i], update, key);
        ReplacedInCast(cast, i, MergeUpdate(cast[i], update), key);
        assert Matches(cast[i], key) ==> InCast(cast, key);
      case None =>
        NewNamesIff(update, chapter, key);
        AddedInCast(cast, NewEntry(update, chapter), key);
    }
  }

  /** A line makes a name known only if it is that of a speaker nobody knows. */
  lemma LineNamesIff(cast: Cast, name: string, chapter: int, key: NameKey)
    ensures InCast(Registered(cast, name, chapter), key) <==> InCast(cast, key) || NewLine(cast, name, key)
  {
    if !IsNarrator(name) {
      match SpeakerEntry(cast, name)
      case Some(i) =>
        ReplacedInCast(cast, i, Counted(cast[i], chapter), key);
        assert Matches(cast[i], key) ==> InCast(cast, key);
      case None =>
        NewSpeakerNamesIff(name, chapter, key);
        AddedInCast(cast, Counted(NewSpeaker(name, chapter), chapter), key);
    }
  }

  /** One of the updates brings the name. */
  ghost predicate AnyNames(updates: seq<Update>, key: NameKey) {
    updates != [] && (AnyNames(updates[..|updates| - 1], key) || NamedBy(updates[|updates| - 1], key))
  }

  /** One of the lines brings the name when it is counted. */
  ghost predicate AnyNewLine(cast: Cast, speakers: seq<string>, chapter: int, key: NameKey) {
    speakers != []
    && var n := |speakers| - 1;
      AnyNewLine(cast, speakers[..n], chapter, key) || NewLine(RegisterAll(cast, speakers[..n], chapter), speakers[n], key)
  }

  lemma {:induction false} UpdatesNameIff(cast: Cast, updates: seq<Update>, chapter: int, key: NameKey)
    requires Findable(key)
    ensures InCast(ApplyAll(cast, updates, chapter), key) <==> InCast(cast, key) || AnyNames(updates, key)
  {
    if updates != [] {
      var n := |updates| - 1;
      UpdatesNameIff(cast, updates[..n], chapter, key);
      UpdateNamesIff(ApplyAll(cast, updates[..n], chapter), updates[n], chapter, key);
    }
  }

  lemma {:induction false} LinesNameIff(cast: Cast, speakers: seq<string>, chapter: int, key: NameKey)
    ensures InCast(RegisterAll(cast, speakers, chapter), key) <==> InCast(cast, key) || AnyNewLine(cast, speakers, chapter, key)
  {
    if speakers != [] {
      var n := |speakers| - 1;
      var front := speakers[..n];
      LinesNameIff(cast, front, chapter, key);
      LineNamesIff(RegisterAll(cast, front, chapter), speakers[n], chapter, key);
    }
  }

  /** Chunk `c` makes the name known: an update brings it, or a line of a speaker nobody knew. */
  ghost predicate BringsName(chunks: seq<Chunk>, c: nat, key: NameKey)
    requires c < |chunks|
  {
    || AnyNames(chunks[c].updates, key)
    || AnyNewLine(
         ApplyAll(AfterChunks(chunks[..c]), chunks[c].updates, chunks[c].chapter), chunks[c].speakers, chunks[c].chapter, key)
  }

  /** When the analyze loop ends a name is known if and only if some chunk made it known; a line that only a descriptor
      matched does not. */
  lemma {:induction false} KnownIff(chunks: seq<Chunk>, key: NameKey)
    requires Findable(key)
    ensures InCast(AfterChunks(chunks), key) <==> exists c: nat | c < |chunks| :: BringsName(chunks, c, key)
  {
    if chunks != [] {
      var n := |chunks| - 1;
      var front := chunks[..n];
      KnownIff(front, key);
      LastChunkNamesIff(chunks, key);
      forall c: nat | c < n
        ensures BringsName(front, c, key) <==> BringsName(chunks, c, key)
      {
        EarlierBrings(chunks, c, key);
      }
      if c: nat :| c < n && BringsName(front, c, key) {
        assert BringsName(chunks, c, key);
      }
    }
  }

  lemma LastChunkNamesIff(chunks: seq<Chunk>, key: NameKey)
    requires chunks != [] && Findable(key)
    ensures
      var n := |chunks| - 1;
      InCast(AfterChunks(chunks), key) <==> InCast(AfterChunks(chunks[..n]), key) || BringsName(chunks, n, key)
  {
    var front, last := AfterChunks(chunks[..|chunks| - 1]), chunks[|chunks| - 1];
    UpdatesNameIff(front, last.updates, last.chapter, key);
    LinesNameIff(ApplyAll(front, last.updates, last.chapter), last.speakers, last.chapter, key);
  }

  lemma EarlierBrings(chunks: seq<Chunk>, c: nat, key: NameKey)
    requires c < |chunks| - 1
    ensures BringsName(chunks[..|chunks| - 1], c, key) <==> BringsName(chunks, c, key)
  {
    var front := chunks[..|chunks| - 1];
    assert front[..c] == chunks[..c] && front[c] == chunks[c];
  }

  // ----------------------------------------------------------------- speakers as validation hands them over

  /** The first update with a name or alias that is compared by `key`. */
  function UpdateFor(updates: seq<Update>, key: NameKey): (u: Option<nat>)
    ensures u.Some? ==> u.value < |updates|
  {
    if updates == [] then None
    else if key == Key(updates[0].name) || AnyAlias(updates[0].aliases, key) then Some(0)
    else match UpdateFor(updates[1..], key) case Some(i) => Some(i + 1) case None => None
  }

  /** The name that a matching update will register the speaker under. */
  function UpdateName(speaker: string, updates: seq<Update>): string {
    match UpdateFor(updates, Key(speaker))
    case Some(u) => if Text.Strip(updates[u].name) != "" then Text.Strip(updates[u].name) else Text.Strip(speaker)
    case None => Text.Strip(speaker)
  }

  /** `canonical_speaker`. */
  function CanonicalSpeaker(speaker: string, cast: Cast, updates: seq<Update>): string {
    var key := Key(speaker);
    if key == [] || key == NARRATOR_KEY then Book.NARRATOR
    else if SpeakerEntry(cast, speaker).Some? then cast[SpeakerEntry(cast, speaker).value].name
    else UpdateName(speaker, updates)
  }

  lemma BlankFront(blank: string, rest: string)
    requires Text.Blank(blank)
    ensures Text.Tokens(blank + rest) == Text.Tokens(rest)
    decreases |blank|
  {
    if blank == "" {
      assert blank + rest == rest;
    } else {
      BlankFront(blank[1..], rest);
      assert (blank + rest)[1..] == blank[1..] + rest;
    }
  }

  lemma WordLengthBefore(front: string, blank: string)
    requires Text.Blank(blank)
    ensures Text.WordLength(front + blank) == Text.WordLength(front)
  {
    var s, n := front + blank, Text.WordLength(front);
    assert forall i | 0 <= i < |front| :: s[i] == front[i];
    if n == |front| && blank != "" {
      assert s[n] == blank[0];
    }
  }

  lemma BlankBack(front: string, blank: string)
    requires Text.Blank(blank)
    ensures Text.Tokens(front + blank) == Text.Tokens(front)
    decreases |front|
  {
    var s := front + blank;
    if front == "" {
      assert s == blank;
      TokensOfBlank(blank);
      TokensOfBlank("");
    } else if Text.IsSpace(front[0]) {
      assert s[0] == front[0] && s[1..] == front[1..] + blank;
      BlankBack(front[1..], blank);
    } else {
      var n := Text.WordLength(front);
      assert s[0] == front[0];
      WordLengthBefore(front, blank);
      BlankBack(front[n..], blank);
      assert s[n..] == front[n..] + blank && s[..n] == front[..n];
    }
  }

  lemma StripKeepsTokens(name: string)
    ensures Text.Tokens(Text.Strip(name)) == Text.Tokens(name)
  {
    Text.StripSlice(name);
    var lead, t := Text.Lead(name), Text.Strip(name);
    assert name == name[..lead] + (t + name[lead + |t|..]);
    BlankFront(name[..lead], t + name[lead + |t|..]);
    BlankBack(t, name[lead + |t|..]);
  }

  /** The bible or this chunk's updates know the speaker, or nobody does and it is not one of the four descriptors. */
  predicate Settled(speaker: string, cast: Cast, updates: seq<Update>) {
    || SpeakerEntry(cast, speaker).Some?
    || (UpdateFor(updates, Key(speaker)).Some? && !Text.Blank(updates[UpdateFor(updates, Key(speaker)).value].name))
    || DescriptorTraits(AliasKey(speaker)).None?
  }

  /** A name known to the bible, or brought by the updates, is found from then on. */
  lemma KnownIsByName(cast: Cast, updates: seq<Update>, chapter: int, earlier: seq<string>, name: string)
    requires !IsNarrator(name)
    requires InCast(cast, Key(name)) || Brought(updates, Key(name))
    ensures Find(RegisterAll(ApplyAll(cast, updates, chapter), earlier, chapter), name).Some?
  {
    KeysAreNotEmpty(name);
    UpdatesKeepNames(cast, updates, chapter, Key(name));
    RegisteringKeeps(ApplyAll(cast, updates, chapter), earlier, chapter, Key(name));
    InCastIsFound(RegisterAll(ApplyAll(cast, updates, chapter), earlier, chapter), name);
  }

  lemma StrippedIsAbout(update: Update)
    requires !Text.Blank(update.name)
    ensures Text.Strip(update.name) != "" && IsAbout(update, Key(Text.Strip(update.name)))
  {
    Text.StripEmpty(update.name);
    StripKeepsTokens(update.name);
  }

  /** Some update is about `key`. */
  ghost predicate Brought(updates: seq<Update>, key: NameKey) {
    exists u | 0 <= u < |updates| :: IsAbout(updates[u], key)
  }

  lemma UpdateNameCases(speaker: string, updates: seq<Update>)
    ensures
      var u := UpdateFor(updates, Key(speaker));
      if u.Some? && !Text.Blank(updates[u.value].name) then Brought(updates, Key(UpdateName(speaker, updates)))
      else UpdateName(speaker, updates) == Text.Strip(speaker)
  {
    var u := UpdateFor(updates, Key(speaker));
    if u.Some? {
      Text.StripEmpty(updates[u.value].name);
      if !Text.Blank(updates[u.value].name) {
        StrippedIsAbout(updates[u.value]);
      }
    }
  }

  /** Where a validated name comes from. */
  lemma CanonicalSpeakerCases(speaker: string, cast: Cast, updates: seq<Update>)
    requires Settled(speaker, cast, updates) && !IsNarrator(CanonicalSpeaker(speaker, cast, updates))
    ensures
      var name := CanonicalSpeaker(speaker, cast, updates);
      || InCast(cast, Key(name)) || Brought(updates, Key(name))
      || (name == Text.Strip(speaker) && DescriptorTraits(AliasKey(speaker)).None?)
  {
    var entry := SpeakerEntry(cast, speaker);
    if CanonicalSpeaker(speaker, cast, updates) == Book.NARRATOR {
      NarratorIsNarrator();
    } else if entry.Some? {
      assert Matches(cast[entry.value], Key(cast[entry.value].name));
    } else {
      UpdateNameCases(speaker, updates);
    }
  }

  lemma NarratorIsNarrator()
    ensures IsNarrator(Book.NARRATOR)
  {
    LetterWord(Book.NARRATOR);
    Text.TokensJoin([Book.NARRATOR]);
    assert Text.Lower(Book.NARRATOR) == "narrator";
  }

  /** A validated speaker is registered by name. */
  lemma CanonicalSpeakerIsByName(speaker: string, cast: Cast, updates: seq<Update>, chapter: int, earlier: seq<string>)
    requires Settled(speaker, cast, updates) && !IsNarrator(CanonicalSpeaker(speaker, cast, updates))
    ensures ByName(RegisterAll(ApplyAll(cast, updates, chapter), earlier, chapter), CanonicalSpeaker(speaker, cast, updates))
  {
    var name := CanonicalSpeaker(speaker, cast, updates);
    CanonicalSpeakerCases(speaker, cast, updates);
    if InCast(cast, Key(name)) || Brought(updates, Key(name)) {
      KnownIsByName(cast, updates, chapter, earlier, name);
    } else {
      UnknownIsByName(RegisterAll(ApplyAll(cast, updates, chapter), earlier, chapter), speaker);
    }
  }

  lemma UnknownIsByName(cast: Cast, speaker: string)
    requires DescriptorTraits(AliasKey(speaker)).None?
    ensures ByName(cast, Text.Strip(speaker))
  {
    StripKeepsTokens(speaker);
    assert AliasKey(Text.Strip(speaker)) == AliasKey(speaker);
  }

  /** Hence assembling never warns about a validated speaker, unless an unknown label was one of the four descriptors. */
  lemma ValidatedSpeakersAreFound(chunks: seq<Chunk>, c: nat, k: nat, speaker: string)
    requires c < |chunks| && k < |chunks[c].speakers|
    requires chunks[c].speakers[k] == CanonicalSpeaker(speaker, AfterChunks(chunks[..c]), chunks[c].updates)
    requires Settled(speaker, AfterChunks(chunks[..c]), chunks[c].updates)
    ensures ResolveSpeaker(chunks[c].speakers[k], FinalCast(chunks)) != NotInBible
  {
    if !IsNarrator(chunks[c].speakers[k]) {
      CanonicalSpeakerIsByName(
        speaker, AfterChunks(chunks[..c]), chunks[c].updates, chunks[c].chapter, chunks[c].speakers[..k]);
      SpokenNamesAreFound(chunks, c, k);
    }
  }

  // ----------------------------------------------------------------- lines

  function SpokenIn(speakers: seq<string>): nat {
    if speakers == [] then 0
    else SpokenIn(speakers[..|speakers| - 1]) + if IsNarrator(speakers[|speakers| - 1]) then 0 else 1
  }

  function SpokenInAll(chunks: seq<Chunk>): nat {
    if chunks == [] then 0 else SpokenInAll(chunks[..|chunks| - 1]) + SpokenIn(chunks[|chunks| - 1].speakers)
  }

  lemma {:induction false} RegisteringCounts(cast: Cast, speakers: seq<string>, chapter: int)
    ensures Lines(RegisterAll(cast, speakers, chapter)) == Lines(cast) + SpokenIn(speakers)
  {
    if speakers != [] {
      var n := |speakers| - 1;
      RegisteringCounts(cast, speakers[..n], chapter);
      RegisterCountsOneLine(RegisterAll(cast, speakers[..n], chapter), speakers[n], chapter);
    }
  }

  lemma {:induction false} ChunksCountLines(chunks: seq<Chunk>)
    ensures Lines(AfterChunks(chunks)) == SpokenInAll(chunks)
  {
    if chunks != [] {
      var n := |chunks| - 1;
      ChunksCountLines(chunks[..n]);
      var cast := AfterChunks(chunks[..n]);
      UpdatesKeepLines(cast, chunks[n].updates, chunks[n].chapter);
      RegisteringCounts(ApplyAll(cast, chunks[n].updates, chunks[n].chapter), chunks[n].speakers, chunks[n].chapter);
    }
  }

  /** The final line counts add up to the number of lines that were not the narrator's. */
  lemma NoLineIsLost(chunks: seq<Chunk>)
    ensures Lines(FinalCast(chunks)) == SpokenInAll(chunks)
  {
    ChunksCountLines(chunks);
    FinalizeKeepsLines(AfterChunks(chunks));
  }

  // ----------------------------------------------------------------- the exception

  lemma LetterWord(w: string)
    requires w != "" && forall i | 0 <= i < |w| :: 'A' <= w[i] <= 'z'
    ensures Text.IsWord(w)
  {
    forall i | 0 <= i < |w|
      ensures !Text.IsSpace(w[i])
    {
      Text.LettersAreNotSpace(w[i]);
    }
  }

  const TOM := Update("Tom", [], "male", "child", "", None)

  lemma TheBoyKeys()
    ensures AliasKey("the boy") == ["the", "boy"] && Key("the boy") == ["the", "boy"]
  {
    var ts := ["the", "boy"];
    LetterWord(ts[0]);
    LetterWord(ts[1]);
    assert Text.Join(ts) == "the boy" by {
      assert ts[1..] == ["boy"];
    }
    Text.TokensJoin(ts);
    assert Text.Lower(ts[0]) == ts[0] && Text.Lower(ts[1]) == ts[1];
    assert Text.LowerAll(ts) == ts;
    assert !IsHonorific("the");
  }

  lemma TheBoyIsStripped()
    ensures Text.Strip("the boy") == "the boy" && !IsNarrator("the boy")
  {
    var s := "the boy";
    TheBoyKeys();
    assert s[0] == 't' && s[6] == 'y';
    Text.LettersAreNotSpace('t');
    Text.LettersAreNotSpace('y');
    assert Text.LStrip(s) == s;
    assert Text.RStrip(s) == s;
  }

  lemma TomKeys()
    ensures Text.Tokens("Tom") == ["Tom"] && AliasKey("Tom") == ["tom"] && Key("Tom") == ["tom"]
  {
    LetterWord("Tom");
    Text.TokensJoin(["Tom"]);
    assert Text.Lower("Tom") == "tom";
  }

  function TomEntry(): Entry {
    Entry("Tom", [], "male", "child", "", 1, 0, false)
  }

  lemma TomIsNew()
    ensures ApplyAll([], [TOM], 1) == [TomEntry()]
  {
    TomKeys();
    TokensOfBlank("Tom");
    assert [TOM][..0] == [];
    assert Text.Join(["Tom"]) == "Tom";
    assert NewEntry(TOM, 1) == TomEntry();
    assert Target([], TOM) == None;
  }

  lemma TheBoyIsTom()
    ensures Registered([TomEntry()], "the boy", 1) == [Counted(TomEntry(), 1)]
    ensures !Matches(Counted(TomEntry(), 1), Key("the boy"))
  {
    TheBoyKeys();
    TheBoyIsStripped();
    TomKeys();
    var cast := [TomEntry()];
    assert !Matches(cast[0], Key("the boy"));
    assert Find(cast, "the boy") == None;
    assert cast[..0] == [];
    var boys := (e: Entry) => HasTraits(e, ("male", "child"));
    assert Select(cast[..0], boys) == [];
    assert Select(cast, boys) == [0];
    assert ResolveDescriptor(cast, "the boy") == Some(0);
  }

  /** A label "the boy" in the chunk that introduces the only boy: validation leaves it alone, registering counts the
      line for Tom, and assembling does not find "the boy". */
  lemma DescriptorOfANewcomerIsLost()
    ensures
      var chunks := [Chunk([TOM], [CanonicalSpeaker("the boy", [], [TOM])], 1)];
      ResolveSpeaker(chunks[0].speakers[0], FinalCast(chunks)) == NotInBible && Lines(FinalCast(chunks)) == 1
  {
    TheBoyKeys();
    TheBoyIsStripped();
    TomKeys();
    var chunks := TheBoyChunks();
    TheBoyStaysTheBoy();
    TomSpoke();
    LoneEntryStays(Counted(TomEntry(), 1));
    assert !Matches(Counted(TomEntry(), 1), Key("the boy")) by {
      TheBoyIsTom();
    }
    assert Lines([Counted(TomEntry(), 1)]) == 1 by {
      assert [Counted(TomEntry(), 1)][1..] == [];
    }
  }

  function TheBoyChunks(): seq<Chunk> {
    [Chunk([TOM], ["the boy"], 1)]
  }

  lemma TheBoyStaysTheBoy()
    ensures CanonicalSpeaker("the boy", [], [TOM]) == "the boy"
  {
    TheBoyIsNotTom();
    TheBoyKeys();
    TheBoyIsStripped();
  }

  lemma TheBoyIsNotTom()
    ensures UpdateFor([TOM], Key("the boy")) == None
  {
    TheBoyKeys();
    TomKeys();
    assert [TOM][1..] == [];
  }

  lemma TomSpoke()
    ensures AfterChunks(TheBoyChunks()) == [Counted(TomEntry(), 1)]
  {
    var chunks := TheBoyChunks();
    TomIsNew();
    TheBoyIsTom();
    assert chunks[..0] == [] && ["the boy"][..0] == [];
    assert AfterChunks(chunks[..0]) == [];
    assert RegisterAll([TomEntry()], ["the boy"][..0], 1) == [TomEntry()];
    assert RegisterAll([TomEntry()], ["the boy"], 1) == [Counted(TomEntry(), 1)];
  }

  lemma LoneEntryStays(e: Entry)
    requires IsSingle(e)
    ensures Finalized([e]) == [e]
  {
    var cast := [e];
    assert cast[1..] == [] && cast[..0] == [];
    assert Singles(cast) == [e];
    HostsAreCounted(cast, e.name);
    assert Total(cast, HostWeight(e.name)) == 0;
    assert AbsorbAll(cast, [e]) == cast by {
      assert [e][1..] == [];
    }
    assert Survivors(cast[..0]) == [];
    assert Survivors(cast) == [e];
  }
}
