/** A key function that tells all requests apart, so that what `Render` asks of keys can be met.  The source hashes the
    request's fields; here they are written out one after the other, each with its length in front. */
module RequestKeys {
  import opened Common
  import Book
  import Cache = ClipCache
  import Speech = TtsPlan
  import Layouts = Timeline
  import Build = TimelineBuild
  import opened Render

  function Bars(n: nat): (s: string)
    ensures |s| == n && forall i | 0 <= i < n :: s[i] == '|'
  {
    seq(n, _ => '|')
  }

  function Field(text: string): string {
    Bars(|text|) + "." + text
  }

  function Fields(texts: seq<string>): string {
    if texts == [] then "" else Field(texts[0]) + Fields(texts[1..])
  }

  /** The length in front says where a field ends. */
  lemma FieldEnds(a: string, x: string, b: string, y: string)
    requires Field(a) + x == Field(b) + y
    ensures a == b && x == y
  {
    var s, t := Field(a) + x, Field(b) + y;
    assert (forall i | 0 <= i < |a| :: s[i] == '|') && s[|a|] == '.';
    assert (forall i | 0 <= i < |b| :: t[i] == '|') && t[|b|] == '.';
    var n := |a| + 1;
    assert s[n..n + |a|] == a && t[n..n + |a|] == b;
    assert s[n + |a|..] == x && t[n + |a|..] == y;
  }

  lemma {:induction false} FieldsAreInjective(a: seq<string>, b: seq<string>)
    requires Fields(a) == Fields(b)
    ensures a == b
  {
    if a != [] && b != [] {
      FieldEnds(a[0], Fields(a[1..]), b[0], Fields(b[1..]));
      FieldsAreInjective(a[1..], b[1..]);
      assert a == [a[0]] + a[1..] && b == [b[0]] + b[1..];
    }
  }

  function Number(n: int): string {
    if n < 0 then "-" + Bars(-n) else "+" + Bars(n)
  }

  lemma NumbersAreInjective(m: int, n: int)
    requires Number(m) == Number(n)
    ensures m == n
  {
    assert Number(m)[0] == Number(n)[0] && |Number(m)| == |Number(n)|;
  }

  function Optional(text: Option<string>): string {
    match text case None => "" case Some(t) => "+" + t
  }

  lemma OptionalIsInjective(a: Option<string>, b: Option<string>)
    requires Optional(a) == Optional(b)
    ensures a == b
  {
    if a.Some? && b.Some? {
      assert Optional(a)[1..] == a.value && Optional(b)[1..] == b.value;
    }
  }

  function Parts(request: Request): seq<string> {
    match request
    case Speak(s) =>
      ["speech", s.text, s.voiceId, s.settings, s.emotion, s.delivery, Optional(s.previousText), Optional(s.nextText),
       Number(s.seed)]
    case Compose(m) => ["music", m.prompt, m.mood, Number(m.energy), Number(m.durationMs), Number(m.seed)]
    case Generate(e) =>
      ["effect", e.description, if e.kind == Book.Impact then "impact" else "ambient", Number(e.durationMs),
       if e.looped then "looped" else "once", Number(e.intensity), Number(e.seed)]
  }

  lemma PartsAreInjective(r: Request, s: Request)
    requires Parts(r) == Parts(s)
    ensures r == s
  {
    assert Parts(r)[0] == Parts(s)[0];
    match r
    case Speak(a) =>
      OptionalIsInjective(a.previousText, s.speech.previousText);
      OptionalIsInjective(a.nextText, s.speech.nextText);
      NumbersAreInjective(a.seed, s.speech.seed);
    case Compose(a) =>
      NumbersAreInjective(a.energy, s.music.energy);
      NumbersAreInjective(a.durationMs, s.music.durationMs);
      NumbersAreInjective(a.seed, s.music.seed);
    case Generate(a) =>
      NumbersAreInjective(a.durationMs, s.sfx.durationMs);
      NumbersAreInjective(a.intensity, s.sfx.intensity);
      NumbersAreInjective(a.seed, s.sfx.seed);
  }

  function KeyText(request: Request): string {
    Fields(Parts(request))
  }

  lemma KeyTextIsInjective(r: Request, s: Request)
    requires KeyText(r) == KeyText(s)
    ensures r == s
  {
    FieldsAreInjective(Parts(r), Parts(s));
    PartsAreInjective(r, s);
  }

  /** The world of a provider with these keys. */
  function WorldOf(render: Request -> Cache.Clip): World {
    World(KeyText, render)
  }

  function KeyedSetup(setup: Speech.Setup): Speech.Setup {
    setup.(key := (r: Speech.Request) => KeyText(Speak(r)))
  }

  function KeyedParams(params: Layouts.Params): Layouts.Params {
    params.(sfxKey := (r: Layouts.SfxRequest) => KeyText(Generate(r)),
            musicKey := (r: Layouts.MusicRequest) => KeyText(Compose(r)))
  }

  /** Nobody else touches the store. */
  function Alone(n: nat, files: Cache.Store): Cache.Store {
    files
  }

  /** For every provider, cast and parameters there is a world that meets all that rendering asks for: keys that tell
      requests apart, other jobs that do no harm, a consistent store, truthful durations, and one key function. */
  lemma RenderingIsPossible(render: Request -> Cache.Clip, setup: Speech.Setup, params: Layouts.Params)
    requires setup.maxChars >= 1
    ensures
      var w := WorldOf(render);
      && Injective(w) && Friendly(Alone, w) && Consistent(map[], w)
      && Truthful(map[], w) && UsesKeys(KeyedSetup(setup), KeyedParams(params), w)
  {
    var w := WorldOf(render);
    forall r, s | w.key(r) == w.key(s)
      ensures r == s
    {
      KeyTextIsInjective(r, s);
    }
    assert forall r :: Holds(map[], w, r);
    assert forall request :: HoldsLength(map[], w, request);
  }

  /** Hence a chapter can be rendered with any provider, and the mixer gets that provider's clips. */
  method RenderFromScratch(
    render: Request -> Cache.Clip, script: Book.Script, setup: Speech.Setup, params: Layouts.Params)
    returns (layout: Build.Layout, clips: seq<Cache.Clip>)
    requires setup.maxChars >= 1
    ensures |clips| == |layout.Placements()|
    ensures forall k | 0 <= k < |clips| :: IsCleanClip(clips[k], layout.Placements()[k], WorldOf(render))
  {
    RenderingIsPossible(render, setup, params);
    var cache := new Cache.ClipCache();
    var ctx := new Context(cache, WorldOf(render), Alone, n => n, _ => true, _ => 1);
    var durations;
    ghost var found;
    durations, layout, clips, found := RenderChapter(ctx, script, KeyedSetup(setup), map[], KeyedParams(params));
  }
}
