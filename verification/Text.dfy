/** Strings as Python sees them here: whitespace, `strip`, `split`, `join` and (ASCII) `lower`. */
module Text {
  import Common

  /** Code points of whitespace, as ranges. */
  const SPACES: seq<(int, int)> := [
    (0x1C, 0x20), (0x09, 0x0D), (0x85, 0x85), (0xA0, 0xA0), (0x1680, 0x1680), (0x2000, 0x200A),
    (0x2028, 0x2029), (0x202F, 0x202F), (0x205F, 0x205F), (0x3000, 0x3000)]

  predicate InRanges(n: int, ranges: seq<(int, int)>) {
    ranges != [] && (ranges[0].0 <= n <= ranges[0].1 || InRanges(n, ranges[1..]))
  }

  /** `str.isspace` for one character, which is also what `\s` matches. */
  predicate IsSpace(c: char) {
    InRanges(c as int, SPACES)
  }

  lemma LettersAreNotSpace(c: char)
    requires 'A' <= c <= 'z'
    ensures !IsSpace(c)
  {
    RangesAbove(c as int, SPACES, 2);
  }

  /** Past the first `k` ranges every range lies above `n`. */
  lemma {:induction false} RangesAbove(n: int, ranges: seq<(int, int)>, k: nat)
    requires k <= |ranges|
    requires forall i | 0 <= i < |ranges| :: if i < k then n > ranges[i].1 else n < ranges[i].0
    ensures !InRanges(n, ranges)
  {
    if ranges != [] {
      assert forall i | 0 <= i < |ranges[1..]| :: ranges[1..][i] == ranges[i + 1];
      RangesAbove(n, ranges[1..], if k == 0 then 0 else k - 1);
    }
  }

  predicate Blank(s: string) {
    forall i | 0 <= i < |s| :: IsSpace(s[i])
  }

  // ----------------------------------------------------------------- strip

  /** Number of whitespace characters at the front. */
  function Lead(s: string): (n: nat)
    ensures n <= |s| && (forall i | 0 <= i < n :: IsSpace(s[i])) && (n < |s| ==> !IsSpace(s[n]))
  {
    if s == "" || !IsSpace(s[0]) then 0 else 1 + Lead(s[1..])
  }

  /** Number of whitespace characters at the end. */
  function Trail(s: string): (n: nat)
    ensures n <= |s| && (forall i | |s| - n <= i < |s| :: IsSpace(s[i])) && (n < |s| ==> !IsSpace(s[|s| - n - 1]))
  {
    if s == "" || !IsSpace(s[|s| - 1]) then 0 else 1 + Trail(s[..|s| - 1])
  }

  function LStrip(s: string): string {
    s[Lead(s)..]
  }

  function RStrip(s: string): string {
    s[..|s| - Trail(s)]
  }

  function Strip(s: string): string {
    RStrip(LStrip(s))
  }

  lemma StripLength(s: string)
    ensures |Strip(s)| == |s| - Lead(s) - Trail(s[Lead(s)..])
  {
  }

  lemma StripPosition(s: string)
    ensures
      var lead, t := Lead(s), Strip(s);
      && lead + |t| <= |s| && t == s[lead..lead + |t|]
      && (t != "" ==> !IsSpace(t[0]) && !IsSpace(t[|t| - 1]))
  {
  }

  lemma TrailIsSpace(s: string, lead: nat, i: nat)
    requires lead <= |s| && |s| - Trail(s[lead..]) <= i < |s|
    ensures IsSpace(s[i])
  {
    assert s[i] == s[lead..][i - lead];
  }

  lemma StripSurroundings(s: string)
    ensures
      var lead, t := Lead(s), Strip(s);
      && lead + |t| <= |s|
      && (forall i | 0 <= i < lead :: IsSpace(s[i]))
      && (forall i | lead + |t| <= i < |s| :: IsSpace(s[i]))
  {
    var lead, n := Lead(s), |Strip(s)|;
    StripLength(s);
    forall i: nat | lead + n <= i < |s|
      ensures IsSpace(s[i])
    {
      TrailIsSpace(s, lead, i);
    }
  }

  /** Where the stripped text sits inside the original, and that only whitespace surrounds it. */
  lemma StripSlice(s: string)
    ensures
      var lead, t := Lead(s), Strip(s);
      && lead + |t| <= |s| && t == s[lead..lead + |t|]
      && Blank(s[..lead]) && Blank(s[lead + |t|..])
      && (t != "" ==> !IsSpace(t[0]) && !IsSpace(t[|t| - 1]))
  {
    StripPosition(s);
    StripSurroundings(s);
  }

  lemma StripEmpty(s: string)
    ensures Strip(s) == "" <==> Blank(s)
  {
    StripPosition(s);
    StripSurroundings(s);
    var lead, t := Lead(s), Strip(s);
    if t != "" {
      assert !IsSpace(s[lead]);
    }
  }

  // ----------------------------------------------------------------- whitespace removed

  function Squeeze(s: string): string {
    if s == "" then "" else (if IsSpace(s[0]) then "" else [s[0]]) + Squeeze(s[1..])
  }

  lemma {:induction false} SqueezeConcat(a: string, b: string)
    ensures Squeeze(a + b) == Squeeze(a) + Squeeze(b)
  {
    if a == "" {
      assert a + b == b;
    } else {
      SqueezeConcat(a[1..], b);
      assert (a + b)[1..] == a[1..] + b && (a + b)[0] == a[0];
      Common.ConcatAssoc(if IsSpace(a[0]) then "" else [a[0]], Squeeze(a[1..]), Squeeze(b));
    }
  }

  lemma {:induction false} SqueezeBlank(s: string)
    ensures Blank(s) <==> Squeeze(s) == ""
  {
    if s != "" {
      SqueezeBlank(s[1..]);
      assert Blank(s) <==> IsSpace(s[0]) && Blank(s[1..]);
    }
  }

  lemma SqueezeAround(head: string, t: string, tail: string)
    requires Blank(head) && Blank(tail)
    ensures Squeeze(head + (t + tail)) == Squeeze(t)
  {
    SqueezeConcat(head, t + tail);
    SqueezeConcat(t, tail);
    SqueezeBlank(head);
    SqueezeBlank(tail);
  }

  lemma SqueezeStrip(s: string)
    ensures Squeeze(Strip(s)) == Squeeze(s)
  {
    StripSlice(s);
    var lead, t := Lead(s), Strip(s);
    assert s == s[..lead] + (t + s[lead + |t|..]);
    SqueezeAround(s[..lead], t, s[lead + |t|..]);
  }

  // ----------------------------------------------------------------- split and join

  ghost predicate IsWord(t: string) {
    t != "" && forall i | 0 <= i < |t| :: !IsSpace(t[i])
  }

  ghost predicate AreWords(ts: seq<string>) {
    forall i | 0 <= i < |ts| :: IsWord(ts[i])
  }

  /** Length of the run of non-space characters at the front. */
  function WordLength(s: string): (n: nat)
    ensures n <= |s| && (forall i | 0 <= i < n :: !IsSpace(s[i])) && (n < |s| ==> IsSpace(s[n]))
  {
    if s == "" || IsSpace(s[0]) then 0 else 1 + WordLength(s[1..])
  }

  /** `s.split()`. */
  function Tokens(s: string): (ts: seq<string>)
    ensures AreWords(ts)
    decreases |s|
  {
    if s == "" then []
    else if IsSpace(s[0]) then Tokens(s[1..])
    else [s[..WordLength(s)]] + Tokens(s[WordLength(s)..])
  }

  /** `" ".join(ts)`. */
  function Join(ts: seq<string>): string {
    if ts == [] then "" else if |ts| == 1 then ts[0] else ts[0] + " " + Join(ts[1..])
  }

  lemma {:induction false} TokensJoin(ts: seq<string>)
    requires AreWords(ts)
    ensures Tokens(Join(ts)) == ts
  {
    if |ts| == 1 {
      WordThenRest(ts[0], "");
      assert ts[0] + "" == ts[0];
    } else if |ts| > 1 {
      TokensJoin(ts[1..]);
      WordThenRest(ts[0], " " + Join(ts[1..]));
      assert ts[0] + " " + Join(ts[1..]) == ts[0] + (" " + Join(ts[1..]));
      assert (" " + Join(ts[1..]))[1..] == Join(ts[1..]);
    }
  }

  lemma WordThenRest(w: string, rest: string)
    requires IsWord(w) && (rest != "" ==> IsSpace(rest[0]))
    ensures Tokens(w + rest) == [w] + Tokens(rest)
  {
    var s := w + rest;
    var n := WordLength(s);
    assert forall i | 0 <= i < |w| :: s[i] == w[i];
    assert rest != "" ==> s[|w|] == rest[0];
    assert n == |w|;
    assert s[..n] == w && s[n..] == rest;
    assert s[0] == w[0];
  }

  // ----------------------------------------------------------------- case

  function LowerChar(c: char): char {
    if 'A' <= c <= 'Z' then (c as int + 32) as char else c
  }

  function UpperChar(c: char): char {
    if 'a' <= c <= 'z' then (c as int - 32) as char else c
  }

  function Lower(s: string): (r: string)
    ensures |r| == |s| && forall i | 0 <= i < |s| :: r[i] == LowerChar(s[i])
  {
    seq(|s|, i requires 0 <= i < |s| => LowerChar(s[i]))
  }

  function LowerAll(ts: seq<string>): (r: seq<string>)
    ensures |r| == |ts| && forall i | 0 <= i < |ts| :: r[i] == Lower(ts[i])
  {
    seq(|ts|, i requires 0 <= i < |ts| => Lower(ts[i]))
  }

  /** `word[:1].upper() + word[1:]`. */
  function Capitalized(w: string): string {
    if w == "" then "" else [UpperChar(w[0])] + w[1..]
  }

  lemma LowerCapitalized(w: string)
    ensures Lower(Capitalized(w)) == Lower(w)
    ensures IsWord(w) ==> IsWord(Capitalized(w))
  {
    if IsWord(w) {
      var r := Capitalized(w);
      if r[0] != w[0] {
        LettersAreNotSpace(r[0]);
      }
      assert forall i | 0 < i < |w| :: r[i] == w[i];
    }
  }

  lemma LowerKeepsWord(t: string)
    requires IsWord(t)
    ensures IsWord(Lower(t))
  {
    forall i | 0 <= i < |t|
      ensures !IsSpace(Lower(t)[i])
    {
      if 'A' <= t[i] <= 'Z' {
        LettersAreNotSpace(LowerChar(t[i]));
      }
    }
  }

  /** Substring test. */
  predicate Contains(text: string, part: string) {
    exists i | 0 <= i <= |text| :: part <= text[i..]
  }

  // ----------------------------------------------------------------- numbers

  /** `str` of a natural number. */
  function Digits(n: nat): string {
    if n < 10 then [('0' as int + n) as char] else Digits(n / 10) + [('0' as int + n % 10) as char]
  }

  predicate IsDigit(c: char) {
    '0' <= c <= '9'
  }

  lemma {:induction false} DigitsAreDigits(n: nat)
    ensures Digits(n) != "" && forall i | 0 <= i < |Digits(n)| :: IsDigit(Digits(n)[i])
  {
    if n >= 10 {
      DigitsAreDigits(n / 10);
    }
  }

  lemma {:induction false} DigitsAreInjective(m: nat, n: nat)
    requires Digits(m) == Digits(n)
    ensures m == n
  {
    var s, t := Digits(m), Digits(n);
    DigitsAreDigits(m / 10);
    DigitsAreDigits(n / 10);
    assert s[|s| - 1] == t[|t| - 1];
    assert m % 10 == n % 10;
    if m >= 10 && n >= 10 {
      assert s[..|s| - 1] == Digits(m / 10) && t[..|t| - 1] == Digits(n / 10);
      DigitsAreInjective(m / 10, n / 10);
    }
  }
}
