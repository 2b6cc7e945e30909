/** The `primary_genre` column: `genres.str.split(',').str[0].str.strip()`. */
module Genres {

  /** The characters Python's `str.isspace` accepts, which `str.strip()` removes. */
  predicate IsSpace(c: char)
  {
    c == ' ' || '\t' <= c <= '\r' || '\U{1c}' <= c <= '\U{1f}' || c == '\U{85}' || c == '\U{a0}'
    || c == '\U{1680}' || '\U{2000}' <= c <= '\U{200a}' || c == '\U{2028}' || c == '\U{2029}'
    || c == '\U{202f}' || c == '\U{205f}' || c == '\U{3000}'
  }

  predicate NoComma(s: string)
  {
    forall k :: 0 <= k < |s| ==> s[k] != ','
  }

  /** The position of the first comma at or after `i`, or `|s|` when there is none. */
  function CommaFrom(s: string, i: nat): (n: nat)
    requires i <= |s|
    ensures i <= n <= |s|
    ensures forall k :: i <= k < n ==> s[k] != ','
    ensures n < |s| ==> s[n] == ','
    decreases |s| - i
  {
    if i == |s| || s[i] == ',' then i else CommaFrom(s, i + 1)
  }

  /** Element 0 of `s.split(',')`: the text before the first comma, or all of
      `s` when it has none. */
  function FirstToken(s: string): (r: string)
    ensures |r| <= |s| && r == s[..|r|]
    ensures NoComma(r)
    ensures |r| < |s| ==> s[|r|] == ','
  {
    var n := CommaFrom(s, 0);
    assert forall k :: 0 <= k < n ==> s[..n][k] == s[k];
    s[..n]
  }

  /** The position of the first non-whitespace character at or after `i`. */
  function SpaceEnd(s: string, i: nat): (n: nat)
    requires i <= |s|
    ensures i <= n <= |s|
    ensures forall k :: i <= k < n ==> IsSpace(s[k])
    ensures n < |s| ==> !IsSpace(s[n])
    decreases |s| - i
  {
    if i == |s| || !IsSpace(s[i]) then i else SpaceEnd(s, i + 1)
  }

  /** Scanning down from `j`, but not below `lo`: the start of the whitespace
      run that ends at `j`. */
  function SpaceStart(s: string, lo: nat, j: nat): (m: nat)
    requires lo <= j <= |s|
    ensures lo <= m <= j
    ensures forall k :: m <= k < j ==> IsSpace(s[k])
    ensures m > lo ==> !IsSpace(s[m - 1])
    decreases j
  {
    if j == lo || !IsSpace(s[j - 1]) then j else SpaceStart(s, lo, j - 1)
  }

  /** Where `str.strip()` starts and ends its result. */
  function StripStart(s: string): nat
  {
    SpaceEnd(s, 0)
  }

  function StripEnd(s: string): nat
  {
    SpaceStart(s, SpaceEnd(s, 0), |s|)
  }

  /** `str.strip()`: `s` without a whitespace-only prefix and a whitespace-only
      suffix, neither end of what remains being whitespace. */
  function Strip(s: string): (r: string)
    ensures StripStart(s) <= StripEnd(s) <= |s|
    ensures r == s[StripStart(s)..StripEnd(s)]
    ensures forall k :: 0 <= k < StripStart(s) ==> IsSpace(s[k])
    ensures forall k :: StripEnd(s) <= k < |s| ==> IsSpace(s[k])
    ensures r == [] || (!IsSpace(r[0]) && !IsSpace(r[|r| - 1]))
  {
    s[SpaceEnd(s, 0)..SpaceStart(s, SpaceEnd(s, 0), |s|)]
  }

  /** `str.split(',').str[0].str.strip()`: the first comma-separated token,
      trimmed. It holds no comma and no whitespace at either end, and it is
      that token with only whitespace removed around it. */
  function PrimaryGenre(genres: string): (g: string)
    ensures NoComma(g)
    ensures g == [] || (!IsSpace(g[0]) && !IsSpace(g[|g| - 1]))
    ensures var t := FirstToken(genres);
      && StripStart(t) <= StripEnd(t) <= |t| && g == t[StripStart(t)..StripEnd(t)]
      && (forall k :: 0 <= k < StripStart(t) ==> IsSpace(t[k]))
      && (forall k :: StripEnd(t) <= k < |t| ==> IsSpace(t[k]))
  {
    var t := FirstToken(genres);
    var g := Strip(t);
    assert forall k :: 0 <= k < |g| ==> g[k] == t[StripStart(t) + k];
    g
  }

  /** Without a comma the whole `genres` text is the token. */
  lemma {:induction false} PrimaryGenreWithoutComma(genres: string)
    requires NoComma(genres)
    ensures PrimaryGenre(genres) == Strip(genres)
  {
    var t := FirstToken(genres);
    if |t| < |genres| {
      assert false;
    }
    assert t == genres;
  }

  /** A comma-free, already trimmed genre is its own primary genre. */
  lemma {:induction false} PrimaryGenreOfTrimmed(g: string)
    requires NoComma(g) && (g == [] || (!IsSpace(g[0]) && !IsSpace(g[|g| - 1])))
    ensures PrimaryGenre(g) == g
  {
    PrimaryGenreWithoutComma(g);
    StripTrimmed(g);
  }

  /** Stripping text with no whitespace at either end leaves it unchanged. */
  lemma StripTrimmed(s: string)
    requires s == [] || (!IsSpace(s[0]) && !IsSpace(s[|s| - 1]))
    ensures Strip(s) == s
  {
    assert StripStart(s) == 0;
    assert StripEnd(s) == |s|;
  }

  /** Re-deriving the primary genre from a primary genre changes nothing. */
  lemma {:induction false} PrimaryGenreIdempotent(genres: string)
    ensures PrimaryGenre(PrimaryGenre(genres)) == PrimaryGenre(genres)
  {
    PrimaryGenreOfTrimmed(PrimaryGenre(genres));
  }

  /** The first token of `t,u` is `t` whenever `t` has no comma. */
  lemma {:induction false} FirstTokenBeforeComma(t: string, u: string)
    requires NoComma(t)
    ensures FirstToken(t + [','] + u) == t
  {
    var s := t + [','] + u;
    var r := FirstToken(s);
    assert s[|t|] == ',';
    assert forall k :: 0 <= k < |t| ==> s[k] == t[k];
    assert |r| == |t|;
    assert r == s[..|t|] == t;
  }
}
