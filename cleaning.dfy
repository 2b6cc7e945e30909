/** STEP 2 of the script: the four rebindings of `df` that clean the frame. */
module Cleaning {
  import opened Rows
  import opened Seqs

  /** `dropna(subset=['score', 'genres'])` keeps a row with both cells present. */
  predicate HasRequired(r: Row)
  {
    r.score.Some? && r.genres.Some?
  }

  /** `df['score'] > 0`; a missing score compares false and is dropped too. */
  predicate HasPositiveScore(r: Row)
  {
    r.score.Some? && r.score.value > 0.0
  }

  /** `fillna(0)` on one `episodes` cell. */
  function WithEpisodes(r: Row): Row
  {
    r.(episodes := Some(r.episodes.GetOr(0)))
  }

  /** `fillna(0)` on one `members` cell. */
  function WithMembers(r: Row): Row
  {
    r.(members := Some(r.members.GetOr(0)))
  }

  /** Line 26: the rows whose score and genres cells are both present. */
  function DropMissing(df: seq<Row>): (r: seq<Row>)
    ensures |r| <= |df|
    ensures forall x :: x in r <==> x in df && x.score.Some? && x.genres.Some?
  {
    Filter(HasRequired, df)
  }

  /** Line 30: the rows whose score is present and above 0. */
  function KeepPositive(df: seq<Row>): (r: seq<Row>)
    ensures |r| <= |df|
    ensures forall x :: x in r <==> x in df && x.score.Some? && x.score.value > 0.0
  {
    Filter(HasPositiveScore, df)
  }

  /** Line 34: row by row, a missing episode count becomes 0 and nothing else changes. */
  function FillEpisodes(df: seq<Row>): (r: seq<Row>)
    ensures |r| == |df|
    ensures forall i :: 0 <= i < |df| ==>
      r[i].episodes == Some(df[i].episodes.GetOr(0)) && r[i].(episodes := df[i].episodes) == df[i]
  {
    Map(WithEpisodes, df)
  }

  /** Line 38: row by row, a missing member count becomes 0 and nothing else changes. */
  function FillMembers(df: seq<Row>): (r: seq<Row>)
    ensures |r| == |df|
    ensures forall i :: 0 <= i < |df| ==>
      r[i].members == Some(df[i].members.GetOr(0)) && r[i].(members := df[i].members) == df[i]
  {
    Map(WithMembers, df)
  }

  /** What every row of the cleaned frame satisfies. */
  predicate IsClean(r: Row)
  {
    r.score.Some? && r.genres.Some? && r.score.value > 0.0 && r.episodes.Some? && r.members.Some?
  }

  /** The frame after lines 26, 30, 34 and 38, in that order. */
  function Clean(df: seq<Row>): (c: seq<Row>)
    ensures |c| <= |df|
    ensures forall k :: 0 <= k < |c| ==> IsClean(c[k])
  {
    var kept := KeepPositive(DropMissing(df));
    assert forall k :: 0 <= k < |kept| ==> kept[k] in kept && kept[k] in DropMissing(df);
    FillMembers(FillEpisodes(kept))
  }

  /** The row-level test the two filters apply together. */
  predicate Keeps(r: Row)
  {
    r.score.Some? && r.genres.Some? && r.score.value > 0.0
  }

  /** The two `fillna` steps applied to one row. */
  function Filled(r: Row): Row
  {
    WithMembers(WithEpisodes(r))
  }

  /** Filling touches only `episodes` and `members`, and only when they are missing. */
  lemma FilledChangesOnlyCounts(r: Row)
    ensures Filled(r).animeId == r.animeId && Filled(r).name == r.name
    ensures Filled(r).genres == r.genres && Filled(r).score == r.score
    ensures Filled(r).episodes == Some(r.episodes.GetOr(0))
    ensures Filled(r).members == Some(r.members.GetOr(0))
    ensures r.episodes.Some? && r.members.Some? ==> Filled(r) == r
  {
  }

  /** The four steps amount to one pass: keep the rows that pass both filters,
      then fill their counts. */
  lemma CleanIsOnePass(df: seq<Row>)
    ensures Clean(df) == Map(Filled, Filter(Keeps, df))
  {
    FilterFuse(HasRequired, HasPositiveScore, Keeps, df);
    MapFuse(WithEpisodes, WithMembers, Filled, Filter(Keeps, df));
  }

  /** Cleaning a concatenation cleans each part: surviving rows keep their
      relative order. */
  lemma CleanAppend(a: seq<Row>, b: seq<Row>)
    ensures Clean(a + b) == Clean(a) + Clean(b)
  {
    CleanIsOnePass(a + b);
    CleanIsOnePass(a);
    CleanIsOnePass(b);
    FilterAppend(Keeps, a, b);
    MapAppend(Filled, Filter(Keeps, a), Filter(Keeps, b));
  }

  /** One row survives exactly when its score and genres are present and its
      score is positive, and then only its counts are filled. */
  lemma CleanSingleton(r: Row)
    ensures Clean([r]) == if Keeps(r) then [Filled(r)] else []
  {
    CleanIsOnePass([r]);
    assert [r][1..] == [];
  }

  /** A cleaned row is the filled form of a surviving input row, and every
      surviving input row appears filled. */
  lemma CleanMembership(df: seq<Row>, c: Row)
    ensures c in Clean(df) <==> exists r :: r in df && Keeps(r) && c == Filled(r)
  {
    CleanIsOnePass(df);
    if c in Clean(df) {
      CleanedFromKept(Filter(Keeps, df), c);
    }
    if r :| r in df && Keeps(r) && c == Filled(r) {
      KeptIsCleaned(Filter(Keeps, df), r);
    }
  }

  lemma CleanedFromKept(kept: seq<Row>, c: Row)
    requires c in Map(Filled, kept)
    ensures exists r :: r in kept && c == Filled(r)
  {
    var m := Map(Filled, kept);
    var i :| 0 <= i < |m| && m[i] == c;
    assert kept[i] in kept;
  }

  lemma KeptIsCleaned(kept: seq<Row>, r: Row)
    requires r in kept
    ensures Filled(r) in Map(Filled, kept)
  {
    var i :| 0 <= i < |kept| && kept[i] == r;
    assert Map(Filled, kept)[i] == Filled(r);
  }

  /** Cleaning a cleaned frame changes nothing. */
  lemma CleanIdempotent(df: seq<Row>)
    ensures Clean(Clean(df)) == Clean(df)
  {
    var c := Clean(df);
    CleanIsOnePass(c);
    FilterAll(Keeps, c);
    forall k | 0 <= k < |c| ensures Filled(c[k]) == c[k] {
      FilledChangesOnlyCounts(c[k]);
    }
    assert Map(Filled, c) == c;
  }
}
