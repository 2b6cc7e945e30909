/** STEP 5 of the script: `df.nlargest(TARGET_COUNT, 'score')`, the default
    `keep='first'` form. */
module Selection {
  import opened Seqs
  import opened Enrichment

  /** Row `i` ranks ahead of row `j`: a higher score, or an equal score and an
      earlier position. This is a strict total order on the row positions. */
  predicate Ahead(s: seq<real>, i: nat, j: nat)
    requires i < |s| && j < |s|
  {
    s[i] > s[j] || (s[i] == s[j] && i < j)
  }

  predicate InRange(s: seq<real>, idx: seq<nat>)
  {
    forall a :: 0 <= a < |idx| ==> idx[a] < |s|
  }

  /** Every position of `idx` ranks ahead of every later one. */
  predicate Ranked(s: seq<real>, idx: seq<nat>)
    requires InRange(s, idx)
  {
    forall a, b :: 0 <= a < b < |idx| ==> Ahead(s, idx[a], idx[b])
  }

  /** Inserts position `k` in front of the first position it ranks ahead of. */
  function Insert(s: seq<real>, k: nat, idx: seq<nat>): (r: seq<nat>)
    requires k < |s| && InRange(s, idx)
    ensures |r| == |idx| + 1 && InRange(s, r)
    ensures forall x :: x in r <==> x == k || x in idx
  {
    if idx == [] then [k]
    else if Ahead(s, k, idx[0]) then [k] + idx
    else [idx[0]] + Insert(s, k, idx[1..])
  }

  /** Inserting a new position into a ranked sequence keeps it ranked. */
  lemma {:induction false} InsertRanked(s: seq<real>, k: nat, idx: seq<nat>)
    requires k < |s| && InRange(s, idx) && Ranked(s, idx) && k !in idx
    ensures Ranked(s, Insert(s, k, idx))
  {
    if idx != [] && !Ahead(s, k, idx[0]) {
      var tail := idx[1..];
      assert forall b :: 0 <= b < |tail| ==> tail[b] == idx[b + 1];
      InsertRanked(s, k, tail);
      var rest := Insert(s, k, tail);
      forall b | 0 <= b < |rest| ensures Ahead(s, idx[0], rest[b]) {
        assert rest[b] in rest;
        if rest[b] != k {
          var c :| 0 <= c < |tail| && tail[c] == rest[b];
        }
      }
      var r := [idx[0]] + rest;
      assert forall a :: 0 < a < |r| ==> r[a] == rest[a - 1];
    }
  }

  /** The positions `0 .. m-1`, ranked. */
  function Ranking(s: seq<real>, m: nat): (r: seq<nat>)
    requires m <= |s|
    ensures |r| == m && InRange(s, r) && Ranked(s, r)
    ensures forall x: nat :: x in r <==> x < m
  {
    if m == 0 then []
    else
      InsertRanked(s, m - 1, Ranking(s, m - 1));
      Insert(s, m - 1, Ranking(s, m - 1))
  }

  /** The positions `nlargest(n)` selects, in the order it returns them. */
  function TopIndices(s: seq<real>, n: nat): (r: seq<nat>)
    ensures |r| == Min(n, |s|) && InRange(s, r)
    // sorted by score, descending; equal scores in their original order
    ensures forall a, b :: 0 <= a < b < |r| ==> Ahead(s, r[a], r[b])
    // every selected row ranks ahead of every row left out
    ensures forall a, k :: 0 <= a < |r| && 0 <= k < |s| && k !in r ==> Ahead(s, r[a], k)
  {
    var all := Ranking(s, |s|);
    var r := all[..Min(n, |s|)];
    assert forall k :: 0 <= k < |s| && k !in r ==> exists p :: Min(n, |s|) <= p < |s| && all[p] == k by {
      forall k | 0 <= k < |s| && k !in r
        ensures exists p :: Min(n, |s|) <= p < |s| && all[p] == k
      {
        assert k in all;
        var p :| 0 <= p < |all| && all[p] == k;
        assert p >= Min(n, |s|);
      }
    }
    r
  }

  /** The score column of the frame. */
  function Scores(items: seq<Item>): (s: seq<real>)
    requires Scored(items)
    ensures |s| == |items| && forall k :: 0 <= k < |items| ==> s[k] == items[k].row.score.value
  {
    seq(|items|, k requires 0 <= k < |items| => items[k].row.score.value)
  }

  /** `top_anime`: the rows at the positions `TopIndices` selects. */
  function TopAnime(items: seq<Item>, n: nat): (top: seq<Item>)
    requires Scored(items)
    ensures |top| == Min(n, |items|) && Scored(top)
    ensures forall a :: 0 <= a < |top| ==> top[a] in items
    ensures forall a :: 0 <= a < |top| ==> top[a] == items[TopIndices(Scores(items), n)[a]]
    ensures forall a, b :: 0 <= a < b < |top| ==> top[a].row.score.value >= top[b].row.score.value
  {
    var idx := TopIndices(Scores(items), n);
    seq(|idx|, a requires 0 <= a < |idx| => items[idx[a]])
  }
}
