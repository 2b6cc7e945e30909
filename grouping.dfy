/** `groupby(key).agg({'score': 'mean', 'anime_id': 'count'})`, over the
    projection of each frame row onto its group key, its score and whether
    its `anime_id` cell is present. */
module Grouping {
  import opened Seqs

  /** One frame row as the aggregation sees it. */
  datatype Obs<K> = Obs(key: K, score: real, hasId: bool)

  /** One aggregated group: its key, its mean score and its `anime_id` count. */
  datatype GroupStat<K> = GroupStat(key: K, mean: real, count: nat)

  /** The `{labels, scores, counts}` object written for a statistics table. */
  datatype Table = Table(labels: seq<string>, scores: seq<real>, counts: seq<nat>)

  /** Number of rows in group `k`. */
  function Size<K(==,!new)>(obs: seq<Obs<K>>, k: K): nat
  {
    if obs == [] then 0 else (if obs[0].key == k then 1 else 0) + Size(obs[1..], k)
  }

  /** pandas' `count` of `anime_id` in group `k`: its rows whose id is present. */
  function IdCount<K(==,!new)>(obs: seq<Obs<K>>, k: K): nat
  {
    if obs == [] then 0 else (if obs[0].key == k && obs[0].hasId then 1 else 0) + IdCount(obs[1..], k)
  }

  function ScoreSum<K(==,!new)>(obs: seq<Obs<K>>, k: K): real
  {
    if obs == [] then 0.0 else (if obs[0].key == k then obs[0].score else 0.0) + ScoreSum(obs[1..], k)
  }

  /** pandas' `mean` of `score` in a non-empty group. */
  function Mean<K(==,!new)>(obs: seq<Obs<K>>, k: K): real
    requires Size(obs, k) > 0
  {
    ScoreSum(obs, k) / (Size(obs, k) as real)
  }

  /** Rows whose id is present, whatever their group. */
  function TotalIds<K(==,!new)>(obs: seq<Obs<K>>): nat
  {
    if obs == [] then 0 else (if obs[0].hasId then 1 else 0) + TotalIds(obs[1..])
  }

  /** Rows whose id is present and whose key is one of `ks`. */
  function IdCountIn<K(==,!new)>(obs: seq<Obs<K>>, ks: seq<K>): nat
  {
    if obs == [] then 0 else (if obs[0].hasId && obs[0].key in ks then 1 else 0) + IdCountIn(obs[1..], ks)
  }

  /** The sum over `ks` of the groups' `anime_id` counts. */
  function SumIdCounts<K(==,!new)>(obs: seq<Obs<K>>, ks: seq<K>): nat
  {
    if ks == [] then 0 else IdCount(obs, ks[0]) + SumIdCounts(obs, ks[1..])
  }

  /** A group is non-empty exactly when some row carries its key. */
  lemma {:induction false} SizeOccurs<K(!new)>(obs: seq<Obs<K>>, k: K)
    ensures Size(obs, k) > 0 <==> exists i :: 0 <= i < |obs| && obs[i].key == k
  {
    if obs != [] {
      SizeOccurs(obs[1..], k);
      if exists i :: 0 <= i < |obs[1..]| && obs[1..][i].key == k {
        var i :| 0 <= i < |obs[1..]| && obs[1..][i].key == k;
        assert obs[i + 1].key == k;
      }
      if exists i :: 0 <= i < |obs| && obs[i].key == k {
        var i :| 0 <= i < |obs| && obs[i].key == k;
        if i > 0 {
          assert obs[1..][i - 1].key == k;
        }
      }
    }
  }

  /** An id count never exceeds its group's size, and is the size when every id is present. */
  lemma {:induction false} IdCountBounded<K(!new)>(obs: seq<Obs<K>>, k: K)
    ensures IdCount(obs, k) <= Size(obs, k)
    ensures (forall i :: 0 <= i < |obs| ==> obs[i].hasId) ==> IdCount(obs, k) == Size(obs, k)
  {
    if obs != [] {
      IdCountBounded(obs[1..], k);
      assert forall i :: 1 <= i < |obs| ==> obs[1..][i - 1] == obs[i];
    }
  }

  /** With every id present, every row is counted. */
  lemma {:induction false} TotalIdsAllPresent<K(!new)>(obs: seq<Obs<K>>)
    requires forall i :: 0 <= i < |obs| ==> obs[i].hasId
    ensures TotalIds(obs) == |obs|
  {
    if obs != [] {
      assert forall i :: 1 <= i < |obs| ==> obs[1..][i - 1] == obs[i];
      TotalIdsAllPresent(obs[1..]);
    }
  }

  /** The distinct group keys, one per group. */
  function Keys<K(==,!new)>(obs: seq<Obs<K>>): (ks: seq<K>)
    ensures Distinct(ks)
    ensures forall k :: k in ks <==> Size(obs, k) > 0
  {
    if obs == [] then []
    else
      var rest := Keys(obs[1..]);
      if obs[0].key in rest then rest else [obs[0].key] + rest
  }

  lemma {:induction false} IdCountInNone<K(!new)>(obs: seq<Obs<K>>)
    ensures IdCountIn(obs, []) == 0
  {
    if obs != [] {
      IdCountInNone(obs[1..]);
    }
  }

  /** Adding one more key adds exactly that group's count. */
  lemma {:induction false} IdCountInCons<K(!new)>(obs: seq<Obs<K>>, k: K, ks: seq<K>)
    requires k !in ks
    ensures IdCountIn(obs, [k] + ks) == IdCount(obs, k) + IdCountIn(obs, ks)
  {
    if obs != [] {
      IdCountInCons(obs[1..], k, ks);
    }
  }

  /** Count conservation: summing the counts of distinct groups counts each
      identified row of those groups once. */
  lemma {:induction false} SumIdCountsConserves<K(!new)>(obs: seq<Obs<K>>, ks: seq<K>)
    requires Distinct(ks)
    ensures SumIdCounts(obs, ks) == IdCountIn(obs, ks)
  {
    if ks == [] {
      IdCountInNone(obs);
    } else {
      assert ks == [ks[0]] + ks[1..];
      assert forall i, j :: 0 <= i < j < |ks[1..]| ==> ks[1..][i] == ks[i + 1] && ks[1..][j] == ks[j + 1];
      SumIdCountsConserves(obs, ks[1..]);
      IdCountInCons(obs, ks[0], ks[1..]);
    }
  }

  /** When `ks` holds every key, the identified rows among `ks` are all of them. */
  lemma {:induction false} IdCountInCovering<K(!new)>(obs: seq<Obs<K>>, ks: seq<K>)
    requires forall i :: 0 <= i < |obs| ==> obs[i].key in ks
    ensures IdCountIn(obs, ks) == TotalIds(obs)
  {
    if obs != [] {
      assert forall i :: 1 <= i < |obs| ==> obs[1..][i - 1] == obs[i];
      IdCountInCovering(obs[1..], ks);
    }
  }

  /** When every key is in `ks` or is `u`, which is not in `ks`, the identified
      rows among `ks` are all those outside group `u`. */
  lemma {:induction false} IdCountInAllBut<K(!new)>(obs: seq<Obs<K>>, ks: seq<K>, u: K)
    requires u !in ks
    requires forall i :: 0 <= i < |obs| ==> obs[i].key in ks || obs[i].key == u
    ensures IdCountIn(obs, ks) + IdCount(obs, u) == TotalIds(obs)
  {
    if obs != [] {
      assert forall i :: 1 <= i < |obs| ==> obs[1..][i - 1] == obs[i];
      IdCountInAllBut(obs[1..], ks, u);
    }
  }

  /** The aggregated row of each key in `ks`, in that order. */
  function Summarize<K(==,!new)>(obs: seq<Obs<K>>, ks: seq<K>): (ts: seq<GroupStat<K>>)
    requires forall i :: 0 <= i < |ks| ==> Size(obs, ks[i]) > 0
    ensures |ts| == |ks|
    ensures forall i :: 0 <= i < |ks| ==> ts[i] == GroupStat(ks[i], Mean(obs, ks[i]), IdCount(obs, ks[i]))
    ensures SumCounts(ts) == SumIdCounts(obs, ks)
  {
    if ks == [] then [] else [GroupStat(ks[0], Mean(obs, ks[0]), IdCount(obs, ks[0]))] + Summarize(obs, ks[1..])
  }

  function SumCounts<K(==,!new)>(ts: seq<GroupStat<K>>): nat
  {
    if ts == [] then 0 else ts[0].count + SumCounts(ts[1..])
  }

  predicate DistinctKeys<K(==,!new)>(ts: seq<GroupStat<K>>)
  {
    forall i, j :: 0 <= i < j < |ts| ==> ts[i].key != ts[j].key
  }

  predicate NonIncreasing<K(==,!new)>(ts: seq<GroupStat<K>>)
  {
    forall i, j :: 0 <= i < j < |ts| ==> ts[i].mean >= ts[j].mean
  }

  /** Inserts `t` before the first group whose mean does not exceed its own. */
  function InsertByMean<K(==,!new)>(t: GroupStat<K>, ts: seq<GroupStat<K>>): (r: seq<GroupStat<K>>)
    ensures |r| == |ts| + 1
    ensures forall u :: u in r <==> u == t || u in ts
    ensures SumCounts(r) == t.count + SumCounts(ts)
  {
    if ts == [] then [t]
    else if t.mean >= ts[0].mean then [t] + ts
    else [ts[0]] + InsertByMean(t, ts[1..])
  }

  /** Insertion keeps the means non-increasing. */
  lemma {:induction false} InsertByMeanSorted<K(!new)>(t: GroupStat<K>, ts: seq<GroupStat<K>>)
    requires NonIncreasing(ts)
    ensures NonIncreasing(InsertByMean(t, ts))
  {
    if ts != [] && t.mean < ts[0].mean {
      var tail := ts[1..];
      assert forall b :: 0 <= b < |tail| ==> tail[b] == ts[b + 1];
      InsertByMeanSorted(t, tail);
      var rest := InsertByMean(t, tail);
      forall b | 0 <= b < |rest| ensures ts[0].mean >= rest[b].mean {
        assert rest[b] in rest;
        if rest[b] != t {
          var c :| 0 <= c < |tail| && tail[c] == rest[b];
        }
      }
      var r := [ts[0]] + rest;
      assert forall a :: 0 < a < |r| ==> r[a] == rest[a - 1];
    }
  }

  /** Insertion of a group with a new key keeps the keys distinct. */
  lemma {:induction false} InsertByMeanDistinct<K(!new)>(t: GroupStat<K>, ts: seq<GroupStat<K>>)
    requires DistinctKeys(ts)
    requires forall i :: 0 <= i < |ts| ==> ts[i].key != t.key
    ensures DistinctKeys(InsertByMean(t, ts))
  {
    if ts != [] && t.mean < ts[0].mean {
      var tail := ts[1..];
      assert forall b :: 0 <= b < |tail| ==> tail[b] == ts[b + 1];
      InsertByMeanDistinct(t, tail);
      var rest := InsertByMean(t, tail);
      forall b | 0 <= b < |rest| ensures ts[0].key != rest[b].key {
        assert rest[b] in rest;
        if rest[b] != t {
          var c :| 0 <= c < |tail| && tail[c] == rest[b];
        }
      }
      var r := [ts[0]] + rest;
      assert forall a :: 0 < a < |r| ==> r[a] == rest[a - 1];
    }
  }

  /** `sort_values('score', ascending=False)`: the same groups, by descending mean. */
  function SortByMean<K(==,!new)>(ts: seq<GroupStat<K>>): (r: seq<GroupStat<K>>)
    ensures |r| == |ts|
    ensures forall u :: u in r <==> u in ts
    ensures SumCounts(r) == SumCounts(ts)
    ensures NonIncreasing(r)
  {
    if ts == [] then []
    else
      var rest := SortByMean(ts[1..]);
      InsertByMeanSorted(ts[0], rest);
      InsertByMean(ts[0], rest)
  }

  /** Sorting keeps distinct keys distinct. */
  lemma {:induction false} SortByMeanDistinct<K(!new)>(ts: seq<GroupStat<K>>)
    requires DistinctKeys(ts)
    ensures DistinctKeys(SortByMean(ts))
  {
    if ts != [] {
      var tail := ts[1..];
      assert forall i :: 0 <= i < |tail| ==> tail[i] == ts[i + 1];
      SortByMeanDistinct(tail);
      var rest := SortByMean(tail);
      forall i | 0 <= i < |rest| ensures rest[i].key != ts[0].key {
        assert rest[i] in tail;
        var c :| 0 <= c < |tail| && tail[c] == rest[i];
      }
      InsertByMeanDistinct(ts[0], rest);
    }
  }

  /** `groupby(key).agg({'score': 'mean', 'anime_id': 'count'})` followed by
      `sort_values('score', ascending=False)`: one group per key that occurs,
      carrying that key's mean score and id count, by descending mean; the
      group counts together count every identified row once. */
  function Aggregate<K(==,!new)>(obs: seq<Obs<K>>): (gs: seq<GroupStat<K>>)
    ensures DistinctKeys(gs) && NonIncreasing(gs)
    ensures forall i :: 0 <= i < |gs| ==>
      Size(obs, gs[i].key) > 0 && gs[i] == GroupStat(gs[i].key, Mean(obs, gs[i].key), IdCount(obs, gs[i].key))
    ensures forall k :: Size(obs, k) > 0 ==> exists i :: 0 <= i < |gs| && gs[i].key == k
    ensures SumCounts(gs) == TotalIds(obs)
  {
    var ks := Keys(obs);
    assert forall i :: 0 <= i < |ks| ==> ks[i] in ks;
    var sum := Summarize(obs, ks);
    var gs := SortByMean(sum);
    AggregateSound(obs, ks, sum, gs);
    gs
  }

  lemma {:induction false} AggregateSound<K(!new)>(obs: seq<Obs<K>>, ks: seq<K>, sum: seq<GroupStat<K>>, gs: seq<GroupStat<K>>)
    requires ks == Keys(obs)
    requires forall i :: 0 <= i < |ks| ==> Size(obs, ks[i]) > 0
    requires sum == Summarize(obs, ks) && gs == SortByMean(sum)
    ensures DistinctKeys(gs)
    ensures forall i :: 0 <= i < |gs| ==>
      Size(obs, gs[i].key) > 0 && gs[i] == GroupStat(gs[i].key, Mean(obs, gs[i].key), IdCount(obs, gs[i].key))
    ensures forall k :: Size(obs, k) > 0 ==> exists i :: 0 <= i < |gs| && gs[i].key == k
    ensures SumCounts(gs) == TotalIds(obs)
  {
    assert DistinctKeys(sum);
    SortByMeanDistinct(sum);
    forall i | 0 <= i < |gs|
      ensures Size(obs, gs[i].key) > 0 && gs[i] == GroupStat(gs[i].key, Mean(obs, gs[i].key), IdCount(obs, gs[i].key))
    {
      assert gs[i] in gs;
      var j :| 0 <= j < |sum| && sum[j] == gs[i];
    }
    forall k | Size(obs, k) > 0 ensures exists i :: 0 <= i < |gs| && gs[i].key == k {
      var j :| 0 <= j < |ks| && ks[j] == k;
      assert sum[j] in gs;
      var i :| 0 <= i < |gs| && gs[i] == sum[j];
    }
    SumIdCountsConserves(obs, ks);
    forall i | 0 <= i < |obs| ensures obs[i].key in ks {
      SizeOccurs(obs, obs[i].key);
    }
    IdCountInCovering(obs, ks);
  }

  /** The three parallel lists of a table, one position per group. */
  function Columns<K(==,!new)>(ts: seq<GroupStat<K>>, name: K -> string): (t: Table)
    ensures |t.labels| == |ts| && |t.scores| == |ts| && |t.counts| == |ts|
    ensures forall i :: 0 <= i < |ts| ==>
      t.labels[i] == name(ts[i].key) && t.scores[i] == ts[i].mean && t.counts[i] == ts[i].count
    ensures Sum(t.counts) == SumCounts(ts)
  {
    if ts == [] then Table([], [], [])
    else
      var rest := Columns(ts[1..], name);
      Table([name(ts[0].key)] + rest.labels, [ts[0].mean] + rest.scores, [ts[0].count] + rest.counts)
  }
}
