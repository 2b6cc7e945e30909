/** STEPS 7 and 8 of the script: the genre and episode-range statistics,
    both aggregated over the whole cleaned frame. */
module Stats {
  import opened Rows
  import opened Seqs
  import opened Episodes
  import opened Enrichment
  import opened Grouping

  /** Each frame row as the aggregation sees it, grouped by `key`. */
  function Observe<K>(items: seq<Item>, key: Item -> K): (obs: seq<Obs<K>>)
    requires Scored(items)
    ensures |obs| == |items|
    ensures forall i :: 0 <= i < |items| ==>
      obs[i] == Obs(key(items[i]), items[i].row.score.value, items[i].row.animeId.Some?)
  {
    seq(|items|, i requires 0 <= i < |items| => Obs(key(items[i]), items[i].row.score.value, items[i].row.animeId.Some?))
  }

  function GenreOf(it: Item): string
  {
    it.primaryGenre
  }

  function RangeOf(it: Item): EpisodeRange
  {
    it.episodeRange
  }

  /** Rows whose `anime_id` cell is present. */
  function Identified(items: seq<Item>): nat
  {
    if items == [] then 0 else (if items[0].row.animeId.Some? then 1 else 0) + Identified(items[1..])
  }

  /** Whatever the grouping key, the identified rows are the same. */
  lemma {:induction false} TotalIdsIsIdentified<K(!new)>(items: seq<Item>, key: Item -> K)
    requires Scored(items)
    ensures TotalIds(Observe(items, key)) == Identified(items)
  {
    if items != [] {
      var obs := Observe(items, key);
      assert obs[1..] == Observe(items[1..], key);
      TotalIdsIsIdentified(items[1..], key);
    }
  }

  // ---------------------------------------------------------------- genres

  /** Lines 142-154: `genre_data`. The labels are distinct and are exactly the
      primary genres that occur; the scores are non-increasing; each label's
      score and count are the mean score and the `anime_id` count of its rows;
      and the counts add up to the identified rows of the frame. */
  function GenreData(items: seq<Item>): (t: Table)
    requires Scored(items)
    ensures |t.scores| == |t.labels| && |t.counts| == |t.labels|
    ensures Distinct(t.labels)
    ensures forall g :: g in t.labels <==> Size(Observe(items, GenreOf), g) > 0
    ensures forall i, j :: 0 <= i < j < |t.scores| ==> t.scores[i] >= t.scores[j]
    ensures forall i :: 0 <= i < |t.labels| ==>
      && t.scores[i] == Mean(Observe(items, GenreOf), t.labels[i])
      && t.counts[i] == IdCount(Observe(items, GenreOf), t.labels[i])
    ensures Sum(t.counts) == Identified(items)
  {
    var obs := Observe(items, GenreOf);
    var gs := Aggregate(obs);
    TotalIdsIsIdentified(items, GenreOf);
    var t := Columns(gs, (g: string) => g);
    LabelsAreKeys(obs, gs, t);
    t
  }

  lemma LabelsAreKeys(obs: seq<Obs<string>>, gs: seq<GroupStat<string>>, t: Table)
    requires forall i :: 0 <= i < |gs| ==> Size(obs, gs[i].key) > 0
    requires forall k :: Size(obs, k) > 0 ==> exists i :: 0 <= i < |gs| && gs[i].key == k
    requires |t.labels| == |gs| && forall i :: 0 <= i < |gs| ==> t.labels[i] == gs[i].key
    ensures forall g :: g in t.labels <==> Size(obs, g) > 0
  {
    forall g ensures g in t.labels <==> Size(obs, g) > 0 {
      if g in t.labels {
        var i :| 0 <= i < |t.labels| && t.labels[i] == g;
      }
      if Size(obs, g) > 0 {
        var i :| 0 <= i < |gs| && gs[i].key == g;
        assert t.labels[i] == g;
      }
    }
  }

  /** The labels are exactly the primary genres of the frame's rows. */
  lemma GenreLabels(items: seq<Item>)
    requires Scored(items)
    ensures forall g :: g in GenreData(items).labels <==>
      exists k :: 0 <= k < |items| && items[k].primaryGenre == g
  {
    var obs := Observe(items, GenreOf);
    forall g ensures g in GenreData(items).labels <==> exists k :: 0 <= k < |items| && items[k].primaryGenre == g {
      SizeOccurs(obs, g);
      if exists k :: 0 <= k < |items| && items[k].primaryGenre == g {
        var k :| 0 <= k < |items| && items[k].primaryGenre == g;
        assert obs[k].key == g;
      }
    }
  }

  /** With every `anime_id` present, the genre counts add up to the rows of the frame. */
  lemma GenreCountsAllIdentified(items: seq<Item>)
    requires Scored(items)
    requires forall k :: 0 <= k < |items| ==> items[k].row.animeId.Some?
    ensures Sum(GenreData(items).counts) == |items|
  {
    var obs := Observe(items, GenreOf);
    TotalIdsAllPresent(obs);
    TotalIdsIsIdentified(items, GenreOf);
  }

  // ------------------------------------------------------ episode ranges

  /** One entry of `episode_data`: the group's mean and count when some row
      has that range, `0` and `0` when none has. */
  function RangeGroup(obs: seq<Obs<EpisodeRange>>, b: EpisodeRange): (g: GroupStat<EpisodeRange>)
    ensures g.key == b
    ensures Size(obs, b) == 0 ==> g.mean == 0.0 && g.count == 0
    ensures Size(obs, b) > 0 ==> g.mean == Mean(obs, b)
    ensures g.count == IdCount(obs, b)
  {
    IdCountBounded(obs, b);
    if Size(obs, b) > 0 then GroupStat(b, Mean(obs, b), IdCount(obs, b)) else GroupStat(b, 0.0, 0)
  }

  function RangeGroups(obs: seq<Obs<EpisodeRange>>, bs: seq<EpisodeRange>): (gs: seq<GroupStat<EpisodeRange>>)
    ensures |gs| == |bs| && forall i :: 0 <= i < |bs| ==> gs[i] == RangeGroup(obs, bs[i])
    ensures SumCounts(gs) == SumIdCounts(obs, bs)
  {
    if bs == [] then [] else [RangeGroup(obs, bs[0])] + RangeGroups(obs, bs[1..])
  }

  /** Every identified row is counted once: in one of the six ranges or in "Unknown". */
  lemma RangeOrderCovers(obs: seq<Obs<EpisodeRange>>)
    ensures SumIdCounts(obs, RangeOrder) + IdCount(obs, Unknown) == TotalIds(obs)
  {
    SumIdCountsConserves(obs, RangeOrder);
    forall i | 0 <= i < |obs| ensures obs[i].key in RangeOrder || obs[i].key == Unknown {
      var b := obs[i].key;
      if b != Unknown {
        assert RangeOrder[Rank(b)] == b;
      }
    }
    IdCountInAllBut(obs, RangeOrder, Unknown);
  }

  /** Lines 167-181: `episode_data`. The labels are the six of `episode_order`;
      a range no row falls in gets `0` and `0`, any other the mean score and the
      `anime_id` count of its rows; and the counts add up to the identified rows
      outside "Unknown". */
  function EpisodeData(items: seq<Item>): (t: Table)
    requires Scored(items)
    ensures t.labels == ["1-12", "13-26", "27-52", "53-100", "101-200", "200+"]
    ensures |t.scores| == 6 && |t.counts| == 6
    ensures forall i :: 0 <= i < |RangeOrder| ==>
      && (Size(Observe(items, RangeOf), RangeOrder[i]) == 0 ==> t.scores[i] == 0.0 && t.counts[i] == 0)
      && (Size(Observe(items, RangeOf), RangeOrder[i]) > 0 ==>
            t.scores[i] == Mean(Observe(items, RangeOf), RangeOrder[i])
            && t.counts[i] == IdCount(Observe(items, RangeOf), RangeOrder[i]))
    ensures Sum(t.counts) + IdCount(Observe(items, RangeOf), Unknown) == Identified(items)
  {
    var obs := Observe(items, RangeOf);
    RangeOrderCovers(obs);
    TotalIdsIsIdentified(items, RangeOf);
    Columns(RangeGroups(obs, RangeOrder), Label)
  }

  /** With every `anime_id` present, the episode counts add up to the rows
      whose range is not "Unknown". */
  lemma EpisodeCountsAllIdentified(items: seq<Item>)
    requires Scored(items)
    requires forall k :: 0 <= k < |items| ==> items[k].row.animeId.Some?
    ensures Sum(EpisodeData(items).counts) == |items| - Size(Observe(items, RangeOf), Unknown)
  {
    var obs := Observe(items, RangeOf);
    IdCountBounded(obs, Unknown);
    TotalIdsAllPresent(obs);
    TotalIdsIsIdentified(items, RangeOf);
  }
}
