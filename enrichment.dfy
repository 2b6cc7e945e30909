/** STEPS 3 and 4 of the script: the `primary_genre` and `episode_range`
    columns added to the cleaned frame. */
module Enrichment {
  import opened Rows
  import opened Genres
  import opened Episodes

  /** A frame row together with its two derived columns. */
  datatype Item = Item(row: Row, primaryGenre: string, episodeRange: EpisodeRange)

  /** Every row carries a score, as every row of the cleaned frame does. */
  predicate Scored(items: seq<Item>)
  {
    forall k :: 0 <= k < |items| ==> items[k].row.score.Some?
  }

  /** Lines 47 and 90: one item per row, in order, the row itself untouched;
      the two new columns are derived from that row's `genres` and `episodes`. */
  function Enrich(df: seq<Row>): (items: seq<Item>)
    requires forall k :: 0 <= k < |df| ==> df[k].genres.Some?
    ensures |items| == |df|
    ensures forall k :: 0 <= k < |df| ==> items[k].row == df[k]
    ensures forall k :: 0 <= k < |df| ==>
      NoComma(items[k].primaryGenre) && items[k].primaryGenre == PrimaryGenre(df[k].genres.value)
    ensures forall k :: 0 <= k < |df| ==>
      && items[k].episodeRange == Categorize(df[k].episodes)
      && (items[k].episodeRange == Unknown <==> df[k].episodes.None? || df[k].episodes.value == 0)
  {
    if df == [] then []
    else
      [Item(df[0], PrimaryGenre(df[0].genres.value), Categorize(df[0].episodes))] + Enrich(df[1..])
  }
}
