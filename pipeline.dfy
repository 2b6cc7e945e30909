/** The whole script from the loaded frame to the data package (steps 2 to 9). */
module Pipeline {
  import opened Rows
  import opened Seqs
  import opened Episodes
  import opened Cleaning
  import opened Enrichment
  import opened Selection
  import opened Grouping
  import opened Stats

  /** `TARGET_COUNT`. */
  const TargetCount: nat := 2000

  /** The fixed `sourceDataset` text of the metadata. */
  const SourceDataset: string := "Kaggle - Top 15,000 Ranked Anime Dataset"

  /** One `anime_list` entry with its short keys. */
  datatype Entry = Entry(n: string, g: string, s: real, e: int, m: int, r: string)

  datatype Metadata = Metadata(totalAnime: nat, totalGenres: nat, generatedAt: string, sourceDataset: string)

  /** `data_package`. */
  datatype Package = Package(anime: seq<Entry>, genreStats: Table, episodeStats: Table, metadata: Metadata)

  /** `e` is the entry for `it`: its name, primary genre, score and range label,
      and its episode and member counts with a missing one read as 0. */
  predicate Packs(e: Entry, it: Item)
    requires it.row.score.Some?
  {
    && e.n == it.row.name
    && e.g == it.primaryGenre
    && e.s == it.row.score.value
    && e.e == it.row.episodes.GetOr(0)
    && e.m == it.row.members.GetOr(0)
    && e.r == Label(it.episodeRange)
  }

  /** Lines 119-130: one entry per row of `top`, appended in row order. */
  method BuildAnimeList(top: seq<Item>) returns (list: seq<Entry>)
    requires Scored(top)
    ensures |list| == |top|
    ensures forall i :: 0 <= i < |top| ==> Packs(list[i], top[i])
  {
    list := [];
    var i := 0;
    while i < |top|
      invariant 0 <= i <= |top|
      invariant |list| == i
      invariant forall k :: 0 <= k < i ==> Packs(list[k], top[k])
    {
      var row := top[i];
      var entry := Entry(
        row.row.name,
        row.primaryGenre,
        row.row.score.value,
        if row.row.episodes.Some? then row.row.episodes.value else 0,
        if row.row.members.Some? then row.row.members.value else 0,
        Label(row.episodeRange));
      list := list + [entry];
      i := i + 1;
    }
  }

  /** The cleaned frame with its two derived columns. */
  function Frame(raw: seq<Row>): (items: seq<Item>)
    ensures Scored(items) && |items| == |Clean(raw)|
    ensures forall k :: 0 <= k < |items| ==> items[k].row == Clean(raw)[k] && IsClean(items[k].row)
  {
    Enrich(Clean(raw))
  }

  /** Steps 2 to 9 on the loaded frame `raw`; the clock reading `generatedAt`
      is a parameter. When no row survives cleaning the script stops with an
      error before it builds the package, and the result is `None`. */
  method Preprocess(raw: seq<Row>, generatedAt: string) returns (result: Option<Package>)
    ensures result.None? <==> |Clean(raw)| == 0
    ensures result.Some? ==>
      var p := result.value;
      var top := TopAnime(Frame(raw), TargetCount);
      && |p.anime| == |top| && (forall i :: 0 <= i < |top| ==> Packs(p.anime[i], top[i]))
      && p.genreStats == GenreData(Frame(raw))
      && p.episodeStats == EpisodeData(Frame(raw))
      && p.metadata.totalAnime == |p.anime| == Min(TargetCount, |Clean(raw)|)
      && p.metadata.totalGenres == |p.genreStats.labels|
      && p.metadata.generatedAt == generatedAt && p.metadata.sourceDataset == SourceDataset
      && Sum(p.genreStats.counts) == Identified(Frame(raw))
      && Sum(p.episodeStats.counts) + IdCount(Observe(Frame(raw), RangeOf), Unknown) == Identified(Frame(raw))
      && p.episodeStats.labels == ["1-12", "13-26", "27-52", "53-100", "101-200", "200+"]
  {
    // STEP 2: cleaning, one rebinding of the frame per line of the script
    var df := raw;
    df := DropMissing(df);
    df := KeepPositive(df);
    df := FillEpisodes(df);
    df := FillMembers(df);
    assert df == Clean(raw);
    // STEPS 3 and 4: the derived columns
    var items := Enrich(df);
    // STEP 5
    var topAnime := TopAnime(items, TargetCount);
    // Line 110 reads the first row of `top_anime.nlargest(1, 'members')`,
    // which does not exist when no row survived cleaning: the script stops there.
    if |topAnime| == 0 {
      return None;
    }
    // STEP 6
    var animeList := BuildAnimeList(topAnime);
    // STEPS 7 and 8
    var genreData := GenreData(items);
    var episodeData := EpisodeData(items);
    // STEP 9
    result := Some(Package(animeList, genreData, episodeData,
                           Metadata(|animeList|, |genreData.labels|, generatedAt, SourceDataset)));
  }
}
