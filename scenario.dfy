/** A worked three-row frame: "A" (Action,Drama; 9.0; 12 episodes), "B"
    (Comedy; 8.5; 0 episodes) and "C" (an empty genres cell, which the CSV
    reader loads as missing; 7.0; 30 episodes), selected with n = 2. */
module Scenario {
  import opened Rows
  import opened Seqs
  import opened Episodes
  import opened Genres
  import opened Cleaning
  import opened Enrichment
  import opened Selection
  import opened Grouping
  import opened Stats
  import opened Pipeline

  function RowA(): Row { Row(Some(1), "A", Some("Action,Drama"), Some(9.0), Some(12), None) }
  function RowB(): Row { Row(Some(2), "B", Some("Comedy"), Some(8.5), Some(0), None) }
  function RowC(): Row { Row(Some(3), "C", None, Some(7.0), Some(30), None) }

  function ItemA(): Item { Item(Filled(RowA()), "Action", UpTo12) }
  function ItemB(): Item { Item(Filled(RowB()), "Comedy", Unknown) }

  /** Row C is dropped for its missing genres; A and B survive, in order. */
  lemma CleanExample()
    ensures Clean([RowA(), RowB(), RowC()]) == [Filled(RowA()), Filled(RowB())]
  {
    assert Keeps(RowA()) && Keeps(RowB()) && !Keeps(RowC());
    CleanKeepsTwo(RowA(), RowB(), RowC());
  }

  lemma CleanKeepsTwo(a: Row, b: Row, c: Row)
    requires Keeps(a) && Keeps(b) && !Keeps(c)
    ensures Clean([a, b, c]) == [Filled(a), Filled(b)]
  {
    CleanIsOnePass([a, b, c]);
    KeepsTwo(a, b, c);
    FilledTwo(a, b);
  }

  lemma FilledTwo(a: Row, b: Row)
    ensures Map(Filled, [a, b]) == [Filled(a), Filled(b)]
  {
    var m := Map(Filled, [a, b]);
    assert m[0] == Filled(a) && m[1] == Filled(b);
  }

  lemma KeepsTwo(a: Row, b: Row, c: Row)
    requires Keeps(a) && Keeps(b) && !Keeps(c)
    ensures Filter(Keeps, [a, b, c]) == [a, b]
  {
    assert [a, b, c][1..] == [b, c];
    assert [b, c][1..] == [c];
    assert [c][1..] == [];
    assert Filter(Keeps, [c]) == [];
    assert Filter(Keeps, [b, c]) == [b];
  }

  lemma PrimaryGenreExample()
    ensures PrimaryGenre("Action,Drama") == "Action" && PrimaryGenre("Comedy") == "Comedy"
  {
    assert "Action,Drama" == "Action" + [','] + "Drama";
    FirstTokenBeforeComma("Action", "Drama");
    StripTrimmed("Action");
    PrimaryGenreOfTrimmed("Comedy");
  }

  /** A gets "Action" and "1-12", B gets "Comedy" and "Unknown". */
  lemma FrameExample()
    ensures Frame([RowA(), RowB(), RowC()]) == [ItemA(), ItemB()]
  {
    CleanExample();
    EnrichExample();
  }

  lemma EnrichExample()
    ensures Enrich([Filled(RowA()), Filled(RowB())]) == [ItemA(), ItemB()]
  {
    PrimaryGenreExample();
    var ca, cb := Filled(RowA()), Filled(RowB());
    assert ca.genres == Some("Action,Drama") && ca.episodes == Some(12);
    assert cb.genres == Some("Comedy") && cb.episodes == Some(0);
    EnrichTwo(ca, cb);
  }

  lemma EnrichTwo(x: Row, y: Row)
    requires x.genres.Some? && y.genres.Some?
    ensures Enrich([x, y]) == [Item(x, PrimaryGenre(x.genres.value), Categorize(x.episodes)),
                               Item(y, PrimaryGenre(y.genres.value), Categorize(y.episodes))]
  {
    assert [x, y][1..] == [y];
    assert [y][1..] == [];
  }

  /** With room for two, both rows are selected, A first. */
  lemma TopExample()
    ensures TopAnime([ItemA(), ItemB()], 2) == [ItemA(), ItemB()]
  {
    var s := Scores([ItemA(), ItemB()]);
    assert s == [9.0, 8.5];
    assert Ranking(s, 1) == [0];
    assert Ranking(s, 2) == [0, 1];
  }

  /** Two genres, "Action" (9.0, 1 row) before "Comedy" (8.5, 1 row). */
  lemma GenreExample()
    ensures GenreData([ItemA(), ItemB()]) == Table(["Action", "Comedy"], [9.0, 8.5], [1, 1])
  {
    var obs := Observe([ItemA(), ItemB()], GenreOf);
    assert obs == [Obs("Action", 9.0, true), Obs("Comedy", 8.5, true)];
    AggregateExample(obs);
    var t := Columns([GroupStat("Action", 9.0, 1), GroupStat("Comedy", 8.5, 1)], (g: string) => g);
    assert t.labels == ["Action", "Comedy"] && t.scores == [9.0, 8.5] && t.counts == [1, 1];
  }

  lemma AggregateExample(obs: seq<Obs<string>>)
    requires obs == [Obs("Action", 9.0, true), Obs("Comedy", 8.5, true)]
    ensures Aggregate(obs) == [GroupStat("Action", 9.0, 1), GroupStat("Comedy", 8.5, 1)]
  {
    GroupsExample(obs);
    var ga, gc := GroupStat("Action", 9.0, 1), GroupStat("Comedy", 8.5, 1);
    assert SortByMean([gc]) == [gc];
    assert SortByMean([ga, gc]) == [ga, gc];
  }

  lemma GroupsExample(obs: seq<Obs<string>>)
    requires obs == [Obs("Action", 9.0, true), Obs("Comedy", 8.5, true)]
    ensures Keys(obs) == ["Action", "Comedy"]
    ensures Summarize(obs, ["Action", "Comedy"]) == [GroupStat("Action", 9.0, 1), GroupStat("Comedy", 8.5, 1)]
  {
    KeysExample(obs);
    GroupTotalsExample(obs);
    assert Size(obs, "Action") == 1 && Size(obs, "Comedy") == 1;
  }

  lemma KeysExample(obs: seq<Obs<string>>)
    requires obs == [Obs("Action", 9.0, true), Obs("Comedy", 8.5, true)]
    ensures Keys(obs) == ["Action", "Comedy"]
  {
    var last := obs[1..];
    assert last[1..] == [];
    assert "Action" != "Comedy";
    assert Keys(last) == ["Comedy"];
  }

  lemma GroupTotalsExample(obs: seq<Obs<string>>)
    requires obs == [Obs("Action", 9.0, true), Obs("Comedy", 8.5, true)]
    ensures ScoreSum(obs, "Action") == 9.0 && IdCount(obs, "Action") == 1
    ensures ScoreSum(obs, "Comedy") == 8.5 && IdCount(obs, "Comedy") == 1
  {
    var last := obs[1..];
    assert last[1..] == [];
    assert "Action" != "Comedy";
    assert ScoreSum(last, "Action") == 0.0 && IdCount(last, "Action") == 0;
    assert ScoreSum(last, "Comedy") == 8.5 && IdCount(last, "Comedy") == 1;
  }

  /** The whole example: C dropped, A and B selected with their ranges, and
      the genre table ordered by descending score. */
  lemma ThreeRowExample()
    ensures var items := Frame([RowA(), RowB(), RowC()]);
      var top := TopAnime(items, 2);
      && |top| == 2
      && top[0].row.name == "A" && Label(top[0].episodeRange) == "1-12"
      && top[1].row.name == "B" && Label(top[1].episodeRange) == "Unknown"
      && GenreData(items) == Table(["Action", "Comedy"], [9.0, 8.5], [1, 1])
  {
    FrameExample();
    TopExample();
    GenreExample();
  }
}
