# Anime data preprocessing, modelled in Dafny

`preprocess_anime_data.py` turns the Kaggle "Top 15,000 Ranked Anime" table into
one compact JSON package for a dashboard. This project models the script's
data path from the loaded frame to the package:

- cleaning: drop rows that miss a score or genres, keep positive scores, and fill
  missing episode and member counts with 0;
- the `primary_genre` column: the first comma-separated genre, stripped of
  surrounding whitespace;
- the `episode_range` column (`categorize_episodes`);
- `nlargest(2000, 'score')`;
- the `anime_list` loop with its short keys;
- the genre statistics (mean score and `anime_id` count per primary genre,
  sorted by mean) and the episode statistics (the same per range, in the fixed
  `episode_order`, 0 and 0 for an absent range);
- the package and its metadata.

Modules, in dependency order: `Seqs` (order-preserving filter and map), `Rows`
(the row record; a missing cell is `None`), `Episodes`, `Genres`, `Cleaning`,
`Enrichment` (the two derived columns), `Selection`, `Grouping` (a generic
groupby with mean and count), `Stats`, `Pipeline` (the whole script as one
method) and `Scenario` (a three-row worked example).

On these points the model follows the code:

- both statistics are aggregated over the whole cleaned frame, not over the
  2000 selected rows (lines 142 and 167 group `df`);
- the episode table has six ranges and no "Unknown" (line 173), so its counts
  add up to the identified rows outside "Unknown" (`Stats.EpisodeData`);
- the counts are `anime_id` counts, so they add up to the rows whose id is
  present (`Stats.GenreData`), and to all rows only when every id is present;
- a primary genre that strips to the empty string is kept as a group of its own:
  the code does not drop it;
- when no row survives cleaning, the script raises an error at line 110 and
  writes no package; `Pipeline.Preprocess` then returns `None`.

## Model

| member | source | states |
|---|---|---|
| Cleaning.DropMissing | preprocess_anime_data.py:26 | a row is kept exactly when it is an input row whose score and genres cells are both present |
| Cleaning.KeepPositive | preprocess_anime_data.py:30 | a row is kept exactly when it is an input row whose score is present and above 0 |
| Cleaning.FillEpisodes | preprocess_anime_data.py:34 | row for row, a missing episode count becomes 0, a present one stays, and no other cell changes |
| Cleaning.FillMembers | preprocess_anime_data.py:38 | row for row, a missing member count becomes 0, a present one stays, and no other cell changes |
| Cleaning.Clean | preprocess_anime_data.py:26-38 | the cleaned frame is no longer than the input, and every row has a present, positive score, present genres and present episode and member counts |
| Cleaning.CleanIsOnePass | preprocess_anime_data.py:26-38 | the four rebindings amount to keeping the rows with a present genres cell and a present positive score, in order, then filling their two counts |
| Cleaning.CleanMembership | preprocess_anime_data.py:26-38 | a row is in the cleaned frame exactly when it is the filled form of an input row that passes both filters |
| Cleaning.CleanSingleton | preprocess_anime_data.py:26-30 | one row survives exactly when its score and genres are present and its score is above 0; a missing score is dropped |
| Cleaning.CleanAppend | preprocess_anime_data.py:26-38 | cleaning works row by row: the cleaned concatenation is the concatenation of the cleaned parts, so surviving rows keep their order |
| Cleaning.CleanIdempotent | preprocess_anime_data.py:26-38 | cleaning an already cleaned frame changes nothing |
| Cleaning.FilledChangesOnlyCounts | preprocess_anime_data.py:34-38 | `fillna(0)` changes only the episodes and members cells, sets a missing one to 0, and leaves a present one alone |
| Genres.FirstToken | preprocess_anime_data.py:47 | `split(',')[0]` is the prefix before the first comma, has no comma, and is the whole text when there is none |
| Genres.Strip | preprocess_anime_data.py:47 | `strip()` removes exactly the leading and trailing whitespace (Python's `isspace` set) and leaves a result that neither starts nor ends with whitespace |
| Genres.PrimaryGenre | preprocess_anime_data.py:47 | the primary genre has no comma and no whitespace at either end, and it is the first token with exactly its leading and trailing whitespace removed |
| Genres.PrimaryGenreWithoutComma | preprocess_anime_data.py:47 | a genres cell without a comma yields the whole cell, stripped |
| Genres.FirstTokenBeforeComma | preprocess_anime_data.py:47 | for `t,u` with no comma in `t`, the first token is `t` |
| Genres.PrimaryGenreOfTrimmed | preprocess_anime_data.py:47 | a single genre without surrounding whitespace is its own primary genre |
| Genres.PrimaryGenreIdempotent | preprocess_anime_data.py:47 | extracting the primary genre of a primary genre changes nothing |
| Episodes.Categorize | preprocess_anime_data.py:65-88 | the result is "Unknown" exactly when the count is missing or 0 |
| Episodes.Partition | preprocess_anime_data.py:65-88 | for every count from 0 up, the label returned is the one and only label whose interval (0; 1-12; 13-26; 27-52; 53-100; 101-200; 201 and up) holds the count |
| Episodes.Boundaries | preprocess_anime_data.py:75-88 | each boundary count (0, 1, 12, 13, 26, 27, 52, 53, 100, 101, 200, 201) and a missing count get the label named for them |
| Episodes.NegativeCount | preprocess_anime_data.py:75-78 | a negative count, as written, passes the `<= 12` test and is labelled "1-12" |
| Episodes.Monotone | preprocess_anime_data.py:77-88 | a larger positive count never lands in an earlier range of `episode_order` |
| Episodes.LabelInjective | preprocess_anime_data.py:76-88 | two ranges have the same label text only when they are the same range |
| Episodes.RangeOrderLabels | preprocess_anime_data.py:173 | `episode_order` holds the six labels from "1-12" to "200+", in that order, without "Unknown" |
| Enrichment.Enrich | preprocess_anime_data.py:47-90 | one item per row, in order, with the row unchanged; its primary genre is the primary genre of its genres cell and has no comma; its range is `categorize_episodes` of its episode count, so "Unknown" exactly when that count is missing or 0 |
| Selection.TopIndices | preprocess_anime_data.py:103-106 | `nlargest` selects min(n, rows) distinct positions, sorted by descending score with ties in row order, and each selected row ranks ahead of every row left out |
| Selection.TopAnime | preprocess_anime_data.py:103-106 | `top_anime` has min(2000, rows) rows, each a row of the frame at the selected position, with non-increasing scores |
| Pipeline.BuildAnimeList | preprocess_anime_data.py:119-130 | one entry per selected row, in row order, carrying its name, primary genre, score, episode and member counts (0 when missing) and range label |
| Stats.GenreLabels | preprocess_anime_data.py:142-151 | the genre labels are exactly the primary genres that occur in the cleaned frame |
| Stats.GenreData | preprocess_anime_data.py:142-154 | the genre labels are distinct and are exactly the primary genres with at least one row; the three lists have equal length; the scores are non-increasing; each label's score and count are the mean score and the `anime_id` count of its rows; the counts add up to the rows whose `anime_id` is present |
| Stats.GenreCountsAllIdentified | preprocess_anime_data.py:142-154 | when every `anime_id` is present, the genre counts add up to the number of rows |
| Stats.RangeGroup | preprocess_anime_data.py:177-180 | one range's entry: the mean score of its rows when it has some, 0 when it has none, and its `anime_id` count either way |
| Stats.EpisodeData | preprocess_anime_data.py:167-181 | the labels are the six of `episode_order`, in order, with six scores and six counts; a range no row falls in gets score 0 and count 0, any other the mean score and the `anime_id` count of its rows; the counts plus the identified "Unknown" rows add up to the identified rows |
| Stats.RangeOrderCovers | preprocess_anime_data.py:167-181 | every identified row is counted once, either in one of the six ranges of `episode_order` or in "Unknown" |
| Stats.EpisodeCountsAllIdentified | preprocess_anime_data.py:167-181 | when every `anime_id` is present, the episode counts add up to the rows whose range is not "Unknown" |
| Stats.TotalIdsIsIdentified | preprocess_anime_data.py:142-170 | the `anime_id` count over all groups is the number of rows with an id, whichever column groups them |
| Grouping.Keys | preprocess_anime_data.py:142-144 | the group keys are distinct and are exactly the keys some row carries |
| Grouping.Summarize | preprocess_anime_data.py:142-145 | one aggregated row per key, in the given order, with that key's mean score and `anime_id` count, and the count total is the sum of the per-key counts |
| Grouping.Aggregate | preprocess_anime_data.py:142-148 | one group per key that occurs and only for such keys, with distinct keys, each carrying its mean score and `anime_id` count, by non-increasing mean, the counts adding up to the identified rows |
| Grouping.SumIdCountsConserves | preprocess_anime_data.py:142-154 | over distinct keys, adding up the per-group counts counts each identified row of those groups once |
| Grouping.SortByMean | preprocess_anime_data.py:148 | sorting by mean keeps the same groups and the same count total, and leaves means non-increasing |
| Pipeline.Preprocess | preprocess_anime_data.py:26-202 | there is no package exactly when no row survives cleaning (line 110 then raises); otherwise the package holds the entries of the top min(2000, cleaned rows) rows, the genre and episode tables of the cleaned frame, `totalAnime` equal to the entry count, `totalGenres` equal to the genre label count, the given timestamp and the fixed dataset name; the genre counts add up to the identified rows, and the episode counts to the identified rows outside "Unknown" |
| Scenario.ThreeRowExample | preprocess_anime_data.py:26-154 | for rows A ("Action,Drama", 9.0, 12 episodes), B ("Comedy", 8.5, 0 episodes) and C (no genres, 7.0, 30 episodes) with n = 2: C is dropped, A ("1-12") is selected before B ("Unknown"), and the genre table is Action 9.0/1 then Comedy 8.5/1 |

## Left out

- Reading the CSV, writing the JSON file, and every progress `print`, including the value counts printed at lines 49-57 and 93-96: the model starts from the loaded frame and ends at the package value.
- `generatedAt`: the clock reading is a parameter of `Pipeline.Preprocess`.
- Floating point: scores are exact reals. The `round(..., 2)` of lines 125, 145, 152 and 177 is not modelled, so scores and means are unrounded.
- CSV loading: the reader turning an empty cell into a missing value is not modelled. A row's cells arrive already present or missing.
- Episode and member counts are integers. After `fillna(0)` pandas holds them as floats, and `int(...)` at lines 126-127 truncates them; the model treats them as whole numbers from the start.
- Selection.TopIndices: the model fixes ties among equal scores in row order, which is `nlargest`'s `keep='first'` rule. When the frame has no more rows than n, pandas takes a plain sort path instead, and the order of tied rows there is not fixed.
- Grouping.SortByMean: `groupby` hands its groups to `sort_values` in sorted key order, and `sort_values` then uses an unstable quicksort, so the order of two genres with equal means is not fixed. The model builds its groups in the order of each key's last occurrence and sorts them with a stable insertion sort. It proves only that means are non-increasing and that the groups are kept, and does not state which of two genres with equal means comes first.
- Other column types: the model has exactly the columns the core reads, namely `anime_id`, `name`, `genres`, `score`, `episodes` and `members`.
- `name` is always present in the model. A missing name cell would reach the `n` key of line 123 as NaN; the model has no such value.
- Pipeline.Preprocess: the script's failure on a frame where no row survives cleaning is modelled as the result `None`. It fails at line 110, where `values[0]` reads a row of an empty selection, and line 157 would fail the same way. The error message and the output printed before it are not modelled.
