/** `categorize_episodes`: the episode-count buckets of the `episode_range` column. */
module Episodes {
  import opened Rows

  /** The seven values `categorize_episodes` can return. */
  datatype EpisodeRange = Unknown | UpTo12 | UpTo26 | UpTo52 | UpTo100 | UpTo200 | Over200

  /** The text written to the `episode_range` column and to the `r` key. */
  function Label(b: EpisodeRange): string
  {
    match b
    case Unknown => "Unknown"
    case UpTo12 => "1-12"
    case UpTo26 => "13-26"
    case UpTo52 => "27-52"
    case UpTo100 => "53-100"
    case UpTo200 => "101-200"
    case Over200 => "200+"
  }

  /** The fixed `episode_order` of the episode statistics; "Unknown" is not in it. */
  const RangeOrder: seq<EpisodeRange> := [UpTo12, UpTo26, UpTo52, UpTo100, UpTo200, Over200]

  /** A missing or zero count is "Unknown"; otherwise the first range whose
      upper bound is not below the count, and "200+" beyond 200. */
  function Categorize(episodes: Option<int>): (b: EpisodeRange)
    ensures b == Unknown <==> episodes.None? || episodes.value == 0
  {
    if episodes.None? || episodes.value == 0 then Unknown
    else if episodes.value <= 12 then UpTo12
    else if episodes.value <= 26 then UpTo26
    else if episodes.value <= 52 then UpTo52
    else if episodes.value <= 100 then UpTo100
    else if episodes.value <= 200 then UpTo200
    else Over200
  }

  /** The counts each label stands for: 0 for "Unknown", a closed interval
      for the five bounded ranges, and every count from 201 up for "200+". */
  predicate Covers(b: EpisodeRange, n: int)
  {
    match b
    case Unknown => n == 0
    case UpTo12 => 1 <= n <= 12
    case UpTo26 => 13 <= n <= 26
    case UpTo52 => 27 <= n <= 52
    case UpTo100 => 53 <= n <= 100
    case UpTo200 => 101 <= n <= 200
    case Over200 => 201 <= n
  }

  /** Position of a range in `RangeOrder`; "Unknown" comes after all of them. */
  function Rank(b: EpisodeRange): (k: nat)
    ensures k <= |RangeOrder|
    ensures b != Unknown ==> k < |RangeOrder| && RangeOrder[k] == b
    ensures b == Unknown ==> k == |RangeOrder|
  {
    match b
    case UpTo12 => 0
    case UpTo26 => 1
    case UpTo52 => 2
    case UpTo100 => 3
    case UpTo200 => 4
    case Over200 => 5
    case Unknown => 6
  }

  /** Every non-negative count falls in exactly one label, and that label is
      the one `categorize_episodes` returns. */
  lemma Partition(n: nat)
    ensures forall b :: Covers(b, n) <==> b == Categorize(Some(n))
  {
  }

  /** The five boundaries fall on the side the labels name. */
  lemma Boundaries()
    ensures Categorize(None) == Unknown && Categorize(Some(0)) == Unknown
    ensures Categorize(Some(1)) == UpTo12 && Categorize(Some(12)) == UpTo12
    ensures Categorize(Some(13)) == UpTo26 && Categorize(Some(26)) == UpTo26
    ensures Categorize(Some(27)) == UpTo52 && Categorize(Some(52)) == UpTo52
    ensures Categorize(Some(53)) == UpTo100 && Categorize(Some(100)) == UpTo100
    ensures Categorize(Some(101)) == UpTo200 && Categorize(Some(200)) == UpTo200
    ensures Categorize(Some(201)) == Over200
  {
  }

  /** As written, a negative count passes the `<= 12` test and lands in "1-12". */
  lemma NegativeCount(n: int)
    requires n < 0
    ensures Categorize(Some(n)) == UpTo12
  {
  }

  /** A larger positive count never lands in an earlier range. */
  lemma Monotone(a: int, b: int)
    requires 1 <= a <= b
    ensures Rank(Categorize(Some(a))) <= Rank(Categorize(Some(b)))
  {
  }

  /** The labels are pairwise different, so the label text determines the range. */
  lemma LabelInjective(a: EpisodeRange, b: EpisodeRange)
    ensures Label(a) == Label(b) <==> a == b
  {
  }

  /** `episode_order` spelled out. */
  lemma RangeOrderLabels()
    ensures |RangeOrder| == 6
    ensures forall i :: 0 <= i < |RangeOrder| ==> RangeOrder[i] != Unknown
    ensures [Label(RangeOrder[0]), Label(RangeOrder[1]), Label(RangeOrder[2]),
             Label(RangeOrder[3]), Label(RangeOrder[4]), Label(RangeOrder[5])]
         == ["1-12", "13-26", "27-52", "53-100", "101-200", "200+"]
  {
  }
}
