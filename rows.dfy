/** The record shape of the anime data frame as read from the CSV file. */
module Rows {

  /** A cell that may be missing; `None` stands for pandas' NaN. */
  datatype Option<T> = None | Some(value: T) {
    function GetOr(default: T): T
    {
      match this
      case Some(v) => v
      case None => default
    }
  }

  /** One row of the frame, limited to the columns the script reads:
      `anime_id`, `name`, `genres`, `score`, `episodes` and `members`.
      Scores are exact reals; the CSV's floating-point text is not modelled. */
  datatype Row = Row(
    animeId: Option<int>,
    name: string,
    genres: Option<string>,
    score: Option<real>,
    episodes: Option<int>,
    members: Option<int>)
}
