/**
 * The frame the dashboard works on: one row per speech, with its date, its
 * stored location, its list of categories and its joined text columns.
 */
module AppData {
  import opened Wrappers
  import opened Dates

  /**
   * A row of the loaded frame. `date` is `None` for NaT; `location` is `None`
   * for a value that is not a string; `texts` maps a text column's name to
   * the row's value in it (`None` for a missing value).
   */
  datatype Speech = Speech(
    date: Option<ValidDate>,
    location: Option<string>,
    categories: seq<string>,
    texts: map<string, Option<string>>)
}
