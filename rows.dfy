/**
 * A flag as the frontend receives it from `GET /flags`, and the date parser
 * the list views sort by.
 */
module Rows {
  import opened Wrappers

  /**
   * One row of the flag list. `description`, `modified_at` and `tags` may be
   * missing from the stored item; `created_at` is set when the flag is made.
   */
  datatype Row = Row(
    id: int,
    name: string,
    environment: string,
    enabled: bool,
    description: Option<string>,
    createdAt: string,
    modifiedAt: Option<string>,
    tags: Option<seq<string>>)

  /**
   * `Date.parse` (and `new Date(s).getTime()`): the time in milliseconds, or
   * None for NaN. How dates are read is the host's, so it is a parameter.
   */
  type DateParser = string -> Option<int>

  /** `s || fallback` on an optional text: the text when present and non-empty. */
  function OrElse(s: Option<string>, fallback: string): (r: string)
    ensures s.Some? && s.value != "" ==> r == s.value
    ensures s.None? || s.value == "" ==> r == fallback
  {
    if s.Some? && s.value != "" then s.value else fallback
  }
}
