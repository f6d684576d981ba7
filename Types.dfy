// The records shared by the fetch layer, the dashboard page and both problem lists.

module Types {

  /** A value that may be absent: JavaScript's `null` / `undefined`. */
  datatype Option<+T> = None | Some(value: T)

  /** A difficulty as read from the catalog. The three listed labels are the
      ones the type declares; the catalog mapping copies the column without a
      check, so any other label survives as `Unlisted`. */
  datatype Difficulty = Easy | Medium | Hard | Unlisted(text: string)

  /** True for the three difficulties the type declares. */
  predicate Listed(d: Difficulty)
  {
    d.Easy? || d.Medium? || d.Hard?
  }

  /** A catalog entry with its statistics; `lastSolved` is an instant in
      milliseconds since the epoch, `None` for never. */
  datatype Problem = Problem(
    name: string,
    category: string,
    difficulty: Difficulty,
    link: string,
    solvedCount: nat,
    lastSolved: Option<int>)

  /** An accepted submission; `link` is the canonical problem URL and
      `timestamp` an instant in milliseconds since the epoch. */
  datatype Submission = Submission(title: string, link: string, timestamp: int)
}
