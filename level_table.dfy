/** The fame experience table: for each fame level, the experience needed to
    complete that level. Its contents are configuration the service only reads,
    so the model takes the table as an arbitrary total function. */
module LevelTable {

  /** The highest fame level the gain rule clamps at. */
  const MAX_LEVEL: int := 9

  /** Level -> experience threshold of that level. */
  type Thresholds = int -> int

  /** Every configured level 1..MAX_LEVEL has a positive threshold. */
  predicate Configured(expForLevel: Thresholds)
  {
    forall level :: 1 <= level <= MAX_LEVEL ==> expForLevel(level) > 0
  }
}
