/** The default export of src/index.ts: fixed lengths of time in milliseconds. */
module Units {
  const SECOND: int := 1000
  const MINUTE: int := 1000 * 60
  const HOUR: int := 1000 * 60 * 60
  const DAY: int := 1000 * 60 * 60 * 24
  const WEEK: int := 1000 * 60 * 60 * 24 * 7
  /** Thirty days, not a calendar month. */
  const MONTH: int := 1000 * 60 * 60 * 24 * 30
  /** 365 days, not a calendar year. */
  const YEAR: int := 1000 * 60 * 60 * 24 * 365

  /** Each unit is a whole number of the next smaller one. */
  lemma UnitRelations()
    ensures MINUTE == 60 * SECOND && HOUR == 60 * MINUTE && DAY == 24 * HOUR
    ensures WEEK == 7 * DAY && MONTH == 30 * DAY && YEAR == 365 * DAY
  {
  }

  /** The values in milliseconds. */
  lemma UnitValues()
    ensures SECOND == 1000 && MINUTE == 60000 && HOUR == 3600000 && DAY == 86400000
    ensures WEEK == 604800000 && MONTH == 2592000000 && YEAR == 31536000000
  {
  }
}
