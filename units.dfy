/** Scalar units shared by the records. */
module Units {
  /** An amount of money in cents: a `DecimalField(decimal_places=2)` value, exact. */
  type Money = int

  /** A calendar date, as a day number (later dates are larger). */
  type Date = int

  /** A time of day, in minutes after midnight. */
  type TimeOfDay = int

  /** A point in time, as a timestamp (later instants are larger). */
  type Instant = int
}
