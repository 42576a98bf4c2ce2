/** The two shelf-life settings that `stock.configuration` gains. */
module Configuration {

  import opened Outcomes

  /** The microseconds in a day: a `timedelta` keeps its sub-day part below it. */
  const MicrosPerDay: nat := 86_400_000_000

  /** A sub-day remainder, in microseconds. */
  type Micros = m: nat | m < MicrosPerDay

  /** A Python `timedelta` in normal form: whole days (negative for a negative
      duration) plus the sub-day remainder in microseconds. */
  datatype Duration = Duration(days: int, micros: Micros)

  /** A date is its day ordinal (`date.toordinal()`). */
  type Date = int

  /** A TimeDelta field is truthy when it is set and not the zero duration. */
  predicate Active(d: Option<Duration>)
  {
    d.Some? && (d.value.days != 0 || d.value.micros != 0)
  }

  /** `date - timedelta`: only the whole-day part of the duration counts. */
  function Before(today: Date, d: Duration): (r: Date)
    ensures d.days >= 0 ==> r <= today
  {
    today - d.days
  }

  /** Delays with the same whole days give the same date, whatever their sub-day parts. */
  lemma WholeDaysOnly(today: Date, days: int, m1: Micros, m2: Micros)
    ensures Before(today, Duration(days, m1)) == Before(today, Duration(days, m2))
    ensures Before(today, Duration(days, m1)) + days == today
  {
  }

  /** A delay shorter than a day counts as set, yet the date it gives is today. */
  lemma SubDayDelay(today: Date, micros: Micros)
    requires micros > 0
    ensures Active(Some(Duration(0, micros)))
    ensures Before(today, Duration(0, micros)) == today
  {
  }

  /** The singleton `stock.configuration` record as far as this policy reads it. */
  datatype Config = Config(
    shelfLifeDelayShipmentIn: Option<Duration>,
    shelfLifeDelayShipmentInReturn: Option<Duration>)
}
