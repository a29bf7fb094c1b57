/** Calendar time at the granularity the calendar uses: a local calendar day
    and a millisecond within it. The date library's day arithmetic becomes
    arithmetic on day numbers. */
module Time {

  const MS_PER_DAY: int := 86_400_000

  type MsOfDay = x: int | 0 <= x < MS_PER_DAY

  /** A JavaScript `Date` read in local time. */
  datatype Moment = Moment(day: int, ms: MsOfDay)

  /** Millisecond-precise ordering of two moments (`a < b` on `Date`s). */
  predicate Before(a: Moment, b: Moment) {
    a.day < b.day || (a.day == b.day && a.ms < b.ms)
  }

  /** `moment(m).startOf("day")`: the first millisecond of `m`'s day. */
  function StartOfDay(m: Moment): (r: Moment)
    ensures r.day == m.day
    ensures forall x: Moment :: x.day == m.day ==> !Before(x, r)
  {
    Moment(m.day, 0)
  }

  /** `moment(m).endOf("day")`: the last millisecond (23:59:59.999) of `m`'s day. */
  function EndOfDay(m: Moment): (r: Moment)
    ensures r.day == m.day
    ensures forall x: Moment :: x.day == m.day ==> !Before(r, x)
  {
    Moment(m.day, MS_PER_DAY - 1)
  }

  /** The bounds of a day bracket every moment of that day. */
  lemma DayBounds(m: Moment)
    ensures !Before(m, StartOfDay(m)) && !Before(EndOfDay(m), m)
    ensures Before(StartOfDay(m), EndOfDay(m))
  {
  }
}
