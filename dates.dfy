/** Calendar dates as proleptic Gregorian ordinals (day 1 is Monday,
    January 1 of year 1), the weekday numbering behind DAY_NAMES, and the
    key of the ISO 8601 week a date falls in. */
module Dates {

  /** A calendar date, as its ordinal. */
  type Date = int

  /** The weekday columns of the weekly-pattern table, Monday first. */
  const DayNames: seq<string> :=
    ["monday", "tuesday", "wednesday", "thursday", "friday", "saturday", "sunday"]

  /** The weekday of a date, Monday = 0 ... Sunday = 6. */
  function Weekday(d: Date): (i: nat)
    ensures i < |DayNames|
    ensures (d - i) % 7 == 1
  {
    (d + 6) % 7
  }

  /** The dates from `lo` to `hi`, both included (empty when `lo > hi`). */
  function Span(lo: Date, hi: Date): (dates: set<Date>)
    ensures forall d :: d in dates <==> lo <= d <= hi
    decreases hi - lo
  {
    if lo > hi then {} else {lo} + Span(lo + 1, hi)
  }

  /** The key of the ISO 8601 week (section 4.1.4 of ISO 8601:2004) that
      holds a date: the ordinal of that week's Monday. */
  function WeekOf(d: Date): (monday: Date)
    ensures Weekday(monday) == 0
    ensures monday <= d < monday + 7
  {
    d - Weekday(d)
  }

  /** Two dates share a week exactly when the second lies in the seven days
      that start on the first one's Monday. */
  lemma SameWeek(d: Date, e: Date)
    ensures WeekOf(d) == WeekOf(e) <==> WeekOf(d) <= e < WeekOf(d) + 7
  {
    var m := WeekOf(d);
    if m <= e < m + 7 {
      assert e - Weekday(e) == m by {
        assert (e - Weekday(e)) % 7 == 1 && m % 7 == 1;
      }
    }
  }

  /** Later dates never fall in earlier weeks, so ordering weeks by their
      Mondays orders them as the calendar does. */
  lemma WeekOfMonotone(d: Date, e: Date)
    requires d <= e
    ensures WeekOf(d) <= WeekOf(e)
  {
  }
}
