/** The parts of a transit feed that calendar resolution reads: the trips
    table, the weekly-pattern table (calendar.txt) and the exception table
    (calendar_dates.txt), with dates already parsed into ordinals. */
module Feeds {
  import opened Dates

  type ServiceId = string

  /** The exact combination of services active on one date (a frozenset of
      service ids in the source). */
  type Service = set<ServiceId>

  /** One row of the weekly-pattern table: a service, the inclusive range of
      dates it covers, and one flag per weekday column, as the integers the
      flag texts denote. */
  datatype CalendarRow = CalendarRow(
    serviceId: ServiceId,
    startDate: Date,
    endDate: Date,
    monday: int,
    tuesday: int,
    wednesday: int,
    thursday: int,
    friday: int,
    saturday: int,
    sunday: int)

  /** One row of the exception table; `exceptionType` is the raw text of the
      column ("1" adds the service on the date, "2" removes it). */
  datatype CalendarDateRow = CalendarDateRow(date: Date, serviceId: ServiceId, exceptionType: string)

  /** The tables of a feed that the calendar queries read. The trips table is
      reduced to its `service_id` column, one entry per trip. */
  datatype Feed = Feed(
    trips: seq<ServiceId>,
    calendar: seq<CalendarRow>,
    calendarDates: seq<CalendarDateRow>)

  /** The value of a weekday column of a weekly-pattern row, by column name. */
  function Column(row: CalendarRow, day: string): int
    requires day in DayNames
  {
    match day
    case "monday" => row.monday
    case "tuesday" => row.tuesday
    case "wednesday" => row.wednesday
    case "thursday" => row.thursday
    case "friday" => row.friday
    case "saturday" => row.saturday
    case _ => row.sunday
  }

  /** Whether a weekly-pattern row runs on a date: the date lies in its range
      and the row's flag for the date's weekday is set. */
  predicate Runs(row: CalendarRow, d: Date)
  {
    row.startDate <= d <= row.endDate && Column(row, DayNames[Weekday(d)]) != 0
  }
}
