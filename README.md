# Partridge calendar resolution and aggregate queries

This project models the core of partridge, a reader for GTFS transit feeds.
The core resolves a feed's service calendar and answers four queries about it.
It is made of the private functions `_service_ids_by_date`,
`_dates_by_service_ids`, `_trip_counts_by_date`, `_busiest_date` and
`_busiest_week` of `partridge/readers.py`, and the `DAY_NAMES` weekday
numbering they rely on.

Calendar resolution takes three tables:

- the trips table, reduced to one service id per trip;
- the weekly-pattern table (`calendar.txt`): a service, a date range and seven
  weekday flags;
- the exception table (`calendar_dates.txt`): a date, a service and an
  exception type, where "1" adds the service and "2" removes it.

From these it builds, for every date with service, the exact set of service
ids active on it. Only services that some trip uses are considered. Removals
are applied after every addition, so a removal always wins. A date left with
no service is dropped. If no date has service, the query fails with
"No service found in feed.".

The aggregate queries run on that map:

- the dates grouped by identical service set;
- the number of trips on every date;
- the busiest date, the earliest one on a tie;
- the busiest week: the map restricted to the dates of the week bucket with
  the most trips, the earliest week on a tie.

Layout:

- `tables.dfy` (module `Tables`): the `Result` of a query, `Where` (selecting
  rows of a table by a boolean mask), and reads of a `defaultdict`
  (`Lookup`, `Tally`).
- `dates.dfy` (module `Dates`): dates as proleptic Gregorian ordinals, where
  ordinal 1 is a Monday; the weekday numbering of `DAY_NAMES`; the week key.
- `feed.dfy` (module `Feeds`): the rows of the three tables.
- `calendar.dfy` (module `Calendar`): a declarative definition of the resolved
  calendar, `ServiceCalendar`. The resolution is written as methods, one per
  block of the source, and each is proved against that definition. Lemmas
  prove the properties of the definition.
- `aggregates.dfy` (module `Aggregates`): the four queries, each on the
  resolved map, with a thin method that runs it on a feed as the source does.
  The grouping, the trip counts and the week buckets are methods proved
  against ghost specifications (`GroupByService`, `TripCounts`,
  `IsBusiestWeekOf`). The busiest date is a function, `BusiestDateOf`, whose
  contract states the maximum and the tie-break directly.
- `scenario.dfy` (module `Scenario`): a holiday exception worked out on
  concrete dates.

The source builds its dictionaries in place inside loops, so those parts are
methods with loop invariants. The two `max` calls are the function
`MaxEarliest`. The dictionary comprehension that ends the busiest-week query
is a map comprehension inside the method `BusiestWeekOf`. Each Python `defaultdict` is a Dafny `map`, and a missing key reads
as the default. A `frozenset` of service ids is a `set<string>`.

## Model

| member | source | states |
|---|---|---|
| Dates.Weekday | partridge/readers.py:19-27 | The index into the weekday names is below 7. It is 0 exactly on the dates whose ordinal is 1 modulo 7, so ordinal 1 is a Monday. |
| Dates.Span | partridge/readers.py:181 | The dates a row's range walks over are exactly those from its start to its end, both included. |
| Dates.WeekOf | partridge/readers.py:140 | The key of a date's week is a Monday, and the date lies in the seven days that start there. |
| Dates.SameWeek | partridge/readers.py:140 | Two dates share a week key exactly when the second lies in the seven days starting on the first one's Monday. |
| Dates.WeekOfMonotone | partridge/readers.py:146 | Later dates never have an earlier week key, so ordering keys orders weeks as the calendar does. |
| Tables.Where | partridge/readers.py:164 | Selecting rows by a mask keeps exactly the rows the mask holds for, each as many times as it occurs, and no more rows than there were. |
| Tables.WhereKeepsEveryPosition | partridge/readers.py:228 | The selected rows number exactly the positions the mask holds for, so repeated rows are all counted. |
| Tables.PositionsStep | partridge/readers.py:228 | The positions the mask holds for are the first row's, if it holds there, and those of the rest moved down one row. |
| Tables.ShiftedCount | partridge/readers.py:228 | Moving every position down one row keeps their number. |
| Calendar.ApplyWeeklyPatterns | partridge/readers.py:175-184 | After the weekly-pattern rows, a service is in a date's set exactly when one of its rows covers the date with that weekday's flag set. No set is empty. |
| Calendar.ApplyAdditions | partridge/readers.py:194-196 | After the additions, a date's set is its earlier set plus the services of the addition rows for that date. |
| Calendar.CollectRemovals | partridge/readers.py:198-200 | The collected removals of a date are exactly the services of the removal rows for that date. |
| Calendar.RemoveServices | partridge/readers.py:204-206 | Removing the collected services one at a time, skipping those not present, leaves exactly the date's set minus the removed services. |
| Aggregates.TripCountsByMembership | partridge/readers.py:229-231 | A map over exactly the calendar's dates, holding each date's trip count, is the map of trip counts. |
| Calendar.ApplyRemovals | partridge/readers.py:202-210 | After the removals, a date's set is its earlier set minus its collected removals. A date whose set became empty is gone. |
| Calendar.ServiceIdsByDate | partridge/readers.py:154-214 | The query succeeds exactly when some date has an active service, and returns the resolved calendar. Every set is non-empty and holds only services some trip uses. Otherwise it fails with "No service found in feed.". |
| Calendar.ServiceCalendarByMembership | partridge/readers.py:212-214 | A map whose sets are non-empty and hold exactly the active services of each date is the resolved calendar. |
| Calendar.ServiceCalendarMembership | partridge/readers.py:158-168 | A service is in a date's set exactly when it is active there. So only services referenced by a trip appear. |
| Calendar.WeeklyPatternRule | partridge/readers.py:176-184 | Without exception rows, a service runs on a date exactly when some trip uses it and one of its rows covers the date with that weekday's flag set. |
| Calendar.AdditionRule | partridge/readers.py:191-196 | An addition row of a service some trip uses puts it on its date, exactly when no removal row names the same date and service. |
| Calendar.RemovalWins | partridge/readers.py:202-206 | A removal row takes its service off its date, whatever the other rows say. |
| Calendar.SameActiveSameCalendar | partridge/readers.py:208-214 | Two feeds with the same active services on every date resolve to the same calendar. |
| Calendar.RowOrderIrrelevant | partridge/readers.py:195-206 | The order of the rows in each table, and any repeated rows, do not change the result. |
| Calendar.OtherExceptionTypesIgnored | partridge/readers.py:190-192 | Exception rows whose type is neither "1" nor "2" have no effect on the result. |
| Calendar.UnreferencedRowsIgnored | partridge/readers.py:162-168 | Dropping the rows of either table whose service no trip uses leaves the result unchanged. |
| Calendar.CoveredDatesHold | partridge/readers.py:176-181 | Every date in the range of a weekly-pattern row is among the dates the table covers. |
| Calendar.ActiveIsMentioned | partridge/readers.py:176-196 | A date with an active service is covered by a weekly-pattern row or named by an exception row. |
| Aggregates.GroupDates | partridge/readers.py:218-221 | The grouping built one date at a time is the grouping of the calendar's dates by service set. |
| Aggregates.GroupByServiceByMembership | partridge/readers.py:218-221 | A map whose buckets are non-empty and hold exactly the dates with each service set is the grouping of the calendar. |
| Aggregates.DatesByServiceIds | partridge/readers.py:217-221 | The query fails exactly when the calendar resolution does, with the same message. Otherwise it returns the grouping of the resolved calendar's dates by service set. |
| Aggregates.GroupsPartitionDates | partridge/readers.py:217-221 | The buckets are non-empty and pairwise disjoint. A date is in bucket S exactly when its set is S. Every date of the calendar has a bucket. |
| Aggregates.GroupingRoundTrip | partridge/readers.py:217-221 | Expanding the buckets back into a date-to-services map gives back the calendar. |
| Aggregates.TripsRunning | partridge/readers.py:228 | The trip count of a service set is the number of positions in the trips table whose service is in the set, so repeated trips all count. It is at most the number of trips, and zero exactly when no trip runs on any of the set's services. |
| Aggregates.CountTrips | partridge/readers.py:225-231 | Counting once per group and copying the count to its dates gives every date of the calendar, and no other date, the number of trips running on its own services. |
| Aggregates.TripCountsByDate | partridge/readers.py:224-231 | The query fails exactly when the calendar resolution does. Otherwise it has the calendar's dates as its domain, and each date's count is the number of trips on its services. |
| Aggregates.RanksExists | partridge/readers.py:127 | A non-empty map has a key of largest value that is smallest among the keys of that value. |
| Aggregates.MaxEarliest | partridge/readers.py:123-127 | The chosen key is in the map and has the largest value. No smaller key has the same value. |
| Aggregates.BusiestDateOf | partridge/readers.py:119-130 | The busiest date is a date of the calendar, paired with its own service set. No date has more trips, and no date with as many trips is earlier. |
| Aggregates.BusiestDate | partridge/readers.py:119-130 | The query fails exactly when the calendar resolution does. Otherwise it returns the busiest date of the resolved calendar and its trip counts. |
| Aggregates.SumOverTake | partridge/readers.py:141 | A sum of counts over a set of dates does not depend on the order the dates are added in. |
| Aggregates.WeekMembersStep | partridge/readers.py:139-142 | Adding one date to the dates seen so far adds its count to its own week's sum and to no other. |
| Aggregates.AccumulateStep | partridge/readers.py:139-142 | One pass of the accumulation loop keeps every bucket's total and date list exact for the dates seen so far. |
| Aggregates.WeeklyTotals | partridge/readers.py:137-142 | Every date's week has a bucket, and only those weeks do. A bucket's list holds exactly the calendar's dates of that week. Its total is the sum of their counts. |
| Aggregates.BusiestWeekOf | partridge/readers.py:144-151 | The result is non-empty and agrees with the calendar on its dates. It holds exactly the calendar's dates of one week. No week has a larger total, and none with an equal total is earlier. |
| Aggregates.BusiestWeekTotal | partridge/readers.py:148-151 | The chosen week's total is the sum of the counts of exactly the dates returned. |
| Aggregates.BusiestWeek | partridge/readers.py:133-151 | The query fails exactly when the calendar resolution does. Otherwise it returns the busiest week of the resolved calendar. |
| Scenario.HolidayActive | partridge/readers.py:186-206 | A weekday service runs from 2020-01-01 to 2020-01-10. On 2020-01-01 an exception removes it and another adds a holiday service. On 2020-01-01 the active services are exactly the holiday one. On 2020-01-02, a Thursday, they are exactly the weekday one. |
| Scenario.HolidayResolves | partridge/readers.py:208-214 | Both dates are in the resolved calendar: 2020-01-01 maps to the holiday service and 2020-01-02 to the weekday service. |
| Scenario.HolidayTripPositions | partridge/readers.py:228 | Of the trips WD, WD, WD, HOL, the holiday trip is at position 3 and the weekday trips at positions 0 to 2. |
| Scenario.HolidayTripsPerService | partridge/readers.py:228 | One trip runs on the holiday service and three on the weekday service. |
| Scenario.HolidayTripCounts | partridge/readers.py:224-231 | 2020-01-01 has 1 trip and 2020-01-02 has 3 trips. |

## Left out

- `load_feed`, `_unpack_feed`, `_load_feed`, `load_raw_feed` and the `read_*` wrappers (partridge/readers.py:33-116): filesystem checks, archive unpacking and cleanup, and the `Feed` class they construct. The `Feed` class, the view configuration graph and its helpers are not part of this model.
- The directed-acyclic check on the configuration graph (partridge/readers.py:39-40): a call into networkx.
- Date parsing with `vparse_date` (partridge/readers.py:172-173, 188): dates arrive as ordinals already. Ordinals are unbounded integers, and the 1..3652059 range of Python dates is not enforced.
- `int()` applied to the weekday flag texts (partridge/readers.py:183): flags arrive as the integers they denote, so a flag text that fails to parse is not modelled.
- The `isoweek` library: the week key is the ordinal of the week's Monday. An ISO year-and-week pair and that Monday determine each other and order weeks alike, so bucketing and the earliest-week tie-break are unchanged.
- Python dictionary iteration order: loops over dictionary keys take them in an unspecified order (`Tables.Choose`). Every result proved here holds for any order.
- pandas details: missing values in the tables, column dtypes, and the `.empty` guards. Selecting rows of an empty table returns it unchanged, so the guards need no separate branch.
- Freezing the sets into `frozenset`s (partridge/readers.py:214, 221): the model's sets are already values.
- The "No service found in feed." failure is an `assert` in the source, which Python skips when run with optimisation. The model always fails there.
