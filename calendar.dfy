/** Calendar resolution: merging the weekly-pattern table and the exception
    table of a feed into the exact set of active service ids of every date
    (`_service_ids_by_date` in partridge/readers.py). */
module Calendar {
  import opened Tables
  import opened Dates
  import opened Feeds

  /** Exception type that adds a service on a date. */
  const Addition: string := "1"
  /** Exception type that removes a service on a date. */
  const Removal: string := "2"
  /** The message of the failure raised when no date has any service. */
  const NoServiceFound: string := "No service found in feed."

  // ---------------------------------------------------------------------------
  // What the resolved calendar is, stated row by row

  /** Some weekly-pattern row of service `s` runs on date `d`. */
  ghost predicate Scheduled(calendar: seq<CalendarRow>, d: Date, s: ServiceId)
  {
    exists row :: row in calendar && row.serviceId == s && Runs(row, d)
  }

  /** The services active on a date: referenced by some trip, scheduled by a
      weekly pattern or added by an exception, and not removed by one. */
  ghost function ActiveServices(feed: Feed, d: Date): Service
  {
    set s | s in feed.trips
      && (Scheduled(feed.calendar, d, s) || CalendarDateRow(d, s, Addition) in feed.calendarDates)
      && CalendarDateRow(d, s, Removal) !in feed.calendarDates
  }

  /** The dates in the range of some weekly-pattern row. */
  ghost function CoveredDates(calendar: seq<CalendarRow>): set<Date>
  {
    if calendar == [] then {}
    else Span(calendar[0].startDate, calendar[0].endDate) + CoveredDates(calendar[1..])
  }

  lemma {:induction false} CoveredDatesHold(calendar: seq<CalendarRow>, row: CalendarRow, d: Date)
    requires row in calendar && row.startDate <= d <= row.endDate
    ensures d in CoveredDates(calendar)
  {
    if row != calendar[0] {
      CoveredDatesHold(calendar[1..], row, d);
    }
  }

  /** Every date some row of either table mentions; no other date can have
      service. */
  ghost function MentionedDates(feed: Feed): set<Date>
  {
    CoveredDates(feed.calendar) + (set c | c in feed.calendarDates :: c.date)
  }

  /** The resolved calendar: every date with at least one active service,
      mapped to exactly those services. */
  ghost function ServiceCalendar(feed: Feed): map<Date, Service>
  {
    map d | d in MentionedDates(feed) && ActiveServices(feed, d) != {} :: ActiveServices(feed, d)
  }

  lemma ActiveIsMentioned(feed: Feed, d: Date, s: ServiceId)
    requires s in ActiveServices(feed, d)
    ensures d in MentionedDates(feed)
  {
    if Scheduled(feed.calendar, d, s) {
      var row :| row in feed.calendar && row.serviceId == s && Runs(row, d);
      CoveredDatesHold(feed.calendar, row, d);
    } else {
      var c := CalendarDateRow(d, s, Addition);
      assert c in feed.calendarDates;
      assert d in (set c | c in feed.calendarDates :: c.date);
    }
  }

  /** A map whose non-empty entries hold exactly the active services of each
      date is the resolved calendar. */
  lemma ServiceCalendarByMembership(feed: Feed, m: map<Date, Service>)
    requires forall d :: d in m ==> m[d] != {}
    requires forall d, s :: s in Lookup(m, d) <==> s in ActiveServices(feed, d)
    ensures m == ServiceCalendar(feed)
  {
    var spec := ServiceCalendar(feed);
    forall d | d in m
      ensures d in spec && m[d] == spec[d]
    {
      var s :| s in m[d];
      assert s in Lookup(m, d);
      ActiveIsMentioned(feed, d, s);
      assert m[d] == ActiveServices(feed, d) by {
        forall t ensures t in m[d] <==> t in ActiveServices(feed, d) {
          assert t in m[d] <==> t in Lookup(m, d);
        }
      }
    }
    forall d | d in spec
      ensures d in m
    {
      var s :| s in ActiveServices(feed, d);
      assert s in Lookup(m, d);
    }
  }

  // ---------------------------------------------------------------------------
  // The resolution itself, one commented block of the source at a time

  lemma ScheduledExtend(calendar: seq<CalendarRow>, i: nat)
    requires i < |calendar|
    ensures forall d, s :: (Scheduled(calendar[..i + 1], d, s)
      <==> Scheduled(calendar[..i], d, s) || (s == calendar[i].serviceId && Runs(calendar[i], d)))
  {
    var before, row := calendar[..i], calendar[i];
    assert calendar[..i + 1] == before + [row];
    forall d, s
      ensures Scheduled(calendar[..i + 1], d, s) <==> Scheduled(before, d, s) || (s == row.serviceId && Runs(row, d))
    {
      if Scheduled(calendar[..i + 1], d, s) {
        var r :| r in calendar[..i + 1] && r.serviceId == s && Runs(r, d);
        assert r in before || r == row;
      }
      if Scheduled(before, d, s) {
        var r :| r in before && r.serviceId == s && Runs(r, d);
        assert r in calendar[..i + 1];
      }
      if s == row.serviceId && Runs(row, d) {
        assert row in calendar[..i + 1];
      }
    }
  }

  /** The (date, service id) pairs of some exception rows. */
  ghost function Pairs(rows: seq<CalendarDateRow>): set<(Date, ServiceId)>
  {
    set c | c in rows :: (c.date, c.serviceId)
  }

  /** Builds the date-to-services map from the weekly-pattern rows, walking
      each row's range one date at a time. */
  method ApplyWeeklyPatterns(calendar: seq<CalendarRow>) returns (results: map<Date, Service>)
    ensures forall d :: d in results ==> results[d] != {}
    ensures forall d, s :: s in Lookup(results, d) <==> Scheduled(calendar, d, s)
  {
    results := map[];
    for i := 0 to |calendar|
      invariant forall d :: d in results ==> results[d] != {}
      invariant forall d, s :: s in Lookup(results, d) <==> Scheduled(calendar[..i], d, s)
    {
      var cal := calendar[i];
      var dow := map k | 0 <= k < |DayNames| :: Column(cal, DayNames[k]);
      var ordinal := cal.startDate;
      while ordinal <= cal.endDate
        invariant cal.startDate <= ordinal && (ordinal <= cal.endDate + 1 || ordinal == cal.startDate)
        invariant forall d :: d in results ==> results[d] != {}
        invariant forall d, s :: (s in Lookup(results, d)
          <==> Scheduled(calendar[..i], d, s) || (s == cal.serviceId && ordinal > d && Runs(cal, d)))
        decreases cal.endDate - ordinal
      {
        if dow[Weekday(ordinal)] != 0 {
          results := results[ordinal := Lookup(results, ordinal) + {cal.serviceId}];
        }
        ordinal := ordinal + 1;
      }
      ScheduledExtend(calendar, i);
    }
    assert calendar[..|calendar|] == calendar;
  }

  /** Adds the service of every exception row to the set of its date. */
  method ApplyAdditions(results0: map<Date, Service>, additions: seq<CalendarDateRow>)
    returns (results: map<Date, Service>)
    requires forall d :: d in results0 ==> results0[d] != {}
    ensures forall d :: d in results ==> results[d] != {}
    ensures forall d, s :: (s in Lookup(results, d)
      <==> s in Lookup(results0, d) || (d, s) in Pairs(additions))
  {
    results := results0;
    for i := 0 to |additions|
      invariant forall d :: d in results ==> results[d] != {}
      invariant forall d, s :: (s in Lookup(results, d)
        <==> s in Lookup(results0, d) || (d, s) in Pairs(additions[..i]))
    {
      var cd := additions[i];
      assert additions[..i + 1] == additions[..i] + [cd];
      results := results[cd.date := Lookup(results, cd.date) + {cd.serviceId}];
    }
    assert additions[..|additions|] == additions;
  }

  /** Collects, per date, the services that exception rows remove. */
  method CollectRemovals(rows: seq<CalendarDateRow>) returns (removals: map<Date, Service>)
    ensures forall d :: d in removals ==> removals[d] != {}
    ensures forall d, s :: (s in Lookup(removals, d)
      <==> (d, s) in Pairs(rows))
  {
    removals := map[];
    for i := 0 to |rows|
      invariant forall d :: d in removals ==> removals[d] != {}
      invariant forall d, s :: (s in Lookup(removals, d)
        <==> (d, s) in Pairs(rows[..i]))
    {
      var cd := rows[i];
      assert rows[..i + 1] == rows[..i] + [cd];
      removals := removals[cd.date := Lookup(removals, cd.date) + {cd.serviceId}];
    }
    assert rows[..|rows|] == rows;
  }

  /** Takes the removed services out of one date's set, one service at a
      time, skipping those the set does not hold. */
  method RemoveServices(current: Service, removed: Service) returns (remaining: Service)
    ensures remaining == current - removed
  {
    remaining := current;
    var pending := removed;
    while pending != {}
      invariant pending <= removed
      invariant remaining == current - (removed - pending)
      decreases |pending|
    {
      var serviceId := Choose(pending);
      if serviceId in remaining {
        remaining := remaining - {serviceId};
      }
      pending := pending - {serviceId};
    }
  }

  /** Takes every collected removal out of the map, dropping the dates whose
      set becomes empty. */
  method ApplyRemovals(results0: map<Date, Service>, removals: map<Date, Service>)
    returns (results: map<Date, Service>)
    requires forall d :: d in results0 ==> results0[d] != {}
    ensures forall d :: d in results ==> results[d] != {}
    ensures forall d, s :: (s in Lookup(results, d)
      <==> s in Lookup(results0, d) && s !in Lookup(removals, d))
  {
    results := results0;
    var dates := removals.Keys;
    while dates != {}
      invariant dates <= removals.Keys
      invariant forall d :: d in results ==> results[d] != {}
      invariant forall d, s :: (s in Lookup(results, d)
        <==> s in Lookup(results0, d) && (d in dates || s !in Lookup(removals, d)))
      decreases |dates|
    {
      var date := Choose(dates);
      // Reading `results[date]` of the defaultdict creates the entry.
      if date !in results {
        results := results[date := {}];
      }
      var remaining := RemoveServices(results[date], removals[date]);
      assert remaining == Lookup(results0, date) - Lookup(removals, date);
      results := results[date := remaining];
      // A date left without service is dropped.
      if |results[date]| == 0 {
        results := results - {date};
      }
      dates := dates - {date};
    }
  }

  /** The map from each date to its active services. Fails when no date has
      any service at all. */
  method ServiceIdsByDate(feed: Feed) returns (r: Result<map<Date, Service>>)
    ensures r.Success? <==> ServiceCalendar(feed) != map[]
    ensures r.Success? ==> r.value == ServiceCalendar(feed)
    ensures r.Failure? ==> r.error == NoServiceFound
    ensures r.Success? ==> forall d :: d in r.value ==> r.value[d] != {}
    ensures r.Success? ==> forall d, s :: d in r.value && s in r.value[d] ==> s in feed.trips
  {
    // Only rows of services that some trip runs on are considered.
    var serviceIds := set s | s in feed.trips;
    var calendar := Where(feed.calendar, (row: CalendarRow) => row.serviceId in serviceIds);
    var caldates := Where(feed.calendarDates, (c: CalendarDateRow) => c.serviceId in serviceIds);

    var results := ApplyWeeklyPatterns(calendar);

    // Exception rows are split by type; additions go straight in, removals
    // are applied only once every addition is in, so a removal always wins.
    var cdadd := Where(caldates, (c: CalendarDateRow) => c.exceptionType == Addition);
    var cdrem := Where(caldates, (c: CalendarDateRow) => c.exceptionType == Removal);
    results := ApplyAdditions(results, cdadd);
    var removals := CollectRemovals(cdrem);
    results := ApplyRemovals(results, removals);

    forall d, s
      ensures s in Lookup(results, d) <==> s in ActiveServices(feed, d)
    {
      assert Scheduled(calendar, d, s) <==> s in serviceIds && Scheduled(feed.calendar, d, s) by {
        if Scheduled(feed.calendar, d, s) && s in serviceIds {
          var row :| row in feed.calendar && row.serviceId == s && Runs(row, d);
          assert row in calendar;
        }
      }
      ExceptionIn(feed.calendarDates, serviceIds, cdadd, Addition, d, s);
      ExceptionIn(feed.calendarDates, serviceIds, cdrem, Removal, d, s);
    }
    ServiceCalendarByMembership(feed, results);

    if results == map[] {
      return Failure(NoServiceFound);
    }
    return Success(results);
  }

  // ---------------------------------------------------------------------------
  // Properties of the resolved calendar

  /** A service is in the set of a date exactly when it is active there; in
      particular only services some trip runs on ever appear. */
  lemma ServiceCalendarMembership(feed: Feed, d: Date, s: ServiceId)
    ensures (d in ServiceCalendar(feed) && s in ServiceCalendar(feed)[d]) <==> s in ActiveServices(feed, d)
  {
    if s in ActiveServices(feed, d) {
      ActiveIsMentioned(feed, d, s);
    }
  }

  /** Without exception rows, a service runs on a date exactly when some trip
      uses it and one of its weekly-pattern rows covers the date with the
      flag of the date's weekday set. */
  lemma WeeklyPatternRule(feed: Feed, d: Date, s: ServiceId)
    requires feed.calendarDates == []
    ensures (d in ServiceCalendar(feed) && s in ServiceCalendar(feed)[d])
      <==> (s in feed.trips && exists row :: (row in feed.calendar && row.serviceId == s
              && row.startDate <= d <= row.endDate && Column(row, DayNames[Weekday(d)]) != 0))
  {
    ServiceCalendarMembership(feed, d, s);
  }

  /** An addition row of a service some trip uses puts it on its date, unless
      a removal row for the same date and service exists. */
  lemma AdditionRule(feed: Feed, d: Date, s: ServiceId)
    requires s in feed.trips && CalendarDateRow(d, s, Addition) in feed.calendarDates
    ensures (d in ServiceCalendar(feed) && s in ServiceCalendar(feed)[d])
      <==> CalendarDateRow(d, s, Removal) !in feed.calendarDates
  {
    ServiceCalendarMembership(feed, d, s);
  }

  /** A removal row takes its service off its date whatever else the tables
      say and wherever the row stands. */
  lemma RemovalWins(feed: Feed, d: Date, s: ServiceId)
    requires CalendarDateRow(d, s, Removal) in feed.calendarDates
    ensures d !in ServiceCalendar(feed) || s !in ServiceCalendar(feed)[d]
  {
    ServiceCalendarMembership(feed, d, s);
  }

  /** Two feeds with the same active services on every date resolve to the
      same calendar. */
  lemma SameActiveSameCalendar(feed: Feed, other: Feed)
    requires forall d :: ActiveServices(feed, d) == ActiveServices(other, d)
    ensures ServiceCalendar(feed) == ServiceCalendar(other)
  {
    var m := ServiceCalendar(feed);
    forall d, s ensures s in Lookup(m, d) <==> s in ActiveServices(other, d) {
      ServiceCalendarMembership(feed, d, s);
    }
    ServiceCalendarByMembership(other, m);
  }

  /** The order of the rows in each table, and repeated rows, do not matter. */
  lemma RowOrderIrrelevant(feed: Feed, other: Feed)
    requires forall s :: s in feed.trips <==> s in other.trips
    requires forall row :: row in feed.calendar <==> row in other.calendar
    requires forall c :: c in feed.calendarDates <==> c in other.calendarDates
    ensures ServiceCalendar(feed) == ServiceCalendar(other)
  {
    forall d ensures ActiveServices(feed, d) == ActiveServices(other, d) {
      forall s ensures Scheduled(feed.calendar, d, s) <==> Scheduled(other.calendar, d, s) {
        if Scheduled(feed.calendar, d, s) {
          var row :| row in feed.calendar && row.serviceId == s && Runs(row, d);
          assert row in other.calendar;
        }
        if Scheduled(other.calendar, d, s) {
          var row :| row in other.calendar && row.serviceId == s && Runs(row, d);
          assert row in feed.calendar;
        }
      }
    }
    SameActiveSameCalendar(feed, other);
  }

  /** Exception rows whose type is neither "1" nor "2" have no effect. */
  lemma OtherExceptionTypesIgnored(feed: Feed)
    ensures ServiceCalendar(feed) == ServiceCalendar(feed.(calendarDates :=
      Where(feed.calendarDates, (c: CalendarDateRow) => c.exceptionType == Addition || c.exceptionType == Removal)))
  {
    var other := feed.(calendarDates :=
      Where(feed.calendarDates, (c: CalendarDateRow) => c.exceptionType == Addition || c.exceptionType == Removal));
    forall d ensures ActiveServices(feed, d) == ActiveServices(other, d) {
      forall s ensures s in ActiveServices(feed, d) <==> s in ActiveServices(other, d) {
        assert CalendarDateRow(d, s, Addition) in feed.calendarDates
          <==> CalendarDateRow(d, s, Addition) in other.calendarDates;
        assert CalendarDateRow(d, s, Removal) in feed.calendarDates
          <==> CalendarDateRow(d, s, Removal) in other.calendarDates;
      }
    }
    SameActiveSameCalendar(feed, other);
  }

  /** Rows of either table whose service no trip uses contribute nothing:
      dropping them leaves the calendar unchanged. */
  lemma UnreferencedRowsIgnored(feed: Feed)
    ensures ServiceCalendar(feed) == ServiceCalendar(Feed(feed.trips,
      Where(feed.calendar, (row: CalendarRow) => row.serviceId in feed.trips),
      Where(feed.calendarDates, (c: CalendarDateRow) => c.serviceId in feed.trips)))
  {
    var other := Feed(feed.trips,
      Where(feed.calendar, (row: CalendarRow) => row.serviceId in feed.trips),
      Where(feed.calendarDates, (c: CalendarDateRow) => c.serviceId in feed.trips));
    forall d ensures ActiveServices(feed, d) == ActiveServices(other, d) {
      forall s | s in feed.trips
        ensures Scheduled(feed.calendar, d, s) <==> Scheduled(other.calendar, d, s)
      {
        if Scheduled(feed.calendar, d, s) {
          var row :| row in feed.calendar && row.serviceId == s && Runs(row, d);
          assert row in other.calendar;
        }
      }
      forall s ensures s in ActiveServices(feed, d) <==> s in ActiveServices(other, d) {
        if s in feed.trips {
          assert CalendarDateRow(d, s, Addition) in feed.calendarDates
            <==> CalendarDateRow(d, s, Addition) in other.calendarDates;
          assert CalendarDateRow(d, s, Removal) in feed.calendarDates
            <==> CalendarDateRow(d, s, Removal) in other.calendarDates;
        }
      }
    }
    SameActiveSameCalendar(feed, other);
  }

  lemma ExceptionIn(rows: seq<CalendarDateRow>, ids: set<ServiceId>, selected: seq<CalendarDateRow>,
                    kind: string, d: Date, s: ServiceId)
    requires forall c :: c in selected <==> c in rows && c.serviceId in ids && c.exceptionType == kind
    ensures (d, s) in Pairs(selected) <==> s in ids && CalendarDateRow(d, s, kind) in rows
  {
    if s in ids && CalendarDateRow(d, s, kind) in rows {
      assert CalendarDateRow(d, s, kind) in selected;
    }
  }
}
