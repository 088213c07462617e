/** Queries derived from the resolved calendar and the trips table: dates
    grouped by identical service, trips per date, the busiest date and the
    busiest week (the remaining private functions of partridge/readers.py). */
module Aggregates {
  import opened Tables
  import opened Dates
  import opened Feeds
  import opened Calendar

  // ---------------------------------------------------------------------------
  // Dates grouped by identical service

  /** The dates of a calendar grouped by their exact set of services. */
  ghost function GroupByService(byDate: map<Date, Service>): map<Service, set<Date>>
  {
    map S | S in byDate.Values :: set d | d in byDate && byDate[d] == S
  }

  /** A grouping whose buckets are non-empty and hold exactly the dates with
      each service set is the grouping of the calendar. */
  lemma GroupByServiceByMembership(byDate: map<Date, Service>, g: map<Service, set<Date>>)
    requires forall S :: S in g ==> g[S] != {}
    requires forall S, d :: d in Lookup(g, S) <==> d in byDate && byDate[d] == S
    ensures g == GroupByService(byDate)
  {
    var spec := GroupByService(byDate);
    forall S | S in g
      ensures S in spec && g[S] == spec[S]
    {
      var d := ElementOf(g[S]);
      assert d in Lookup(g, S);
      assert byDate[d] == S;
      forall e ensures e in g[S] <==> e in spec[S] {
        assert e in g[S] <==> e in Lookup(g, S);
      }
    }
    forall S | S in spec
      ensures S in g
    {
      var d := KeyOf(byDate, S);
      assert d in Lookup(g, S);
    }
  }

  /** Groups the dates of a calendar by their service set, one date at a time. */
  method GroupDates(byDate: map<Date, Service>) returns (groups: map<Service, set<Date>>)
    ensures groups == GroupByService(byDate)
  {
    groups := map[];
    var todo := byDate.Keys;
    while todo != {}
      invariant todo <= byDate.Keys
      invariant forall S :: S in groups ==> groups[S] != {}
      invariant forall S, d :: (d in Lookup(groups, S) <==> d in byDate && d !in todo && byDate[d] == S)
      decreases |todo|
    {
      var date := Choose(todo);
      var services := byDate[date];
      ghost var before := groups;
      groups := groups[services := Lookup(groups, services) + {date}];
      todo := todo - {date};
      forall S, d
        ensures d in Lookup(groups, S) <==> d in byDate && d !in todo && byDate[d] == S
      {
        if S == services {
          assert Lookup(groups, S) == Lookup(before, S) + {date};
        } else {
          assert Lookup(groups, S) == Lookup(before, S);
        }
      }
    }
    GroupByServiceByMembership(byDate, groups);
  }

  /** The dates with identical service, grouped by that service. */
  method DatesByServiceIds(feed: Feed) returns (r: Result<map<Service, set<Date>>>)
    ensures r.Success? <==> ServiceCalendar(feed) != map[]
    ensures r.Failure? ==> r.error == NoServiceFound
    ensures r.Success? ==> r.value == GroupByService(ServiceCalendar(feed))
  {
    var byDate :- ServiceIdsByDate(feed);
    var groups := GroupDates(byDate);
    return Success(groups);
  }

  /** The buckets of the grouping are non-empty, pairwise disjoint, and
      together hold exactly the dates of the calendar, each in the bucket of
      its own service set. */
  lemma GroupsPartitionDates(byDate: map<Date, Service>)
    ensures forall S :: S in GroupByService(byDate) ==> GroupByService(byDate)[S] != {}
    ensures Disjoint(GroupByService(byDate))
    ensures forall S, d :: (S in GroupByService(byDate)
      ==> (d in GroupByService(byDate)[S] <==> d in byDate && byDate[d] == S))
    ensures forall d :: d in byDate ==> byDate[d] in GroupByService(byDate)
  {
    var g := GroupByService(byDate);
    forall S | S in g
      ensures g[S] != {}
    {
      var d := KeyOf(byDate, S);
      assert d in g[S];
    }
  }

  /** No date lies in two buckets of a grouping. */
  ghost predicate Disjoint(g: map<Service, set<Date>>)
  {
    forall S, T, d :: S in g && T in g && d in g[S] && d in g[T] ==> S == T
  }

  /** Expands a grouping back into a calendar: each date of a bucket mapped
      to the bucket's service set. */
  ghost function Ungroup(g: map<Service, set<Date>>): map<Date, Service>
    requires Disjoint(g)
  {
    map S, d | S in g && d in g[S] :: d := S
  }

  /** Grouping the dates by service and expanding the groups again gives
      back the calendar. */
  lemma GroupingRoundTrip(byDate: map<Date, Service>)
    ensures Disjoint(GroupByService(byDate)) && Ungroup(GroupByService(byDate)) == byDate
  {
    GroupsPartitionDates(byDate);
    var g := GroupByService(byDate);
    var u := Ungroup(g);
    forall d | d in byDate
      ensures d in u && u[d] == byDate[d]
    {
      assert byDate[d] in g && d in g[byDate[d]];
    }
  }

  // ---------------------------------------------------------------------------
  // Trips per date

  /** The positions in the trips table of the trips that run on one of the
      given services. */
  ghost function TripPositions(trips: seq<ServiceId>, services: Service): set<int>
  {
    set i | 0 <= i < |trips| && trips[i] in services
  }

  /** The number of trips that run on one of the given services. */
  function TripsRunning(trips: seq<ServiceId>, services: Service): (n: nat)
    ensures n <= |trips|
    ensures n == 0 <==> forall t :: t in trips ==> t !in services
    ensures n == |TripPositions(trips, services)|
  {
    var running := Where(trips, (t: ServiceId) => t in services);
    WhereKeepsEveryPosition(trips, (t: ServiceId) => t in services);
    assert Positions(trips, (t: ServiceId) => t in services) == TripPositions(trips, services);
    assert running != [] ==> running[0] in running;
    |running|
  }

  /** Each date of a calendar mapped to the number of trips running on it. */
  ghost function TripCounts(trips: seq<ServiceId>, byDate: map<Date, Service>): map<Date, int>
  {
    map d | d in byDate :: TripsRunning(trips, byDate[d])
  }

  /** Counts the trips of each service set of a grouping once and copies
      the count to every date of the group. */
  method CountTrips(trips: seq<ServiceId>, groups: map<Service, set<Date>>, ghost byDate: map<Date, Service>)
    returns (counts: map<Date, int>)
    requires groups == GroupByService(byDate)
    ensures counts == TripCounts(trips, byDate)
  {
    GroupsPartitionDates(byDate);
    counts := map[];
    var todo := groups.Keys;
    while todo != {}
      invariant todo <= groups.Keys
      invariant forall d :: d in counts <==> d in byDate && byDate[d] !in todo
      invariant forall d :: d in counts ==> counts[d] == TripsRunning(trips, byDate[d])
      decreases |todo|
    {
      var services := Choose(todo);
      var tripCount := TripsRunning(trips, services);
      var pending := groups[services];
      while pending != {}
        invariant pending <= groups[services]
        invariant forall d :: (d in counts
          <==> d in byDate && (byDate[d] !in todo || (byDate[d] == services && d !in pending)))
        invariant forall d :: d in counts ==> counts[d] == TripsRunning(trips, byDate[d])
        decreases |pending|
      {
        var date := Choose(pending);
        assert date in byDate && byDate[date] == services && date !in counts;
        counts := counts[date := Tally(counts, date) + tripCount];
        pending := pending - {date};
      }
      todo := todo - {services};
    }
    assert forall d :: d in counts <==> d in byDate;
    TripCountsByMembership(trips, byDate, counts);
  }

  /** A map over the calendar's dates holding each date's trip count is the
      map of trip counts. */
  lemma TripCountsByMembership(trips: seq<ServiceId>, byDate: map<Date, Service>, counts: map<Date, int>)
    requires counts.Keys == byDate.Keys
    requires forall d :: d in counts ==> counts[d] == TripsRunning(trips, byDate[d])
    ensures counts == TripCounts(trips, byDate)
  {
    var spec := TripCounts(trips, byDate);
    forall d | d in counts
      ensures counts[d] == spec[d]
    {
      assert spec[d] == TripsRunning(trips, byDate[d]);
    }
    SameEntries(counts, spec);
  }

  /** Two maps with the same keys and the same value under each are equal. */
  lemma SameEntries<K>(a: map<K, int>, b: map<K, int>)
    requires a.Keys == b.Keys
    requires forall k :: k in a ==> a[k] == b[k]
    ensures a == b
  {
  }

  /** The number of trips of every date with service. */
  method TripCountsByDate(feed: Feed) returns (r: Result<map<Date, int>>)
    ensures r.Success? <==> ServiceCalendar(feed) != map[]
    ensures r.Failure? ==> r.error == NoServiceFound
    ensures r.Success? ==> r.value == TripCounts(feed.trips, ServiceCalendar(feed))
  {
    var groups :- DatesByServiceIds(feed);
    var counts := CountTrips(feed.trips, groups, ServiceCalendar(feed));
    return Success(counts);
  }

  // ---------------------------------------------------------------------------
  // The maximum of `max(items, key=lambda kv: (kv[1], -kv[0]))`

  /** Key `k` beats every other key: a larger value, or an equal value and a
      smaller key. */
  predicate Ranks(m: map<int, int>, k: int)
  {
    k in m && forall j :: j in m ==> m[j] < m[k] || (m[j] == m[k] && k <= j)
  }

  lemma {:induction false} RanksExists(m: map<int, int>)
    requires m != map[]
    ensures exists k :: Ranks(m, k)
    decreases |m|
  {
    var x := ElementOf(m.Keys);
    var rest := m - {x};
    if rest == map[] {
      assert m.Keys == {x} by {
        forall j | j in m ensures j == x {
          assert j !in rest;
        }
      }
      assert Ranks(m, x);
    } else {
      RanksExists(rest);
      var k :| Ranks(rest, k);
      var best := if m[x] > m[k] || (m[x] == m[k] && x < k) then x else k;
      forall j | j in m
        ensures m[j] < m[best] || (m[j] == m[best] && best <= j)
      {
        if j != x {
          assert j in rest;
        }
      }
      assert Ranks(m, best);
    }
  }

  /** The key of largest value, the smallest such key on a tie: what `max`
      returns over the items with key (value, -key). */
  function MaxEarliest(m: map<int, int>): (k: int)
    requires m != map[]
    ensures k in m
    ensures forall j :: j in m ==> m[j] <= m[k]
    ensures forall j :: j in m && m[j] == m[k] ==> k <= j
  {
    RanksExists(m);
    var k :| Ranks(m, k);
    k
  }

  /** The date with the most trips, the earliest one on a tie, paired with
      its services. */
  function BusiestDateOf(byDate: map<Date, Service>, counts: map<Date, int>): (busiest: (Date, Service))
    requires byDate != map[] && counts.Keys == byDate.Keys
    ensures busiest.0 in byDate && busiest.1 == byDate[busiest.0]
    ensures forall e :: e in counts ==> counts[e] <= counts[busiest.0]
    ensures forall e :: e in counts && counts[e] == counts[busiest.0] ==> busiest.0 <= e
  {
    var date := MaxEarliest(counts);
    (date, byDate[date])
  }

  /** The busiest date of the feed and its services. */
  method BusiestDate(feed: Feed) returns (r: Result<(Date, Service)>)
    ensures r.Success? <==> ServiceCalendar(feed) != map[]
    ensures r.Failure? ==> r.error == NoServiceFound
    ensures r.Success? ==>
      r.value == BusiestDateOf(ServiceCalendar(feed), TripCounts(feed.trips, ServiceCalendar(feed)))
  {
    var byDate :- ServiceIdsByDate(feed);
    // Cannot fail once the calendar resolved.
    var tripCounts := TripCountsByDate(feed);
    var counts := tripCounts.value;
    return Success(BusiestDateOf(byDate, counts));
  }

  // ---------------------------------------------------------------------------
  // The busiest week

  /** The sum of the counts of some dates. */
  ghost function SumOver<K>(counts: map<K, int>, keys: set<K>): int
    requires keys <= counts.Keys
    decreases |keys|
  {
    if keys == {} then 0
    else
      var k :| k in keys;
      counts[k] + SumOver(counts, keys - {k})
  }

  /** The sum does not depend on the order the dates are taken in: any one
      of them can be taken first. */
  lemma {:induction false} SumOverTake<K>(counts: map<K, int>, keys: set<K>, x: K)
    requires keys <= counts.Keys && x in keys
    ensures SumOver(counts, keys) == counts[x] + SumOver(counts, keys - {x})
    decreases |keys|
  {
    var k :| k in keys && SumOver(counts, keys) == counts[k] + SumOver(counts, keys - {k});
    if k != x {
      SumOverTake(counts, keys - {k}, x);
      SumOverTake(counts, keys - {x}, k);
      assert keys - {k} - {x} == keys - {x} - {k};
    }
  }

  /** The dates among `dates` in the week starting on Monday `w`. */
  ghost function WeekMembers(dates: set<Date>, w: Date): set<Date>
  {
    set d | d in dates && WeekOf(d) == w
  }

  /** The trips of a week: the sum of the counts of its dates. */
  ghost function WeekTotal(counts: map<Date, int>, w: Date): int
  {
    SumOver(counts, WeekMembers(counts.Keys, w))
  }

  /** Week `w` holds a date of `counts`, and no week with a date has more
      trips, nor as many and an earlier Monday. */
  ghost predicate IsBusiestWeek(counts: map<Date, int>, w: Date)
  {
    && (exists d :: d in counts && WeekOf(d) == w)
    && forall e :: e in counts ==>
         WeekTotal(counts, WeekOf(e)) < WeekTotal(counts, w)
         || (WeekTotal(counts, WeekOf(e)) == WeekTotal(counts, w) && w <= WeekOf(e))
  }

  lemma WeekMembersStep(counts: map<Date, int>, done: set<Date>, date: Date, w: Date)
    requires done + {date} <= counts.Keys && date !in done
    ensures WeekMembers(done + {date}, w)
      == WeekMembers(done, w) + (if WeekOf(date) == w then {date} else {})
    ensures SumOver(counts, WeekMembers(done + {date}, w))
      == SumOver(counts, WeekMembers(done, w)) + (if WeekOf(date) == w then counts[date] else 0)
  {
    if WeekOf(date) == w {
      SumOverTake(counts, WeekMembers(done + {date}, w), date);
      assert WeekMembers(done + {date}, w) - {date} == WeekMembers(done, w);
    } else {
      assert WeekMembers(done + {date}, w) == WeekMembers(done, w);
    }
  }

  /** The distinct entries of a list. */
  ghost function Elements<T>(xs: seq<T>): set<T>
  {
    set x | x in xs
  }

  /** `week` is the calendar restricted to the dates of one week, and that
      week is the busiest. */
  ghost predicate IsBusiestWeekOf(byDate: map<Date, Service>, counts: map<Date, int>, week: map<Date, Service>)
  {
    && week != map[]
    && (forall d :: d in week ==> d in byDate && week[d] == byDate[d] && IsBusiestWeek(counts, WeekOf(d)))
    && (forall d, e :: d in week && e in byDate ==> (e in week <==> WeekOf(e) == WeekOf(d)))
  }

  /** The week buckets hold exactly the dates of `done` and the sums of
      their counts. */
  ghost predicate Accumulated(counts: map<Date, int>, done: set<Date>,
                              weeklyTripCounts: map<Date, int>, weeklyDates: map<Date, seq<Date>>)
    requires done <= counts.Keys
  {
    && weeklyTripCounts.Keys == weeklyDates.Keys
    && (forall d :: d in done ==> WeekOf(d) in weeklyDates)
    && (forall w :: w in weeklyDates ==> Elements(weeklyDates[w]) == WeekMembers(done, w))
    && (forall w :: w in weeklyDates ==> weeklyDates[w] != [])
    && (forall w :: w in weeklyTripCounts ==> weeklyTripCounts[w] == SumOver(counts, WeekMembers(done, w)))
  }

  /** Adding one more date to its week's bucket keeps the buckets accurate. */
  lemma AccumulateStep(counts: map<Date, int>, done: set<Date>, date: Date,
                       weeklyTripCounts: map<Date, int>, weeklyDates: map<Date, seq<Date>>)
    requires done + {date} <= counts.Keys && date !in done
    requires Accumulated(counts, done, weeklyTripCounts, weeklyDates)
    ensures
      var key := WeekOf(date);
      var bucket := if key in weeklyDates then weeklyDates[key] else [];
      Accumulated(counts, done + {date},
        weeklyTripCounts[key := Tally(weeklyTripCounts, key) + counts[date]],
        weeklyDates[key := bucket + [date]])
  {
    var key := WeekOf(date);
    forall w | w in weeklyTripCounts || w == key
      ensures WeekMembers(done + {date}, w) == WeekMembers(done, w) + (if key == w then {date} else {})
      ensures SumOver(counts, WeekMembers(done + {date}, w))
        == SumOver(counts, WeekMembers(done, w)) + (if key == w then counts[date] else 0)
    {
      WeekMembersStep(counts, done, date, w);
    }
    if key !in weeklyTripCounts {
      assert WeekMembers(done, key) == {};
    }
    var bucket := if key in weeklyDates then weeklyDates[key] else [];
    assert Elements(bucket + [date]) == Elements(bucket) + {date};
  }

  /** Sums the counts of the calendar's dates into week buckets, and lists
      the dates of each bucket. */
  method WeeklyTotals(byDate: map<Date, Service>, counts: map<Date, int>)
    returns (weeklyTripCounts: map<Date, int>, weeklyDates: map<Date, seq<Date>>)
    requires counts.Keys == byDate.Keys
    ensures weeklyTripCounts.Keys == weeklyDates.Keys
    ensures forall d :: d in byDate ==> WeekOf(d) in weeklyDates
    ensures forall w :: w in weeklyDates ==> Elements(weeklyDates[w]) == WeekMembers(byDate.Keys, w)
    ensures forall w :: w in weeklyDates ==> weeklyDates[w] != []
    ensures forall w :: w in weeklyTripCounts ==> weeklyTripCounts[w] == WeekTotal(counts, w)
  {
    weeklyTripCounts, weeklyDates := map[], map[];
    var todo := byDate.Keys;
    ghost var done: set<Date> := {};
    while todo != {}
      invariant todo <= byDate.Keys && done == byDate.Keys - todo
      invariant Accumulated(counts, done, weeklyTripCounts, weeklyDates)
      decreases |todo|
    {
      var date := Choose(todo);
      var key := WeekOf(date);
      AccumulateStep(counts, done, date, weeklyTripCounts, weeklyDates);
      var bucket := if key in weeklyDates then weeklyDates[key] else [];
      weeklyTripCounts := weeklyTripCounts[key := Tally(weeklyTripCounts, key) + counts[date]];
      weeklyDates := weeklyDates[key := bucket + [date]];
      todo := todo - {date};
      done := done + {date};
    }
    assert done == counts.Keys;
  }

  /** Keeps the dates of the week bucket with the most trips, the earliest
      on a tie. */
  method BusiestWeekOf(byDate: map<Date, Service>, counts: map<Date, int>) returns (week: map<Date, Service>)
    requires byDate != map[] && counts.Keys == byDate.Keys
    ensures IsBusiestWeekOf(byDate, counts, week)
  {
    var weeklyTripCounts, weeklyDates := WeeklyTotals(byDate, counts);
    var someDate := Choose(byDate.Keys);
    assert WeekOf(someDate) in weeklyTripCounts;
    var best := MaxEarliest(weeklyTripCounts);
    var dates := weeklyDates[best];
    assert forall d :: d in dates <==> d in byDate && WeekOf(d) == best by {
      forall d ensures d in dates <==> d in byDate && WeekOf(d) == best {
        assert d in dates <==> d in Elements(dates);
      }
    }
    week := map d | d in dates :: byDate[d];
    assert dates[0] in week;
    forall e | e in counts
      ensures WeekTotal(counts, WeekOf(e)) < WeekTotal(counts, best)
        || (WeekTotal(counts, WeekOf(e)) == WeekTotal(counts, best) && best <= WeekOf(e))
    {
      assert WeekOf(e) in weeklyTripCounts;
    }
  }

  /** The total of the chosen week is the sum of the counts of exactly the
      dates returned for it. */
  lemma BusiestWeekTotal(byDate: map<Date, Service>, counts: map<Date, int>, week: map<Date, Service>, d: Date)
    requires counts.Keys == byDate.Keys && IsBusiestWeekOf(byDate, counts, week) && d in week
    ensures week.Keys <= counts.Keys && WeekTotal(counts, WeekOf(d)) == SumOver(counts, week.Keys)
  {
    forall e ensures e in WeekMembers(counts.Keys, WeekOf(d)) <==> e in week {
      if e in week {
        assert e in byDate;
      }
    }
    assert WeekMembers(counts.Keys, WeekOf(d)) == week.Keys;
  }

  /** The busiest week of the feed, as the part of the calendar it covers. */
  method BusiestWeek(feed: Feed) returns (r: Result<map<Date, Service>>)
    ensures r.Success? <==> ServiceCalendar(feed) != map[]
    ensures r.Failure? ==> r.error == NoServiceFound
    ensures r.Success? ==>
      IsBusiestWeekOf(ServiceCalendar(feed), TripCounts(feed.trips, ServiceCalendar(feed)), r.value)
  {
    var byDate :- ServiceIdsByDate(feed);
    // Cannot fail once the calendar resolved.
    var tripCounts := TripCountsByDate(feed);
    var counts := tripCounts.value;
    var week := BusiestWeekOf(byDate, counts);
    return Success(week);
  }
}
