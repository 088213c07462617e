/** A worked case: a weekday service with a holiday exception on its first
    day, 2020-01-01 (ordinal 737425, a Wednesday) to 2020-01-10. */
module Scenario {
  import opened Tables
  import opened Dates
  import opened Feeds
  import opened Calendar
  import opened Aggregates

  /** Three trips on the weekday service "WD", one on the holiday service "HOL". */
  const Holiday: Feed := Feed(
    ["WD", "WD", "WD", "HOL"],
    [CalendarRow("WD", 737425, 737434, 1, 1, 1, 1, 1, 0, 0)],
    [CalendarDateRow(737425, "HOL", Addition), CalendarDateRow(737425, "WD", Removal)])

  /** The exceptions swap the weekday service for the holiday service on
      the holiday and leave the next day, a Thursday, to the weekly pattern. */
  lemma HolidayActive()
    ensures ActiveServices(Holiday, 737425) == {"HOL"}
    ensures ActiveServices(Holiday, 737426) == {"WD"}
  {
    var row := Holiday.calendar[0];
    forall s ensures s in ActiveServices(Holiday, 737425) <==> s == "HOL" {
      assert s in Holiday.trips <==> s == "WD" || s == "HOL";
    }
    assert Runs(row, 737426) by {
      assert Weekday(737426) == 3;
    }
    forall s ensures s in ActiveServices(Holiday, 737426) <==> s == "WD" {
      assert s in Holiday.trips <==> s == "WD" || s == "HOL";
      if s == "WD" {
        assert Scheduled(Holiday.calendar, 737426, s);
      }
    }
  }

  /** On the holiday only the added service runs; the next day the weekday
      service runs again. */
  lemma HolidayResolves()
    ensures 737425 in ServiceCalendar(Holiday) && ServiceCalendar(Holiday)[737425] == {"HOL"}
    ensures 737426 in ServiceCalendar(Holiday) && ServiceCalendar(Holiday)[737426] == {"WD"}
  {
    HolidayActive();
    ServiceCalendarMembership(Holiday, 737425, "HOL");
    ServiceCalendarMembership(Holiday, 737426, "WD");
  }

  /** The holiday trip is the last one; the weekday trips are the first three. */
  lemma HolidayTripPositions(trips: seq<ServiceId>)
    requires trips == Holiday.trips
    ensures TripPositions(trips, {"HOL"}) == {3}
    ensures TripPositions(trips, {"WD"}) == {0, 1, 2}
  {
  }

  /** One trip runs on the holiday service and three on the weekday one. */
  lemma HolidayTripsPerService(trips: seq<ServiceId>)
    requires trips == Holiday.trips
    ensures TripsRunning(trips, {"HOL"}) == 1
    ensures TripsRunning(trips, {"WD"}) == 3
  {
    HolidayTripPositions(trips);
    var hol, wd := TripPositions(trips, {"HOL"}), TripPositions(trips, {"WD"});
    assert |hol| == 1 && |wd| == 3;
  }

  /** The holiday has the one holiday trip; the next day has the three
      weekday trips. */
  lemma HolidayTripCounts()
    ensures 737425 in ServiceCalendar(Holiday) && 737426 in ServiceCalendar(Holiday)
    ensures TripCounts(Holiday.trips, ServiceCalendar(Holiday))[737425] == 1
    ensures TripCounts(Holiday.trips, ServiceCalendar(Holiday))[737426] == 3
  {
    HolidayResolves();
    HolidayTripsPerService(Holiday.trips);
  }
}
