/**
 * The orders the finalize step sorts by. The per-city driver comparator is the one
 * written out in catalog.c; the other three stand for the comparators of
 * catalog_sort.h, which are given here by the order their names describe.
 */
module Orders {
  import opened Entities
  import opened Sorting

  /** Rides by date, earliest first (glib_wrapper_compare_rides_by_date). */
  predicate RideDateLe(a: Ride, b: Ride)
  {
    a.date <= b.date
  }

  /** Rides by distance, longest first (glib_wrapper_compare_rides_by_distance). */
  predicate RideDistanceLe(a: Ride, b: Ride)
  {
    a.distance >= b.distance
  }

  /** Users by total distance, longest first (glib_wrapper_compare_users_by_total_distance). */
  predicate UserDistanceLe(a: User, b: User)
  {
    a.distance >= b.distance
  }

  /** Drivers by average score, best first, then by id, highest first
    * (glib_wrapper_compare_drivers_by_score). */
  predicate DriverRankLe(a: Driver, b: Driver)
  {
    || DriverAverage(a) > DriverAverage(b)
    || (DriverAverage(a) == DriverAverage(b) && a.id >= b.id)
  }

  /** Drivers of one city: `a` may be ranked before `b`. Average score descending,
    * then driver id descending. */
  predicate StatRankLe(a: DriverCityStat, b: DriverCityStat)
  {
    || StatAverage(a) > StatAverage(b)
    || (StatAverage(a) == StatAverage(b) && a.id >= b.id)
  }

  lemma OrdersAreTotalPreorders()
    ensures TotalPreorder(RideDateLe)
    ensures TotalPreorder(RideDistanceLe)
    ensures TotalPreorder(UserDistanceLe)
    ensures TotalPreorder(DriverRankLe)
    ensures TotalPreorder(StatRankLe)
  {
  }

  /** compare_driver_in_city_by_score: the sign of the difference of the averages. */
  function CompareByScore(a: DriverCityStat, b: DriverCityStat): (r: int)
    ensures -1 <= r <= 1
    ensures r > 0 <==> StatAverage(a) > StatAverage(b)
    ensures r < 0 <==> StatAverage(a) < StatAverage(b)
  {
    (if StatAverage(a) > StatAverage(b) then 1 else 0) - (if StatAverage(a) < StatAverage(b) then 1 else 0)
  }

  /** compare_driver_in_city_by_id */
  function CompareById(a: DriverCityStat, b: DriverCityStat): (r: int)
    ensures r < 0 <==> a.id < b.id
    ensures r == 0 <==> a.id == b.id
  {
    a.id - b.id
  }

  /** glib_wrapper_compare_drivers_in_city_by_score: both comparisons reversed, the
    * score first and the id only on a tie. */
  function CompareDriversInCity(a: DriverCityStat, b: DriverCityStat): (r: int)
    ensures r < 0 <==> StatAverage(a) > StatAverage(b) || (StatAverage(a) == StatAverage(b) && a.id > b.id)
    ensures r == 0 <==> StatAverage(a) == StatAverage(b) && a.id == b.id
  {
    var byScore := CompareByScore(b, a);
    if byScore != 0 then byScore else CompareById(b, a)
  }

  /** The C comparator and the ranking order agree: a negative result puts `a`
    * strictly first, zero only for the same average and the same id. */
  lemma CompareDriversInCityIsRanking(a: DriverCityStat, b: DriverCityStat)
    ensures CompareDriversInCity(a, b) <= 0 <==> StatRankLe(a, b)
    ensures CompareDriversInCity(a, b) < 0 <==> StatRankLe(a, b) && !StatRankLe(b, a)
    ensures CompareDriversInCity(a, b) == 0 <==> StatAverage(a) == StatAverage(b) && a.id == b.id
    ensures CompareDriversInCity(a, b) < 0 <==> CompareDriversInCity(b, a) > 0
  {
  }

  /** Comparing two averages is comparing the cross products of sums and counts,
    * so no division is needed to rank two drivers who both have rides. */
  lemma AverageOrderIsCrossMultiplication(a: DriverCityStat, b: DriverCityStat)
    requires a.rides > 0 && b.rides > 0
    ensures StatAverage(a) < StatAverage(b) <==> a.score * b.rides < b.score * a.rides
    ensures StatAverage(a) == StatAverage(b) <==> a.score * b.rides == b.score * a.rides
  {
    var x, y := StatAverage(a), StatAverage(b);
    var p, q := a.rides as real, b.rides as real;
    assert x * p == a.score as real;
    assert y * q == b.score as real;
    assert (a.score * b.rides) as real == x * p * q;
    assert (b.score * a.rides) as real == y * q * p;
    assert p * q > 0.0;
    if x < y {
      assert x * (p * q) < y * (p * q);
    }
    if y < x {
      assert y * (p * q) < x * (p * q);
    }
  }
}
