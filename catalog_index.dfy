/**
 * Specification functions for the catalog's secondary indexes: which rides belong
 * to a city, to a (city, driver) pair, what the per-city driver statistic must hold,
 * and the sum of the bucket sizes.
 */
module CatalogIndex {
  import opened Entities
  import opened Sorting
  import opened Orders

  /** The value drivers_in_city holds for one city: the GHashArray union, a map by
    * driver id while rides are registered, a ranked array after finalize. */
  datatype CityDrivers =
    | Accumulating(stats: map<int, DriverCityStat>)
    | Ranked(ranking: seq<DriverCityStat>)

  /** The bucket of `city`, empty when the city has none yet. */
  function BucketOf(m: map<string, seq<Ride>>, city: string): seq<Ride>
  {
    if city in m then m[city] else []
  }

  /** The statistics map of `city` while rides are registered, empty when absent. */
  function StatsOf(m: map<string, CityDrivers>, city: string): map<int, DriverCityStat>
  {
    if city in m && m[city].Accumulating? then m[city].stats else map[]
  }

  /** The rides of `s` in `city`, in their order in `s`. */
  function CityRides(s: seq<Ride>, city: string): seq<Ride>
  {
    if s == [] then []
    else CityRides(s[..|s| - 1], city) + (if s[|s| - 1].city == city then [s[|s| - 1]] else [])
  }

  /** The rides of `s` outside `city`, in their order in `s`. */
  function OtherCityRides(s: seq<Ride>, city: string): seq<Ride>
  {
    if s == [] then []
    else OtherCityRides(s[..|s| - 1], city) + (if s[|s| - 1].city == city then [] else [s[|s| - 1]])
  }

  /** Splitting the rides by one city loses and duplicates none of them. */
  lemma {:induction false} CitySplitSizes(s: seq<Ride>, city: string)
    ensures |CityRides(s, city)| + |OtherCityRides(s, city)| == |s|
  {
    if s != [] {
      CitySplitSizes(s[..|s| - 1], city);
    }
  }

  /** A ride occurs in its own city's rides as often as in `s`, and in no other city's. */
  lemma {:induction false} CityRidesCount(s: seq<Ride>, city: string, x: Ride)
    ensures multiset(CityRides(s, city))[x] == if x.city == city then multiset(s)[x] else 0
  {
    if s != [] {
      var init, last := s[..|s| - 1], s[|s| - 1];
      CityRidesCount(init, city, x);
      assert s == init + [last];
      assert multiset(s) == multiset(init) + multiset{last};
    }
  }

  /** A ride occurs among the rides outside `city` as often as in `s`, unless it is in
    * `city`. */
  lemma {:induction false} OtherCityRidesCount(s: seq<Ride>, city: string, x: Ride)
    ensures multiset(OtherCityRides(s, city))[x] == if x.city == city then 0 else multiset(s)[x]
  {
    if s != [] {
      var init, last := s[..|s| - 1], s[|s| - 1];
      OtherCityRidesCount(init, city, x);
      assert s == init + [last];
      assert multiset(s) == multiset(init) + multiset{last};
    }
  }

  /** The rides of `s` in `city` driven by driver `id`, in their order in `s`. */
  function DriverCityRides(s: seq<Ride>, city: string, id: int): seq<Ride>
  {
    if s == [] then []
    else
      var last := s[|s| - 1];
      DriverCityRides(s[..|s| - 1], city, id) + (if last.city == city && last.driverId == id then [last] else [])
  }

  /** The sum of the driver scores of `s`. */
  function DriverScoreSum(s: seq<Ride>): int
  {
    if s == [] then 0 else DriverScoreSum(s[..|s| - 1]) + s[|s| - 1].scoreDriver
  }

  lemma DriverCityRidesAppend(s: seq<Ride>, x: Ride, city: string, id: int)
    ensures DriverCityRides(s + [x], city, id)
         == DriverCityRides(s, city, id) + (if x.city == city && x.driverId == id then [x] else [])
  {
    assert (s + [x])[..|s|] == s;
  }

  lemma DriverScoreSumAppend(s: seq<Ride>, x: Ride)
    ensures DriverScoreSum(s + [x]) == DriverScoreSum(s) + x.scoreDriver
  {
    assert (s + [x])[..|s|] == s;
  }

  /** The rides of a (city, driver) pair are registered rides of that city and driver. */
  lemma {:induction false} DriverCityRidesMembers(s: seq<Ride>, city: string, id: int)
    ensures forall y {:trigger y in DriverCityRides(s, city, id)} :: y in DriverCityRides(s, city, id) ==> y in s && y.city == city && y.driverId == id
  {
    if s != [] {
      DriverCityRidesMembers(s[..|s| - 1], city, id);
      assert s == s[..|s| - 1] + [s[|s| - 1]];
    }
  }

  /** The statistics of one city agree with the registered rides: every driver who
    * drove in the city has an entry, and each entry holds the driver's id, the
    * number of the driver's rides there (at least one) and the sum of their driver
    * scores. */
  ghost predicate StatsMatch(stats: map<int, DriverCityStat>, s: seq<Ride>, city: string)
  {
    && (forall x {:trigger x in s} :: x in s && x.city == city ==> x.driverId in stats)
    && (forall id :: id in stats ==>
          && stats[id].id == id
          && 0 < stats[id].rides == |DriverCityRides(s, city, id)|
          && stats[id].score == DriverScoreSum(DriverCityRides(s, city, id)))
  }

  /** A city's statistics have an entry for exactly the drivers who drove there. */
  lemma StatsMatchListsDrivers(stats: map<int, DriverCityStat>, s: seq<Ride>, city: string, id: int)
    requires StatsMatch(stats, s, city)
    ensures id in stats <==> DriverCityRides(s, city, id) != []
  {
    var rs := DriverCityRides(s, city, id);
    if rs != [] {
      DriverCityRidesMembers(s, city, id);
      assert rs[0] in rs;
    }
  }

  /** The entry of `stats` for driver `id` after one more ride scored `score`: created
    * with score 0, no rides and the given name on first use, then bumped. */
  function AddScore(stats: map<int, DriverCityStat>, id: int, name: string, score: int): map<int, DriverCityStat>
  {
    var before := if id in stats then stats[id] else DriverCityStat(id, name, 0, 0);
    stats[id := before.(score := before.score + score, rides := before.rides + 1)]
  }

  /** Registering ride `x` in its own city keeps that city's statistics in step. */
  lemma StatsMatchAfterRide(stats: map<int, DriverCityStat>, s: seq<Ride>, x: Ride, name: string)
    requires StatsMatch(stats, s, x.city)
    ensures StatsMatch(AddScore(stats, x.driverId, name, x.scoreDriver), s + [x], x.city)
  {
    var updated := AddScore(stats, x.driverId, name, x.scoreDriver);
    forall y | y in s + [x] && y.city == x.city ensures y.driverId in updated {
      if y != x {
        assert y in s;
      }
    }
    forall id | id in updated
      ensures && updated[id].id == id
              && 0 < updated[id].rides == |DriverCityRides(s + [x], x.city, id)|
              && updated[id].score == DriverScoreSum(DriverCityRides(s + [x], x.city, id))
    {
      DriverCityRidesAppend(s, x, x.city, id);
      var before := DriverCityRides(s, x.city, id);
      if id == x.driverId {
        DriverScoreSumAppend(before, x);
        assert DriverCityRides(s + [x], x.city, id) == before + [x];
        if id !in stats {
          StatsMatchListsDrivers(stats, s, x.city, id);
          assert DriverScoreSum(before) == 0;
        }
      } else {
        assert DriverCityRides(s + [x], x.city, id) == before;
      }
    }
  }

  /** Registering a ride elsewhere leaves a city's statistics valid. */
  lemma StatsMatchOtherCity(stats: map<int, DriverCityStat>, s: seq<Ride>, x: Ride, city: string)
    requires StatsMatch(stats, s, city) && x.city != city
    ensures StatsMatch(stats, s + [x], city)
  {
    forall id ensures DriverCityRides(s + [x], city, id) == DriverCityRides(s, city, id) {
      DriverCityRidesAppend(s, x, city, id);
    }
    forall y | y in s + [x] && y.city == city ensures y.driverId in stats {
      assert y in s;
    }
  }

  /** `ranking` lists the statistics of `stats`, each exactly once. */
  ghost predicate ListsStats(ranking: seq<DriverCityStat>, stats: map<int, DriverCityStat>)
  {
    && (forall id :: id in stats ==> stats[id] in ranking)
    && (forall x {:trigger x in ranking} :: x in ranking ==> x.id in stats && stats[x.id] == x)
    && (forall x :: multiset(ranking)[x] <= 1)
  }

  /** `now` is the ranked form of the statistics `before` held. */
  ghost predicate RankedFrom(now: CityDrivers, before: CityDrivers)
  {
    now.Ranked? && before.Accumulating? && ListsStats(now.ranking, before.stats)
  }

  /** Every city of `now` ranks the statistics the same city held in `before`,
    * and those statistics agreed with the rides `s`. */
  ghost predicate RankedFromRides(now: map<string, CityDrivers>, before: map<string, CityDrivers>, s: seq<Ride>)
  {
    forall c :: c in now ==> c in before && RankedFrom(now[c], before[c]) && StatsMatch(before[c].stats, s, c)
  }

  /** The sizes of the city buckets. */
  function Sizes(m: map<string, seq<Ride>>): map<string, nat>
  {
    map c | c in m :: |m[c]|
  }

  ghost function SumValues(m: map<string, nat>): nat
    decreases |m|
  {
    if m == map[] then 0
    else
      var k :| k in m;
      assert |(m - {k}).Keys| < |m.Keys| by {
        assert (m - {k}).Keys == m.Keys - {k};
      }
      m[k] + SumValues(m - {k})
  }

  /** The sum does not depend on which key is taken out first. */
  lemma {:induction false} SumValuesRemove(m: map<string, nat>, k: string)
    requires k in m
    ensures SumValues(m) == m[k] + SumValues(m - {k})
    decreases |m|
  {
    var j :| j in m && SumValues(m) == m[j] + SumValues(m - {j});
    if j != k {
      assert |(m - {j}).Keys| < |m.Keys| by {
        assert (m - {j}).Keys == m.Keys - {j};
      }
      assert |(m - {k}).Keys| < |m.Keys| by {
        assert (m - {k}).Keys == m.Keys - {k};
      }
      SumValuesRemove(m - {j}, k);
      SumValuesRemove(m - {k}, j);
      assert m - {j} - {k} == m - {k} - {j};
    }
  }

  /** The city buckets partition the rides `s`: a bucket holds each ride of its city
    * as often as `s` does and no other ride, no bucket is empty, and every ride's city
    * has a bucket. */
  ghost predicate CityIndexed(buckets: map<string, seq<Ride>>, s: seq<Ride>)
  {
    && (forall c, x {:trigger multiset(buckets[c])[x]} :: c in buckets ==> multiset(buckets[c])[x] == if x.city == c then multiset(s)[x] else 0)
    && (forall c :: c in buckets ==> buckets[c] != [])
    && (forall x {:trigger x in s} :: x in s ==> x.city in buckets)
  }

  /** A ride is in a city's bucket exactly when it was registered and is in that city. */
  lemma RideInOwnBucket(buckets: map<string, seq<Ride>>, s: seq<Ride>, x: Ride, city: string)
    requires CityIndexed(buckets, s) && city in buckets
    ensures x in buckets[city] <==> x in s && x.city == city
  {
    assert x in buckets[city] <==> multiset(buckets[city])[x] > 0;
    assert x in s <==> multiset(s)[x] > 0;
  }

  /** A city's bucket is a permutation of the rides of that city. */
  lemma BucketHoldsCity(buckets: map<string, seq<Ride>>, s: seq<Ride>, c: string)
    requires CityIndexed(buckets, s) && c in buckets
    ensures |buckets[c]| == |CityRides(s, c)|
  {
    forall x ensures multiset(buckets[c])[x] == multiset(CityRides(s, c))[x] {
      CityRidesCount(s, c, x);
    }
    assert multiset(buckets[c]) == multiset(CityRides(s, c));
    assert |multiset(buckets[c])| == |multiset(CityRides(s, c))|;
  }

  /** The buckets of the other cities hold the rides outside `c` as often as `s`. */
  lemma OtherBucketsCount(buckets: map<string, seq<Ride>>, s: seq<Ride>, c: string)
    requires CityIndexed(buckets, s)
    ensures forall d, x :: d in buckets - {c} ==>
      multiset((buckets - {c})[d])[x] == if x.city == d then multiset(OtherCityRides(s, c))[x] else 0
  {
    forall d, x: Ride | d in buckets - {c}
      ensures multiset((buckets - {c})[d])[x] == if x.city == d then multiset(OtherCityRides(s, c))[x] else 0
    {
      OtherCityRidesCount(s, c, x);
    }
  }

  /** Every ride outside `c` has a bucket other than `c`'s. */
  lemma OtherRidesCovered(buckets: map<string, seq<Ride>>, s: seq<Ride>, c: string)
    requires CityIndexed(buckets, s)
    ensures forall x {:trigger x in OtherCityRides(s, c)} :: x in OtherCityRides(s, c) ==> x.city in buckets - {c}
  {
    forall x | x in OtherCityRides(s, c) ensures x.city in buckets - {c} {
      OtherCityRidesCount(s, c, x);
      assert x in s;
    }
  }

  /** Taking one city's bucket out of a partition leaves a partition of the rides
    * outside that city, and the bucket holds all the other rides. */
  lemma WithoutCity(buckets: map<string, seq<Ride>>, s: seq<Ride>, c: string)
    requires CityIndexed(buckets, s) && c in buckets
    ensures CityIndexed(buckets - {c}, OtherCityRides(s, c))
    ensures |buckets[c]| + |OtherCityRides(s, c)| == |s|
  {
    OtherBucketsCount(buckets, s, c);
    OtherRidesCovered(buckets, s, c);
    BucketHoldsCity(buckets, s, c);
    CitySplitSizes(s, c);
  }

  lemma FirstRideHasBucket(buckets: map<string, seq<Ride>>, s: seq<Ride>)
    requires CityIndexed(buckets, s)
    ensures s == [] || s[0].city in buckets
  {
    if s != [] {
      assert s[0] in s;
    }
  }

  /** The bucket sizes of a partition add up to the number of rides. */
  lemma {:induction false} BucketSizesAddUp(buckets: map<string, seq<Ride>>, s: seq<Ride>)
    requires CityIndexed(buckets, s)
    ensures SumValues(Sizes(buckets)) == |s|
    decreases |buckets|
  {
    if buckets == map[] {
      assert Sizes(buckets) == map[];
      FirstRideHasBucket(buckets, s);
    } else {
      var c :| c in buckets;
      WithoutCity(buckets, s, c);
      assert |buckets - {c}| < |buckets| by {
        assert (buckets - {c}).Keys == buckets.Keys - {c};
      }
      BucketSizesAddUp(buckets - {c}, OtherCityRides(s, c));
      SumValuesRemove(Sizes(buckets), c);
      assert Sizes(buckets) - {c} == Sizes(buckets - {c});
    }
  }

  /** Registering a ride and appending it to its own city's bucket keeps the partition. */
  lemma CityIndexedAfterRide(buckets: map<string, seq<Ride>>, s: seq<Ride>, x: Ride)
    requires CityIndexed(buckets, s)
    ensures CityIndexed(buckets[x.city := BucketOf(buckets, x.city) + [x]], s + [x])
  {
    var after := buckets[x.city := BucketOf(buckets, x.city) + [x]];
    forall c, y: Ride | c in after
      ensures multiset(after[c])[y] == if y.city == c then multiset(s + [x])[y] else 0
    {
      if c == x.city {
        assert multiset(after[c]) == multiset(BucketOf(buckets, c)) + multiset{x};
        if c !in buckets && y.city == c {
          assert y !in s;
        }
      } else {
        assert after[c] == buckets[c];
      }
    }
    forall y | y in s + [x] ensures y.city in after {
      if y != x {
        assert y in s;
      }
    }
  }

  /** Sorting the rides and every bucket, each into a permutation of itself, keeps the
    * partition. */
  lemma CityIndexedAfterSort(buckets: map<string, seq<Ride>>, s: seq<Ride>, sorted: map<string, seq<Ride>>, t: seq<Ride>)
    requires CityIndexed(buckets, s)
    requires multiset(t) == multiset(s)
    requires sorted.Keys == buckets.Keys
    requires forall c :: c in sorted ==> multiset(sorted[c]) == multiset(buckets[c])
    ensures CityIndexed(sorted, t)
  {
    forall y | y in t ensures y.city in sorted {
      assert multiset(t)[y] > 0;
      assert y in s;
    }
  }

  /** While rides are registered every city's statistics agree with the rides. */
  ghost predicate Accumulated(cities: map<string, CityDrivers>, s: seq<Ride>)
  {
    forall c :: c in cities ==> cities[c].Accumulating? && StatsMatch(cities[c].stats, s, c)
  }

  /** Adding a ride's driver score to its city's statistics (created if absent) keeps
    * every city's statistics in step with the rides. */
  lemma AccumulatedAfterRide(cities: map<string, CityDrivers>, s: seq<Ride>, x: Ride, name: string)
    requires Accumulated(cities, s)
    requires x.city !in cities ==> forall y {:trigger y in s} :: y in s ==> y.city != x.city
    ensures Accumulated(cities[x.city := Accumulating(AddScore(StatsOf(cities, x.city), x.driverId, name, x.scoreDriver))], s + [x])
  {
    var after := cities[x.city := Accumulating(AddScore(StatsOf(cities, x.city), x.driverId, name, x.scoreDriver))];
    forall c | c in after ensures after[c].Accumulating? && StatsMatch(after[c].stats, s + [x], c) {
      if c == x.city {
        if c !in cities {
          assert StatsMatch(map[], s, c);
        }
        StatsMatchAfterRide(StatsOf(cities, c), s, x, name);
      } else {
        StatsMatchOtherCity(cities[c].stats, s, x, c);
      }
    }
  }

  /** After finalize every city holds a ranking, best first, of drivers with rides. */
  ghost predicate CitiesRanked(cities: map<string, CityDrivers>)
  {
    forall c :: c in cities ==>
      && cities[c].Ranked?
      && SortedBy(cities[c].ranking, StatRankLe)
      && (forall x {:trigger x in cities[c].ranking} :: x in cities[c].ranking ==> x.rides > 0)
  }
}
