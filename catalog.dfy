/**
 * The Catalog (catalog.c): the entity store, the city index, the driver-city
 * aggregator, the finalize step and the queries that run on the finalized data.
 *
 * The source keeps pointers; here the users and drivers arrays hold the records in
 * registration order and the two key tables map a key to a position in them (a
 * handle). Rides never change after registration, so the city buckets hold them by
 * value. The phase the source leaves to its callers is the field `finalized`.
 */
module CatalogStore {
  import opened Entities
  import opened Sorting
  import opened Orders
  import opened RangeQueries
  import opened CatalogIndex

  /** Converts one city's statistics map into an array of its entries, each once
    * (what alter_hash_to_gptr_array is for). */
  method StatsToSeq(stats: map<int, DriverCityStat>) returns (s: seq<DriverCityStat>)
    requires forall id :: id in stats ==> stats[id].id == id
    ensures ListsStats(s, stats)
  {
    s := [];
    var remaining := stats;
    while remaining != map[]
      invariant remaining.Keys <= stats.Keys
      invariant forall id :: id in remaining ==> remaining[id] == stats[id]
      invariant forall id :: id in stats && id !in remaining ==> stats[id] in s
      invariant forall x {:trigger x in s} :: x in s ==> x.id in stats && x.id !in remaining && stats[x.id] == x
      invariant forall x :: multiset(s)[x] <= 1
      decreases |remaining|
    {
      var entry :| entry in remaining.Items;
      var id := entry.0;
      assert stats[id] !in s;
      s := s + [remaining[id]];
      remaining := remaining - {id};
    }
  }

  /** One city's ranking: its statistics, each once, best average first and, on a
    * tie, highest driver id first. */
  method RankCity(stats: map<int, DriverCityStat>) returns (ranking: seq<DriverCityStat>)
    requires forall id :: id in stats ==> stats[id].id == id && stats[id].rides > 0
    ensures ListsStats(ranking, stats)
    ensures SortedBy(ranking, StatRankLe)
    ensures forall x {:trigger x in ranking} :: x in ranking ==> x.rides > 0
  {
    var listed := StatsToSeq(stats);
    OrdersAreTotalPreorders();
    ranking := Sort(listed, StatRankLe);
    forall x ensures x in ranking <==> x in listed {
      assert x in ranking <==> multiset(ranking)[x] > 0;
      assert x in listed <==> multiset(listed)[x] > 0;
    }
  }

  /** The rides of one city's bucket within a date range are the registered rides of
    * that city within the range, each as often. */
  lemma CityRangeCounts(buckets: map<string, seq<Ride>>, s: seq<Ride>, city: string, start: Date, end: Date)
    requires CityIndexed(buckets, s) && city in buckets
    ensures forall x {:trigger multiset(InDateRange(buckets[city], start, end))[x]} :: multiset(InDateRange(buckets[city], start, end))[x]
                     == if x.city == city && start <= x.date <= end then multiset(s)[x] else 0
  {
    InDateRangeCounts(buckets[city], start, end);
    forall x ensures multiset(InDateRange(buckets[city], start, end))[x]
                  == if x.city == city && start <= x.date <= end then multiset(s)[x] else 0
    {
      assert multiset(buckets[city])[x] == if x.city == city then multiset(s)[x] else 0;
    }
  }

  /** Every ride of `s` names a registered driver and a registered user. */
  ghost predicate RidesRegistered(s: seq<Ride>, driverIds: set<int>, usernames: set<string>)
  {
    forall x {:trigger x in s} :: x in s ==> x.driverId in driverIds && x.username in usernames
  }

  lemma RidesRegisteredAfterRide(s: seq<Ride>, x: Ride, driverIds: set<int>, usernames: set<string>)
    requires RidesRegistered(s, driverIds, usernames)
    requires x.driverId in driverIds && x.username in usernames
    ensures RidesRegistered(s + [x], driverIds, usernames)
  {
    forall y | y in s + [x] ensures y.driverId in driverIds && y.username in usernames {
      if y != x {
        assert y in s;
      }
    }
  }

  lemma RidesRegisteredAfterSort(s: seq<Ride>, t: seq<Ride>, driverIds: set<int>, usernames: set<string>)
    requires RidesRegistered(s, driverIds, usernames)
    requires multiset(t) == multiset(s)
    ensures RidesRegistered(t, driverIds, usernames)
  {
    SameMembers(t, s);
  }

  class Catalog {
    /** compute_price (price_util.h): the price of a ride from its distance and the
      * driver's car class, supplied from outside the catalog. */
    const priceOf: (int, CarClass) -> int

    var users: seq<User>
    var userByName: map<string, nat>
    var drivers: seq<Driver>
    var driverById: map<int, nat>
    var rides: seq<Ride>
    var ridesInCity: map<string, seq<Ride>>
    var driversInCity: map<string, CityDrivers>
    var finalized: bool
    /** users_array and drivers_array as finalize leaves them, sorted. */
    var userRanking: seq<User>
    var driverRanking: seq<Driver>

    /** Every key maps to a stored record with that key. */
    ghost predicate StoreValid()
      reads this`users, this`userByName, this`drivers, this`driverById
    {
      && (forall name :: name in userByName ==> userByName[name] < |users| && users[userByName[name]].username == name)
      && (forall id :: id in driverById ==> driverById[id] < |drivers| && drivers[driverById[id]].id == id)
    }

    /** Every registered ride references a registered driver and user. */
    ghost predicate RidesValid()
      reads this`rides, this`driverById, this`userByName
    {
      RidesRegistered(rides, driverById.Keys, userByName.Keys)
    }

    ghost predicate CityIndexValid()
      reads this`ridesInCity, this`rides
    {
      CityIndexed(ridesInCity, rides)
    }

    /** One statistics entry per city with rides: in step with the rides while they
      * are registered, ranked after finalize. */
    ghost predicate AggregatorValid()
      reads this`driversInCity, this`ridesInCity, this`rides, this`finalized
    {
      && driversInCity.Keys == ridesInCity.Keys
      && (!finalized ==> Accumulated(driversInCity, rides))
      && (finalized ==> CitiesRanked(driversInCity))
    }

    /** After finalize every array the range and top-N queries read is sorted. */
    ghost predicate RankingValid()
      reads this`finalized, this`rides, this`ridesInCity, this`users, this`userRanking, this`drivers, this`driverRanking
    {
      finalized ==>
        && SortedBy(rides, RideDateLe)
        && (forall c :: c in ridesInCity ==> SortedBy(ridesInCity[c], RideDateLe))
        && SortedBy(userRanking, UserDistanceLe) && multiset(userRanking) == multiset(users)
        && SortedBy(driverRanking, DriverRankLe) && multiset(driverRanking) == multiset(drivers)
    }

    ghost predicate Valid()
      reads this
    {
      StoreValid() && RidesValid() && CityIndexValid() && AggregatorValid() && RankingValid()
    }

    /** create_catalog */
    constructor (priceOf: (int, CarClass) -> int)
      ensures Valid() && !finalized
      ensures this.priceOf == priceOf
      ensures users == [] && userByName == map[] && drivers == [] && driverById == map[]
      ensures rides == [] && ridesInCity == map[] && driversInCity == map[]
    {
      this.priceOf := priceOf;
      users, userByName := [], map[];
      drivers, driverById := [], map[];
      rides, ridesInCity, driversInCity := [], map[], map[];
      finalized := false;
      userRanking, driverRanking := [], [];
    }

    /** catalog_get_user: the record registered last under `username`, if any. */
    function GetUser(username: string): (r: Option<User>)
      reads this`users, this`userByName, this`drivers, this`driverById
      requires StoreValid()
      ensures r.Some? <==> username in userByName
      ensures r.Some? ==> r.value.username == username && r.value in users
    {
      if username in userByName then Some(users[userByName[username]]) else None
    }

    /** catalog_get_driver: the record registered last under `id`, if any. */
    function GetDriver(id: int): (r: Option<Driver>)
      reads this`users, this`userByName, this`drivers, this`driverById
      requires StoreValid()
      ensures r.Some? <==> id in driverById
      ensures r.Some? ==> r.value.id == id && r.value in drivers
    {
      if id in driverById then Some(drivers[driverById[id]]) else None
    }

    /** register_user: appends the user and points its username at it; a username
      * registered before now finds the new record, the old one stays in the array. */
    method RegisterUser(user: User)
      requires Valid() && !finalized
      modifies this`users, this`userByName
      ensures Valid() && !finalized
      ensures users == old(users) + [user]
      ensures userByName == old(userByName)[user.username := |old(users)|]
      ensures GetUser(user.username) == Some(user)
      ensures forall name :: name != user.username ==> GetUser(name) == old(GetUser(name))
    {
      userByName := userByName[user.username := |users|];
      users := users + [user];
    }

    /** register_driver: appends the driver and points its id at it. */
    method RegisterDriver(driver: Driver)
      requires Valid() && !finalized
      modifies this`drivers, this`driverById
      ensures Valid() && !finalized
      ensures drivers == old(drivers) + [driver]
      ensures driverById == old(driverById)[driver.id := |old(drivers)|]
      ensures GetDriver(driver.id) == Some(driver)
      ensures forall id :: id != driver.id ==> GetDriver(id) == old(GetDriver(id))
    {
      driverById := driverById[driver.id := |drivers|];
      drivers := drivers + [driver];
    }

    /** catalog_ride_index_city: appends the ride to its city's bucket, creating the
      * bucket on first use; every other bucket is unchanged. */
    method IndexRideCity(ride: Ride)
      modifies this`ridesInCity
      ensures ridesInCity == old(ridesInCity)[ride.city := BucketOf(old(ridesInCity), ride.city) + [ride]]
      ensures ride.city in ridesInCity && ridesInCity[ride.city][|ridesInCity[ride.city]| - 1] == ride
      ensures forall c :: c != ride.city ==> BucketOf(ridesInCity, c) == BucketOf(old(ridesInCity), c)
    {
      var bucket: seq<Ride>;
      if ride.city in ridesInCity {
        bucket := ridesInCity[ride.city];
      } else {
        bucket := [];
      }
      ridesInCity := ridesInCity[ride.city := bucket + [ride]];
    }

    /** insert_new_driver_city: a fresh entry with score 0, no rides, the driver's id
      * and a copy of the driver's current name. */
    method InsertNewDriverCity(driverId: int, stats: map<int, DriverCityStat>) returns (updated: map<int, DriverCityStat>)
      requires StoreValid() && driverId in driverById
      ensures updated.Keys == stats.Keys + {driverId}
      ensures updated[driverId] == DriverCityStat(driverId, drivers[driverById[driverId]].name, 0, 0)
      ensures forall id :: id in stats && id != driverId ==> updated[id] == stats[id]
    {
      var driver := GetDriver(driverId);
      updated := stats[driverId := DriverCityStat(driverId, driver.value.name, 0, 0)];
    }

    /** add_score_to_driver_city: creates the entry on first use, then adds the score
      * and counts the ride. */
    method AddScoreToDriverCity(score: int, driverId: int, stats: map<int, DriverCityStat>)
      returns (updated: map<int, DriverCityStat>)
      requires StoreValid() && driverId in driverById
      ensures updated == AddScore(stats, driverId, drivers[driverById[driverId]].name, score)
      ensures updated[driverId].rides == (if driverId in stats then stats[driverId].rides else 0) + 1
      ensures updated[driverId].score == (if driverId in stats then stats[driverId].score else 0) + score
      ensures forall id :: id != driverId ==> (id in updated <==> id in stats)
      ensures forall id :: id in stats && id != driverId ==> updated[id] == stats[id]
    {
      updated := stats;
      if driverId !in updated {
        updated := InsertNewDriverCity(driverId, updated);
      }
      var entry := updated[driverId];
      updated := updated[driverId := entry.(score := entry.score + score, rides := entry.rides + 1)];
      assert updated == AddScore(stats, driverId, drivers[driverById[driverId]].name, score);
    }

    /** catalog_add_driver_by_city: the city's statistics map, created on first use,
      * records one more ride of the ride's driver. */
    method AddDriverByCity(ride: Ride, city: string)
      requires StoreValid() && ride.driverId in driverById
      modifies this`driversInCity
      ensures driversInCity == old(driversInCity)[city := Accumulating(
        AddScore(StatsOf(old(driversInCity), city), ride.driverId, drivers[driverById[ride.driverId]].name, ride.scoreDriver))]
    {
      var stats := map[];
      if city in driversInCity && driversInCity[city].Accumulating? {
        stats := driversInCity[city].stats;
      }
      stats := AddScoreToDriverCity(ride.scoreDriver, ride.driverId, stats);
      driversInCity := driversInCity[city := Accumulating(stats)];
    }

    /** The ride with its price set from its distance and its driver's car class. */
    function PricedRide(ride: Ride, driver: Driver): (r: Ride)
      ensures r.price == priceOf(ride.distance, driver.carClass)
      ensures r.(price := ride.price) == ride
    {
      ride.(price := priceOf(ride.distance, driver.carClass))
    }

    /** The bookkeeping register_ride does for the ride array and the two city
      * indexes: the ride is appended to the rides and to its city's bucket, and its
      * driver score is added to the (city, driver) entry. */
    method IndexRide(ride: Ride)
      requires StoreValid() && CityIndexValid() && AggregatorValid() && !finalized
      requires ride.driverId in driverById
      modifies this`rides, this`ridesInCity, this`driversInCity
      ensures CityIndexValid() && AggregatorValid()
      ensures rides == old(rides) + [ride]
      ensures ridesInCity == old(ridesInCity[ride.city := BucketOf(ridesInCity, ride.city) + [ride]])
      ensures driversInCity == old(driversInCity[ride.city := Accumulating(
        AddScore(StatsOf(driversInCity, ride.city), ride.driverId, drivers[driverById[ride.driverId]].name, ride.scoreDriver))])
    {
      ghost var registered := rides;
      FileRide(ride);
      AccumulateRide(ride, registered);
    }

    /** add_driver_by_city for a ride just filed: the city's statistics stay in step
      * with the rides. */
    method AccumulateRide(ride: Ride, ghost registered: seq<Ride>)
      requires StoreValid() && ride.driverId in driverById
      requires rides == registered + [ride]
      requires Accumulated(driversInCity, registered)
      requires ride.city !in driversInCity ==> forall y :: y in registered ==> y.city != ride.city
      modifies this`driversInCity
      ensures Accumulated(driversInCity, rides)
      ensures driversInCity == old(driversInCity[ride.city := Accumulating(
        AddScore(StatsOf(driversInCity, ride.city), ride.driverId, drivers[driverById[ride.driverId]].name, ride.scoreDriver))])
    {
      ghost var cities := driversInCity;
      AddDriverByCity(ride, ride.city);
      AccumulatedAfterRide(cities, registered, ride, drivers[driverById[ride.driverId]].name);
    }

    /** The ride appended to the rides and to its city's bucket. */
    method FileRide(ride: Ride)
      requires CityIndexValid()
      modifies this`rides, this`ridesInCity
      ensures CityIndexValid()
      ensures rides == old(rides) + [ride]
      ensures ridesInCity == old(ridesInCity[ride.city := BucketOf(ridesInCity, ride.city) + [ride]])
    {
      ghost var registered, buckets := rides, ridesInCity;
      rides := rides + [ride];
      IndexRideCity(ride);
      CityIndexedAfterRide(buckets, registered, ride);
    }

    /** register_ride: prices the ride, counts it for its driver and its user, files
      * it under its city and adds its driver score to the (city, driver) entry. */
    method RegisterRide(ride: Ride)
      requires Valid() && !finalized
      requires ride.driverId in driverById && ride.username in userByName
      modifies this`rides, this`drivers, this`users, this`ridesInCity, this`driversInCity
      ensures Valid() && !finalized
      ensures rides == old(rides) + [PricedRide(ride, old(drivers[driverById[ride.driverId]]))]
      ensures drivers == old(drivers[driverById[ride.driverId] :=
        DriverAfterRide(drivers[driverById[ride.driverId]], PricedRide(ride, drivers[driverById[ride.driverId]]))])
      ensures users == old(users[userByName[ride.username] :=
        UserAfterRide(users[userByName[ride.username]], PricedRide(ride, drivers[driverById[ride.driverId]]))])
      ensures ridesInCity == old(ridesInCity[ride.city := BucketOf(ridesInCity, ride.city) + [PricedRide(ride, drivers[driverById[ride.driverId]])]])
      ensures driversInCity == old(driversInCity[ride.city := Accumulating(
        AddScore(StatsOf(driversInCity, ride.city), ride.driverId, drivers[driverById[ride.driverId]].name, ride.scoreDriver))])
    {
      ghost var registered := rides;
      var priced := PricedRide(ride, drivers[driverById[ride.driverId]]);
      CreditRide(priced);
      assert drivers[driverById[ride.driverId]].name == old(drivers[driverById[ride.driverId]].name);
      IndexRide(priced);
      assert driverById == old(driverById) && userByName == old(userByName);
      RidesRegisteredAfterRide(registered, priced, driverById.Keys, userByName.Keys);
    }

    /** The record updates of register_ride: the ride counts for its driver and for its
      * user, and every key still finds its record. */
    method CreditRide(ride: Ride)
      requires StoreValid()
      requires ride.driverId in driverById && ride.username in userByName
      modifies this`drivers, this`users
      ensures StoreValid()
      ensures drivers == old(drivers[driverById[ride.driverId] := DriverAfterRide(drivers[driverById[ride.driverId]], ride)])
      ensures users == old(users[userByName[ride.username] := UserAfterRide(users[userByName[ride.username]], ride)])
    {
      var driverHandle := driverById[ride.driverId];
      drivers := drivers[driverHandle := DriverAfterRide(drivers[driverHandle], ride)];
      var userHandle := userByName[ride.username];
      users := users[userHandle := UserAfterRide(users[userHandle], ride)];
    }

    /** The first pass of notify_stop_registering: every city's statistics map is
      * replaced by its entries, each once, ranked best first. */
    method RankCities()
      requires AggregatorValid() && !finalized
      modifies this`driversInCity
      ensures driversInCity.Keys == old(driversInCity).Keys
      ensures RankedFromRides(driversInCity, old(driversInCity), rides)
      ensures CitiesRanked(driversInCity)
    {
      var accumulating := driversInCity;
      var cities := accumulating.Keys;
      var converted: map<string, CityDrivers> := map[];
      while cities != {}
        invariant cities <= accumulating.Keys
        invariant converted.Keys == accumulating.Keys - cities
        invariant forall c :: c in converted ==>
          && RankedFrom(converted[c], accumulating[c])
          && SortedBy(converted[c].ranking, StatRankLe)
          && forall x {:trigger x in converted[c].ranking} :: x in converted[c].ranking ==> x.rides > 0
        decreases cities
      {
        var c :| c in cities;
        var ranking := RankCity(accumulating[c].stats);
        converted := converted[c := Ranked(ranking)];
        cities := cities - {c};
      }
      driversInCity := converted;
    }

    /** The last pass of notify_stop_registering: every city's bucket sorted by date. */
    method SortBuckets()
      requires CityIndexValid()
      modifies this`ridesInCity
      ensures CityIndexValid()
      ensures ridesInCity.Keys == old(ridesInCity).Keys
      ensures forall c :: c in ridesInCity ==>
        SortedBy(ridesInCity[c], RideDateLe) && multiset(ridesInCity[c]) == multiset(old(ridesInCity)[c])
    {
      OrdersAreTotalPreorders();
      var buckets := ridesInCity;
      var cities := buckets.Keys;
      var sorted: map<string, seq<Ride>> := map[];
      while cities != {}
        invariant cities <= buckets.Keys
        invariant sorted.Keys == buckets.Keys - cities
        invariant forall c :: c in sorted ==>
          SortedBy(sorted[c], RideDateLe) && multiset(sorted[c]) == multiset(buckets[c])
        decreases cities
      {
        var c :| c in cities;
        var bucket := Sort(buckets[c], RideDateLe);
        sorted := sorted[c := bucket];
        cities := cities - {c};
      }
      ridesInCity := sorted;
      CityIndexedAfterSort(buckets, rides, sorted, rides);
    }

    /** The middle pass of notify_stop_registering: drivers by average score, users by
      * total distance and rides by date, each a permutation of what it was. */
    method SortArrays()
      requires CityIndexValid() && RidesValid()
      modifies this`driverRanking, this`userRanking, this`rides
      ensures CityIndexValid() && RidesValid()
      ensures SortedBy(driverRanking, DriverRankLe) && multiset(driverRanking) == multiset(drivers)
      ensures SortedBy(userRanking, UserDistanceLe) && multiset(userRanking) == multiset(users)
      ensures SortedBy(rides, RideDateLe) && multiset(rides) == multiset(old(rides))
    {
      OrdersAreTotalPreorders();
      driverRanking := Sort(drivers, DriverRankLe);
      userRanking := Sort(users, UserDistanceLe);
      ghost var registered := rides;
      rides := Sort(rides, RideDateLe);
      CityIndexedAfterSort(ridesInCity, registered, ridesInCity, rides);
      RidesRegisteredAfterSort(registered, rides, driverById.Keys, userByName.Keys);
    }

    /** notify_stop_registering: turns every city's statistics into its ranking,
      * sorts drivers by score, users by distance, rides and every bucket by date. */
    method NotifyStopRegistering()
      requires StoreValid() && RidesValid() && CityIndexValid() && AggregatorValid() && !finalized
      modifies this`driversInCity, this`driverRanking, this`userRanking, this`rides, this`ridesInCity, this`finalized
      ensures Valid() && finalized
      ensures multiset(rides) == multiset(old(rides))
      ensures ridesInCity.Keys == old(ridesInCity).Keys
      ensures driversInCity.Keys == old(driversInCity).Keys
      ensures RankedFromRides(driversInCity, old(driversInCity), old(rides))
    {
      RankCities();
      ghost var ranked := driversInCity;
      assert RankedFromRides(ranked, old(driversInCity), old(rides));
      SortArrays();
      SortBuckets();
      finalized := true;
      assert driversInCity == ranked;
    }

    /** catalog_get_top_drivers_with_best_score: reports min(n, number of drivers)
      * and appends the first that many drivers of the ranking to `acc`; each one
      * ranks at least as high as every driver left out. */
    method TopDriversWithBestScore(n: int, acc: seq<Driver>) returns (length: int, result: seq<Driver>)
      requires RankingValid() && finalized
      ensures length == Min(n, |drivers|)
      ensures result == acc + driverRanking[..Clip(n, |driverRanking|)]
      ensures forall d, e :: d in result[|acc|..] && e in drivers && e !in result[|acc|..] ==> DriverRankLe(d, e)
    {
      assert |driverRanking| == |multiset(driverRanking)| == |drivers|;
      length := Min(n, |driverRanking|);
      result := acc;
      var i := 0;
      while i < length
        invariant 0 <= i <= Clip(n, |driverRanking|)
        invariant result == acc + driverRanking[..i]
      {
        result := result + [driverRanking[i]];
        i := i + 1;
      }
      assert result[|acc|..] == driverRanking[..i];
      forall d, e | d in result[|acc|..] && e in drivers && e !in result[|acc|..] ensures DriverRankLe(d, e) {
        assert multiset(drivers)[e] > 0;
        PrefixRanksFirst(driverRanking, i, DriverRankLe, d, e);
      }
    }

    /** catalog_get_top_users_with_longest_total_distance, with the copy bounded by
      * the reported length: the first min(n, number of users) users of the ranking,
      * each with at least the distance of every user left out. */
    method TopUsersWithLongestDistance(n: int, acc: seq<User>) returns (length: int, result: seq<User>)
      requires RankingValid() && finalized
      ensures length == Min(n, |users|)
      ensures result == acc + userRanking[..Clip(n, |userRanking|)]
      ensures forall u, v :: u in result[|acc|..] && v in users && v !in result[|acc|..] ==> u.distance >= v.distance
    {
      assert |userRanking| == |multiset(userRanking)| == |users|;
      length := Min(n, |userRanking|);
      result := acc;
      var i := 0;
      while i < length
        invariant 0 <= i <= Clip(n, |userRanking|)
        invariant result == acc + userRanking[..i]
      {
        result := result + [userRanking[i]];
        i := i + 1;
      }
      assert result[|acc|..] == userRanking[..i];
      forall u, v | u in result[|acc|..] && v in users && v !in result[|acc|..] ensures u.distance >= v.distance {
        assert multiset(users)[v] > 0;
        PrefixRanksFirst(userRanking, i, UserDistanceLe, u, v);
      }
    }

    /** catalog_get_average_price_in_city: 0 for a city without rides, otherwise the
      * mean price of the city's rides. */
    method AveragePriceInCity(city: string) returns (avg: real)
      requires CityIndexValid()
      ensures city !in ridesInCity ==> avg == 0.0
      ensures city in ridesInCity ==> avg * |ridesInCity[city]| as real == Total(ridesInCity[city], Price) as real
    {
      if city !in ridesInCity {
        return 0.0;
      }
      var bucket := ridesInCity[city];
      var total := SumMeasure(bucket, Price);
      assert bucket != [];
      avg := Mean(total, |bucket|);
    }

    /** catalog_get_average_price_in_date_range: the mean price of the rides dated
      * within [start, end], 0 when there are none, in particular when start > end. */
    method AveragePriceInDateRange(start: Date, end: Date) returns (avg: real)
      requires RankingValid() && finalized
      ensures var r := InDateRange(rides, start, end); avg == Mean(Total(r, Price), |r|)
      ensures start > end ==> avg == 0.0
    {
      var total, count := ScanDateRange(rides, start, end, Price);
      avg := if count != 0 then total as real / count as real else 0.0;
      if start > end {
        EmptyRangeMatchesNothing(rides, start, end);
      }
    }

    /** catalog_get_average_distance_in_city_by_date: 0 for an unknown city or an
      * empty range, otherwise the mean distance of the city's rides within the range. */
    method AverageDistanceInCityByDate(start: Date, end: Date, city: string) returns (avg: real)
      requires RankingValid() && finalized
      ensures city !in ridesInCity ==> avg == 0.0
      ensures city in ridesInCity ==>
        var r := InDateRange(ridesInCity[city], start, end); avg == Mean(Total(r, Distance), |r|)
      ensures start > end ==> avg == 0.0
    {
      if city !in ridesInCity {
        return 0.0;
      }
      var total, count := ScanDateRange(ridesInCity[city], start, end, Distance);
      avg := if count != 0 then total as real / count as real else 0.0;
      if start > end {
        EmptyRangeMatchesNothing(ridesInCity[city], start, end);
      }
    }

    /** catalog_insert_passengers_that_gave_tip_in_date_range: appends the rides dated
      * within [start, end] that have a tip, then sorts the whole result by distance,
      * longest first. */
    method PassengersThatGaveTip(acc: seq<Ride>, start: Date, end: Date) returns (result: seq<Ride>)
      requires RankingValid() && finalized
      ensures SortedBy(result, RideDistanceLe)
      ensures multiset(result) == multiset(acc) + multiset(Tipped(InDateRange(rides, start, end)))
      ensures forall x {:trigger x in result} :: x in result <==> x in acc || (x in rides && start <= x.date <= end && x.tip > 0)
    {
      var collected := CollectTippedInRange(rides, acc, start, end);
      OrdersAreTotalPreorders();
      result := Sort(collected, RideDistanceLe);
      var r := InDateRange(rides, start, end);
      InDateRangeCounts(rides, start, end);
      TippedCounts(r);
      forall x ensures x in result <==> x in acc || (x in rides && start <= x.date <= end && x.tip > 0) {
        assert x in result <==> multiset(result)[x] > 0;
        assert x in acc <==> multiset(acc)[x] > 0;
        assert x in rides <==> multiset(rides)[x] > 0;
      }
    }

    /** catalog_get_top_n_drivers_in_city, reading the city's ranking and bounded by
      * its length: the first n drivers of the ranking (none for n <= 0, all of them
      * when there are fewer), each ranked at least as high as every one left out. */
    method TopDriversInCity(n: int, city: string, acc: seq<DriverCityStat>) returns (result: seq<DriverCityStat>)
      requires AggregatorValid() && finalized
      ensures city !in driversInCity ==> result == acc
      ensures city in driversInCity ==>
        var ranking := driversInCity[city].ranking;
        && result == acc + ranking[..Clip(n, |ranking|)]
        && forall d, e :: d in result[|acc|..] && e in ranking && e !in result[|acc|..] ==> StatRankLe(d, e)
    {
      if city !in driversInCity {
        return acc;
      }
      var ranking := driversInCity[city].ranking;
      var length := Clip(n, |ranking|);
      result := acc;
      for i := 0 to length
        invariant result == acc + ranking[..i]
      {
        result := result + [ranking[i]];
      }
      assert result[|acc|..] == ranking[..length];
      forall d, e | d in result[|acc|..] && e in ranking && e !in result[|acc|..] ensures StatRankLe(d, e) {
        PrefixRanksFirst(ranking, length, StatRankLe, d, e);
      }
    }
  }
}
