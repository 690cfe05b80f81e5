/**
 * The records the catalog stores: users, drivers, rides and the per-city driver
 * statistic. Dates are ordinals (date_compare is a total order on them), money and
 * distances are integers (the source's doubles), averages are exact reals.
 */
module Entities {

  type Date = int

  /** The result of a lookup that can miss. */
  datatype Option<T> = None | Some(value: T)

  datatype Gender = F | M

  datatype AccountStatus = Active | Inactive

  datatype CarClass = Basic | Green | Premium

  /** A user; the four counters are changed only by ride registration. */
  datatype User = User(
    username: string,
    name: string,
    gender: Gender,
    birthdate: Date,
    status: AccountStatus,
    rides: nat,
    score: int,
    spent: int,
    distance: int)

  /** A driver; the three counters are changed only by ride registration. */
  datatype Driver = Driver(
    id: int,
    name: string,
    gender: Gender,
    birthdate: Date,
    carClass: CarClass,
    status: AccountStatus,
    rides: nat,
    score: int,
    earned: int)

  /** A ride; `price` is filled in once, when the ride is registered. */
  datatype Ride = Ride(
    id: int,
    date: Date,
    driverId: int,
    username: string,
    city: string,
    distance: int,
    scoreUser: int,
    scoreDriver: int,
    tip: int,
    price: int)

  /** struct DriverbyCity: one driver's running score and ride count in one city. */
  datatype DriverCityStat = DriverCityStat(id: int, name: string, score: int, rides: nat)

  /** A zero-safe average: the division is guarded, an empty count gives 0. */
  function Mean(total: int, count: nat): (m: real)
    ensures count == 0 ==> m == 0.0
    ensures count > 0 ==> m * count as real == total as real
  {
    if count == 0 then 0.0 else total as real / count as real
  }

  /** driver_by_city_get_average_score: the score per ride of a driver in one city. */
  function StatAverage(s: DriverCityStat): (a: real)
    ensures s.rides > 0 ==> a * s.rides as real == s.score as real
    ensures s.rides == 0 ==> a == 0.0
  {
    Mean(s.score, s.rides)
  }

  /** The average score of a driver (driver_get_average_score). */
  function DriverAverage(d: Driver): real
  {
    Mean(d.score, d.rides)
  }

  /** The average score of a user (user_get_average_score). */
  function UserAverage(u: User): real
  {
    Mean(u.score, u.rides)
  }

  function Min(a: int, b: int): int
  {
    if a < b then a else b
  }

  /** How many of `len` items a request for `n` can return: none for n <= 0, at most
    * `len` otherwise. */
  function Clip(n: int, len: nat): (k: nat)
    ensures k <= len
    ensures n <= 0 ==> k == 0
    ensures n > 0 ==> k <= n && (k == n || k == len)
  {
    if n <= 0 then 0 else if n < len then n else len
  }

  /** The driver's counters after one more ride (the driver mutators register_ride
    * calls): one more ride, the ride's driver score, and the price plus the tip earned. */
  function DriverAfterRide(d: Driver, r: Ride): (e: Driver)
    ensures e.rides == d.rides + 1
    ensures e.score == d.score + r.scoreDriver
    ensures e.earned == d.earned + r.tip + r.price
    ensures e.(rides := d.rides, score := d.score, earned := d.earned) == d
  {
    d.(rides := d.rides + 1, score := d.score + r.scoreDriver, earned := d.earned + (r.tip + r.price))
  }

  /** The user's counters after one more ride (the user mutators register_ride
    * calls): one more ride, the ride's user score, the price plus the tip spent and
    * the ride's distance travelled. */
  function UserAfterRide(u: User, r: Ride): (v: User)
    ensures v.rides == u.rides + 1
    ensures v.score == u.score + r.scoreUser
    ensures v.spent == u.spent + r.tip + r.price
    ensures v.distance == u.distance + r.distance
    ensures v.(rides := u.rides, score := u.score, spent := u.spent, distance := u.distance) == u
  {
    u.(rides := u.rides + 1, score := u.score + r.scoreUser, spent := u.spent + (r.tip + r.price),
       distance := u.distance + r.distance)
  }
}
