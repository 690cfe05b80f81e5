/**
 * The copy loops of three top-N operations as they are written. Each one copies
 * `src[i]` for i = 0, 1, ... while i is below a bound that can exceed the length
 * of `src`, so it reads past the end of the array. CatalogStore and Queries
 * model the bounded versions; the members here show where the written bounds
 * part from them.
 */
module Findings {
  import opened Entities

  /** How a copy loop ends: with the copied items, or with a read at an index
    * past the end of its source. */
  datatype Copy<T> = Copied(items: seq<T>) | ReadsPastEnd(index: nat)

  /** The outcome of `for (i = 0; i < count; i++) add(src[i])`, one iteration
    * at a time; the first read past the end decides it. */
  function CopyOutcome<T>(src: seq<T>, count: int): Copy<T>
    decreases count
  {
    if count <= 0 then Copied([])
    else
      match CopyOutcome(src, count - 1)
      case ReadsPastEnd(i) => ReadsPastEnd(i)
      case Copied(items) =>
        if count - 1 < |src| then Copied(items + [src[count - 1]]) else ReadsPastEnd(count - 1)
  }

  /** A copy loop copies the first `count` items when there are that many, and
    * otherwise first reads at index |src|. */
  lemma {:induction false} CopyOutcomeBound<T>(src: seq<T>, count: int)
    ensures count <= |src| ==> CopyOutcome(src, count) == Copied(src[..Clip(count, |src|)])
    ensures count > |src| ==> CopyOutcome(src, count) == ReadsPastEnd(|src|)
  {
    if count > 0 {
      CopyOutcomeBound(src, count - 1);
      if count <= |src| {
        assert src[..count - 1] + [src[count - 1]] == src[..count];
      }
    }
  }

  /** The copy loop itself. */
  method CopyLoop<T>(src: seq<T>, count: int) returns (r: Copy<T>)
    ensures r == CopyOutcome(src, count)
  {
    r := Copied([]);
    var i := 0;
    while i < count
      invariant 0 <= i <= if count > 0 then count else 0
      invariant r == CopyOutcome(src, i)
    {
      if r.Copied? {
        if i < |src| {
          r := Copied(r.items + [src[i]]);
        } else {
          r := ReadsPastEnd(i);
        }
      }
      i := i + 1;
    }
  }

  /** catalog_get_top_users_with_longest_total_distance as written: it reports
    * min(n, number of users) but copies n users. */
  function TopUsersAsWritten(ranking: seq<User>, n: int): (r: (int, Copy<User>))
    ensures n <= |ranking| ==> r.1 == Copied(ranking[..Clip(n, |ranking|)])
    ensures 0 <= n <= |ranking| ==> r.0 == |r.1.items|
  {
    CopyOutcomeBound(ranking, n);
    (Min(n, |ranking|), CopyOutcome(ranking, n))
  }

  /** Asking for more users than there are reports their number and reads past
    * the end of the ranking. */
  lemma TopUsersAsWrittenOverruns(ranking: seq<User>, n: int)
    requires n > |ranking|
    ensures TopUsersAsWritten(ranking, n) == (|ranking|, ReadsPastEnd(|ranking|))
  {
    CopyOutcomeBound(ranking, n);
  }

  /** `(guint) n`: the conversion the comparison `i < n` applies to a negative n. */
  function AsUnsigned(n: int): (u: nat)
    ensures u < 0x1_0000_0000
    ensures 0 <= n < 0x1_0000_0000 ==> u == n
    ensures -0x8000_0000 <= n < 0 ==> u >= 0x8000_0000
  {
    n % 0x1_0000_0000
  }

  /** catalog_get_top_n_drivers_in_city as written: it looks the city up among
    * the ride buckets and copies entries 0 .. (guint) n - 1 of that bucket. */
  function TopDriversInCityAsWritten(ridesInCity: map<string, seq<Ride>>, city: string, n: int): (r: Copy<Ride>)
    ensures city !in ridesInCity ==> r == Copied([])
    ensures city in ridesInCity && 0 <= n <= |ridesInCity[city]| && n < 0x8000_0000 ==>
      r == Copied(ridesInCity[city][..n])
  {
    if city !in ridesInCity then Copied([])
    else
      CopyOutcomeBound(ridesInCity[city], AsUnsigned(n));
      CopyOutcome(ridesInCity[city], AsUnsigned(n))
  }

  /** Even in range, the entries it returns for a city are the city's rides, not
    * its drivers; a negative n with a bucket shorter than 2^31 reads past the
    * bucket's end, and so does any n above the bucket's length. */
  lemma TopDriversInCityAsWrittenMisreads(ridesInCity: map<string, seq<Ride>>, city: string, n: int)
    requires city in ridesInCity && |ridesInCity[city]| < 0x8000_0000 && -0x8000_0000 <= n < 0x8000_0000
    ensures (n < 0 || n > |ridesInCity[city]|) ==>
      TopDriversInCityAsWritten(ridesInCity, city, n) == ReadsPastEnd(|ridesInCity[city]|)
  {
    CopyOutcomeBound(ridesInCity[city], AsUnsigned(n));
  }

  /** execute_query_top_n_drivers as written: its printing loop runs n times
    * over a result that holds the first min(n, number of drivers) drivers. */
  function TopDriversQueryAsWritten(ranking: seq<Driver>, n: int): (r: Copy<Driver>)
    ensures n <= |ranking| ==> r == Copied(ranking[..Clip(n, |ranking|)])
  {
    CopyOutcomeBound(ranking[..Clip(n, |ranking|)], n);
    CopyOutcome(ranking[..Clip(n, |ranking|)], n)
  }

  /** Asking for more drivers than there are prints past the end of the result. */
  lemma TopDriversQueryAsWrittenOverruns(ranking: seq<Driver>, n: int)
    requires n > |ranking|
    ensures TopDriversQueryAsWritten(ranking, n) == ReadsPastEnd(|ranking|)
  {
    assert ranking[..Clip(n, |ranking|)] == ranking;
    CopyOutcomeBound(ranking, n);
  }

  /** The capacity execute_query_top_n_drivers reserves for its result as
    * written: `n + 100` passed as a guint. */
  function ReservedSlots(n: int): (slots: nat)
    ensures slots < 0x1_0000_0000
    ensures 0 <= n + 100 < 0x1_0000_0000 ==> slots == n + 100
  {
    AsUnsigned(n + 100)
  }

  /** A count below -100 reserves more than two billion slots, far more than any
    * ranking of fewer than 2^31 - 100 drivers needs. */
  lemma ReservedSlotsForNegativeCount(n: int, drivers: nat)
    requires -0x8000_0000 <= n < -100 && drivers < 0x8000_0000 - 100
    ensures ReservedSlots(n) >= 0x8000_0000
    ensures ReservedSlots(n) > IntendedSlots(n, drivers)
  {
  }

  /** The capacity the result evidently needs: room for the drivers the query can
    * return, with the same 100 spare slots. */
  function IntendedSlots(n: int, drivers: nat): (slots: nat)
    ensures Clip(n, drivers) < slots <= drivers + 100
    ensures 0 <= n <= drivers ==> slots == n + 100
  {
    Clip(n, drivers) + 100
  }
}
