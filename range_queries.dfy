/**
 * The range-query engine: a binary-search date lower bound and the forward scans
 * built on it, over a date-sorted sequence of rides (the global ride array or one
 * city's bucket after finalize).
 */
module RangeQueries {
  import opened Entities
  import opened Sorting
  import opened Orders

  /** The rides of `s` dated within [start, end], in their order in `s`. */
  function InDateRange(s: seq<Ride>, start: Date, end: Date): seq<Ride>
  {
    if s == [] then []
    else
      var last := s[|s| - 1];
      InDateRange(s[..|s| - 1], start, end) + (if start <= last.date <= end then [last] else [])
  }

  /** Each ride occurs in the range as often as in `s` when its date is within
    * [start, end], and not at all otherwise. */
  lemma {:induction false} InDateRangeCounts(s: seq<Ride>, start: Date, end: Date)
    ensures |InDateRange(s, start, end)| <= |s|
    ensures forall x {:trigger multiset(InDateRange(s, start, end))[x]} :: multiset(InDateRange(s, start, end))[x] == if start <= x.date <= end then multiset(s)[x] else 0
  {
    if s != [] {
      InDateRangeCounts(s[..|s| - 1], start, end);
      assert s == s[..|s| - 1] + [s[|s| - 1]];
    }
  }

  /** The rides of `s` whose tip is positive, in their order in `s`. */
  function Tipped(s: seq<Ride>): seq<Ride>
  {
    if s == [] then []
    else
      var last := s[|s| - 1];
      Tipped(s[..|s| - 1]) + (if last.tip > 0 then [last] else [])
  }

  /** Each ride occurs among the tipped ones as often as in `s` when its tip is
    * positive, and not at all otherwise. */
  lemma {:induction false} TippedCounts(s: seq<Ride>)
    ensures |Tipped(s)| <= |s|
    ensures forall x {:trigger multiset(Tipped(s))[x]} :: multiset(Tipped(s))[x] == if x.tip > 0 then multiset(s)[x] else 0
  {
    if s != [] {
      TippedCounts(s[..|s| - 1]);
      assert s == s[..|s| - 1] + [s[|s| - 1]];
    }
  }

  /** The two quantities the scans add up. */
  datatype Measure = Price | Distance

  function MeasureOf(r: Ride, m: Measure): int
  {
    match m
    case Price => r.price
    case Distance => r.distance
  }

  function Total(s: seq<Ride>, m: Measure): int
  {
    if s == [] then 0 else Total(s[..|s| - 1], m) + MeasureOf(s[|s| - 1], m)
  }

  /** An empty or reversed date range matches nothing. */
  lemma {:induction false} EmptyRangeMatchesNothing(s: seq<Ride>, start: Date, end: Date)
    requires start > end
    ensures InDateRange(s, start, end) == []
  {
    if s != [] {
      EmptyRangeMatchesNothing(s[..|s| - 1], start, end);
    }
  }

  /** A prefix dated wholly before `start` contributes nothing. */
  lemma {:induction false} EarlyPrefixMatchesNothing(s: seq<Ride>, i: nat, start: Date, end: Date)
    requires i <= |s|
    requires forall k :: 0 <= k < i ==> s[k].date < start
    ensures InDateRange(s[..i], start, end) == []
  {
    if i > 0 {
      assert s[..i][..i - 1] == s[..i - 1];
      EarlyPrefixMatchesNothing(s, i - 1, start, end);
    }
  }

  /** A suffix dated wholly after `end` contributes nothing. */
  lemma {:induction false} LateSuffixMatchesNothing(s: seq<Ride>, i: nat, start: Date, end: Date)
    requires i <= |s|
    requires forall k :: i <= k < |s| ==> s[k].date > end
    ensures InDateRange(s, start, end) == InDateRange(s[..i], start, end)
  {
    if i < |s| {
      LateSuffixMatchesNothing(s[..|s| - 1], i, start, end);
      assert s[..|s| - 1][..i] == s[..i];
    } else {
      assert s[..i] == s;
    }
  }

  /** One more element of the scanned prefix, inside the range. */
  lemma InDateRangeStep(s: seq<Ride>, i: nat, start: Date, end: Date)
    requires i < |s| && start <= s[i].date <= end
    ensures InDateRange(s[..i + 1], start, end) == InDateRange(s[..i], start, end) + [s[i]]
  {
    assert s[..i + 1][..i] == s[..i];
  }

  /** In a date-sorted sequence, everything from a ride dated after `end` on is too. */
  lemma LaterRidesAreLater(s: seq<Ride>, i: nat, end: Date)
    requires SortedBy(s, RideDateLe)
    requires i < |s| && s[i].date > end
    ensures forall k :: i <= k < |s| ==> s[k].date > end
  {
    forall k | i <= k < |s| ensures s[k].date > end {
      if k > i { assert RideDateLe(s[i], s[k]); }
    }
  }

  /** ride_array_find_date_lower_bound: the first position whose date is not before
    * `date` (that is, "greater than or equal"), or |s| if there is none. */
  method LowerBound(s: seq<Ride>, date: Date) returns (low: nat)
    requires SortedBy(s, RideDateLe)
    ensures low <= |s|
    ensures forall k :: 0 <= k < low ==> s[k].date < date
    ensures forall k :: low <= k < |s| ==> s[k].date >= date
  {
    low := 0;
    var high := |s|;
    while low < high
      invariant 0 <= low <= high <= |s|
      invariant forall k :: 0 <= k < low ==> s[k].date < date
      invariant forall k :: high <= k < |s| ==> s[k].date >= date
    {
      var mid := low + (high - low) / 2;
      if date <= s[mid].date {
        high := mid;
      } else {
        assert forall k :: 0 <= k < mid ==> RideDateLe(s[k], s[mid]);
        low := mid + 1;
      }
    }
  }

  /** The forward scan of catalog_get_average_price_in_date_range and
    * catalog_get_average_distance_in_city_by_date: from the lower bound of `start`
    * while the date is not after `end`, adding the measure and counting. */
  method ScanDateRange(s: seq<Ride>, start: Date, end: Date, m: Measure) returns (total: int, count: nat)
    requires SortedBy(s, RideDateLe)
    ensures count == |InDateRange(s, start, end)|
    ensures total == Total(InDateRange(s, start, end), m)
  {
    var lower := LowerBound(s, start);
    EarlyPrefixMatchesNothing(s, lower, start, end);
    var i := lower;
    total, count := 0, 0;
    while i < |s| && s[i].date <= end
      invariant lower <= i <= |s|
      invariant count == |InDateRange(s[..i], start, end)|
      invariant total == Total(InDateRange(s[..i], start, end), m)
    {
      InDateRangeStep(s, i, start, end);
      ghost var before := InDateRange(s[..i], start, end);
      assert (before + [s[i]])[..|before|] == before;
      total := total + MeasureOf(s[i], m);
      count := count + 1;
      i := i + 1;
    }
    if i < |s| {
      LaterRidesAreLater(s, i, end);
    }
    LateSuffixMatchesNothing(s, i, start, end);
  }

  /** The loop of catalog_get_average_price_in_city: the measure added up over all of
    * `s`. */
  method SumMeasure(s: seq<Ride>, m: Measure) returns (total: int)
    ensures total == Total(s, m)
  {
    total := 0;
    for i := 0 to |s|
      invariant total == Total(s[..i], m)
    {
      assert s[..i + 1][..i] == s[..i];
      total := total + MeasureOf(s[i], m);
    }
    assert s[..|s|] == s;
  }

  /** The scan of catalog_insert_passengers_that_gave_tip_in_date_range: appends to
    * `acc` the rides of the range with a positive tip, in date order. */
  method CollectTippedInRange(s: seq<Ride>, acc: seq<Ride>, start: Date, end: Date) returns (r: seq<Ride>)
    requires SortedBy(s, RideDateLe)
    ensures r == acc + Tipped(InDateRange(s, start, end))
  {
    var lower := LowerBound(s, start);
    EarlyPrefixMatchesNothing(s, lower, start, end);
    var i := lower;
    r := acc;
    while i < |s|
      invariant lower <= i <= |s|
      invariant r == acc + Tipped(InDateRange(s[..i], start, end))
    {
      if s[i].date > end {
        break;
      }
      InDateRangeStep(s, i, start, end);
      ghost var before := InDateRange(s[..i], start, end);
      assert (before + [s[i]])[..|before|] == before;
      if s[i].tip > 0 {
        r := r + [s[i]];
      }
      i := i + 1;
    }
    if i < |s| {
      LaterRidesAreLater(s, i, end);
    }
    LateSuffixMatchesNothing(s, i, start, end);
  }
}
