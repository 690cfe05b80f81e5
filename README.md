# Catalog of rides, drivers and users — a verified model

This project models the in-memory catalog of a ride-sharing data program and the
query handlers that read it. The catalog stores users and drivers in arrays with
key-to-record lookup tables. It keeps each ride in the array of all rides and in the
bucket of its city, and it accumulates a score and a ride count for every (city,
driver) pair. It has two phases. While rides are registered, each ride is priced
and credited to its driver and its user. A finalize step then ranks drivers and
users, sorts the rides and each city's bucket by date, and turns each city's driver
statistics into a ranking. After that the queries run: a binary-search date lower
bound, averages over date ranges, the rides with a tip, and top-N selections.
The query handlers parse their argument with `strtol`, pick a user or a driver
lookup, print nothing for unknown or inactive records, and skip a top-N query
whose count does not parse.

Modules:

- `Entities` (entities.dfy): the records, the zero-safe average and the counter updates of a ride.
- `Sorting` (sorting.dfy): the promise the catalog relies on from the array sort: sorted and a permutation.
- `Orders` (orders.dfy): the orders used by finalize, and the per-city comparator of the source.
- `RangeQueries` (range_queries.dfy): the lower bound, the date-range scans and the tip filter, each a method proved against a specification function.
- `CatalogIndex` (catalog_index.dfy): the specification of the city buckets and of the driver-city statistics, with the lemmas that registration and finalize keep them.
- `CatalogStore` (catalog.dfy): the `Catalog` class. Its fields are the arrays and tables of the source, and its methods are the operations of catalog.c.
- `Queries` (queries.dfy): `strtol`, the dispatch and the two query handlers, as pure functions from the catalog and the argument to the lines written.
- `Findings` (findings.dfy): three copy loops as written, with lemmas that show them reading past the end of an array, and the capacity reserved for the top-drivers result as written, with the capacity it evidently intends.

The `Catalog` class keeps an explicit `finalized` flag. Registration and finalize require
it to be false. The queries that read the sorted arrays or the city rankings require it to be
true: `TopDriversWithBestScore`, `TopUsersWithLongestDistance`, `AveragePriceInDateRange`,
`AverageDistanceInCityByDate`, `PassengersThatGaveTip` and `TopDriversInCity`, and in
`Queries` the top-drivers handler `TopDriversQuery`. The lookups (`GetUser`, `GetDriver`),
`AveragePriceInCity` and query 1 (`FindUserByName`, `FindDriverById`, `FindUserOrDriver`)
do not, because the tables and buckets they read are kept valid in both phases. The source leaves this phase to caller discipline.

## Model

| member | source | states |
|---|---|---|
| Entities.Mean | trabalho-pratico/src/catalog.c:323-324 | the guarded average: 0 when nothing was counted, otherwise the value whose product with the count is the total |
| Entities.StatAverage | trabalho-pratico/src/catalog.c:40-42 | the average score of a driver in a city: for a driver with rides, the value whose product with the ride count is the accumulated score |
| Entities.Clip | trabalho-pratico/src/catalog.c:235-239 | how many items a request for n can return from len: none for n <= 0, never more than len, and n itself when len allows it |
| Entities.DriverAfterRide | trabalho-pratico/src/catalog.c:203-207 | a ride gives its driver one more ride, adds the ride's driver score, and adds price plus tip to the earnings; every other field is unchanged |
| Entities.UserAfterRide | trabalho-pratico/src/catalog.c:212-216 | a ride gives its user one more ride and adds the user score, price plus tip spent, and the ride's distance; every other field is unchanged |
| Sorting.Sort | trabalho-pratico/src/catalog.c:466-469 | the array sort leaves the array ordered by the comparator and a permutation of what it held |
| Sorting.PrefixRanksFirst | trabalho-pratico/src/catalog.c:233-242 | in a sorted array every element of a prefix may precede every element found only after it |
| Orders.OrdersAreTotalPreorders | trabalho-pratico/src/catalog.c:406-416 | the five orders of finalize and the tip query are total and transitive, as a sort comparator must be |
| Orders.CompareByScore | trabalho-pratico/src/catalog.c:392-397 | the score comparator returns -1, 0 or 1, positive exactly when the first average is higher and negative exactly when it is lower |
| Orders.CompareById | trabalho-pratico/src/catalog.c:399-404 | the id comparator is negative exactly when the first id is smaller and zero exactly when the ids are equal |
| Orders.CompareDriversInCity | trabalho-pratico/src/catalog.c:406-416 | the per-city comparator is negative exactly when the first driver has the higher average, or the same average and the higher id, and zero exactly for the same average and id |
| Orders.CompareDriversInCityIsRanking | trabalho-pratico/src/catalog.c:392-416 | the per-city comparator returns a negative value exactly when the first driver has the higher average, or the same average and a higher id; it returns 0 only for the same average and id; and it is antisymmetric |
| Orders.AverageOrderIsCrossMultiplication | trabalho-pratico/src/catalog.c:392-397 | for drivers with rides, comparing two averages is the same as comparing the cross products of scores and ride counts |
| RangeQueries.LowerBound | trabalho-pratico/src/catalog.c:275-295 | on a date-sorted array the result is at most the length; every ride before it is dated before the target, and every ride from it on is dated at or after the target |
| RangeQueries.ScanDateRange | trabalho-pratico/src/catalog.c:304-321 | the scan from the lower bound counts exactly the rides dated within [start, end] and sums the measure over exactly those rides |
| RangeQueries.SumMeasure | trabalho-pratico/src/catalog.c:264-267 | the loop sums the measure over every ride of the bucket |
| RangeQueries.CollectTippedInRange | trabalho-pratico/src/catalog.c:356-373 | the scan appends to the result, in date order, exactly the rides dated within [start, end] that have a positive tip |
| RangeQueries.InDateRangeCounts | trabalho-pratico/src/catalog.c:310-321 | the rides within a range occur in it as often as in the whole array, and no other ride occurs |
| RangeQueries.TippedCounts | trabalho-pratico/src/catalog.c:368-370 | the tipped rides occur as often as in the input, and untipped rides do not occur |
| RangeQueries.EmptyRangeMatchesNothing | trabalho-pratico/src/catalog.c:302-325 | a range whose start is after its end matches no ride |
| RangeQueries.EarlyPrefixMatchesNothing | trabalho-pratico/src/catalog.c:305 | the rides the lower bound skips lie outside the range |
| RangeQueries.LateSuffixMatchesNothing | trabalho-pratico/src/catalog.c:314-315 | once the scan passes the end date no later ride lies in the range, so stopping there loses nothing |
| RangeQueries.LaterRidesAreLater | trabalho-pratico/src/catalog.c:314-315 | in a date-sorted array every ride after one dated past the end is also dated past the end |
| RangeQueries.InDateRangeStep | trabalho-pratico/src/catalog.c:317-320 | counting one more ride that lies in the range extends the matched rides by exactly that ride |
| CatalogIndex.CitySplitSizes | trabalho-pratico/src/catalog.c:147-160 | splitting the rides by one city loses and duplicates none of them |
| CatalogIndex.CityRidesCount | trabalho-pratico/src/catalog.c:147-160 | a ride occurs among its own city's rides as often as among all rides, and never among another city's |
| CatalogIndex.OtherCityRidesCount | trabalho-pratico/src/catalog.c:147-160 | the rides outside a city keep every other ride as often as the whole array does |
| CatalogIndex.RideInOwnBucket | trabalho-pratico/src/catalog.c:147-160 | a ride is in a city's bucket exactly when it was registered and it belongs to that city |
| CatalogIndex.BucketHoldsCity | trabalho-pratico/src/catalog.c:147-160 | a city's bucket holds as many rides as were registered for that city |
| CatalogIndex.WithoutCity | trabalho-pratico/src/catalog.c:147-160 | taking one city's bucket out of the index leaves an index of the other cities' rides, and the sizes add up |
| CatalogIndex.BucketSizesAddUp | trabalho-pratico/src/catalog.c:196-222 | the sizes of all city buckets add up to the number of registered rides |
| CatalogIndex.CityIndexedAfterRide | trabalho-pratico/src/catalog.c:147-160 | appending a ride to its own city's bucket, which is created if absent, keeps the buckets a partition of the rides |
| CatalogIndex.CityIndexedAfterSort | trabalho-pratico/src/catalog.c:469-473 | sorting the ride array and every bucket, each into a permutation of itself, keeps the partition |
| CatalogIndex.StatsMatchListsDrivers | trabalho-pratico/src/catalog.c:170-179 | a city has a statistics entry for a driver exactly when that driver has a ride in that city |
| CatalogIndex.StatsMatchAfterRide | trabalho-pratico/src/catalog.c:170-179 | adding a ride's driver score to its city's entry keeps the entry equal to that driver's ride count and score sum in the city |
| CatalogIndex.StatsMatchOtherCity | trabalho-pratico/src/catalog.c:182-193 | a ride in another city leaves a city's statistics in step |
| CatalogIndex.AccumulatedAfterRide | trabalho-pratico/src/catalog.c:182-193 | updating the ride's city, and creating its statistics on first use, keeps every city's statistics in step with the rides |
| CatalogStore.StatsToSeq | trabalho-pratico/src/catalog.c:434-446 | a city's statistics table becomes an array that holds each entry exactly once |
| CatalogStore.RankCity | trabalho-pratico/src/catalog.c:418-423 | a city's drivers are listed once each, best average first, higher id first on a tie, and all with rides |
| CatalogStore.CityRangeCounts | trabalho-pratico/src/catalog.c:327-351 | the rides of a city bucket within a date range are the registered rides of that city within the range |
| CatalogStore.RidesRegisteredAfterRide | trabalho-pratico/src/catalog.c:199-216 | a ride whose driver and user are registered keeps every stored ride pointing at registered records |
| CatalogStore.RidesRegisteredAfterSort | trabalho-pratico/src/catalog.c:469 | sorting the rides keeps every stored ride pointing at registered records |
| CatalogStore.Catalog.constructor | trabalho-pratico/src/catalog.c:96-110 | a new catalog is empty, valid and still registering |
| CatalogStore.Catalog.GetUser | trabalho-pratico/src/catalog.c:225-227 | a user is found exactly when the username is registered, and the result is a stored user with that username |
| CatalogStore.Catalog.GetDriver | trabalho-pratico/src/catalog.c:229-231 | a driver is found exactly when the id is registered, and the result is a stored driver with that id |
| CatalogStore.Catalog.RegisterUser | trabalho-pratico/src/catalog.c:125-132 | the user is appended and found under its username from then on; every other username finds what it found before |
| CatalogStore.Catalog.RegisterDriver | trabalho-pratico/src/catalog.c:134-142 | the driver is appended and found under its id from then on; every other id finds what it found before |
| CatalogStore.Catalog.IndexRideCity | trabalho-pratico/src/catalog.c:147-160 | the ride is appended to its city's bucket, which is created if absent, and every other bucket is unchanged |
| CatalogStore.Catalog.InsertNewDriverCity | trabalho-pratico/src/catalog.c:162-168 | the new entry has the driver's id and current name, score 0 and no rides; the other entries are unchanged |
| CatalogStore.Catalog.AddScoreToDriverCity | trabalho-pratico/src/catalog.c:170-179 | the driver's entry, created if absent, gains the score and exactly one ride; the other entries are unchanged |
| CatalogStore.Catalog.AddDriverByCity | trabalho-pratico/src/catalog.c:182-193 | the ride's score is added to its driver's entry in the city's table, which is created on first use |
| CatalogStore.Catalog.PricedRide | trabalho-pratico/src/catalog.c:199-201 | the ride's price is the price of its distance for its driver's car class, and nothing else about the ride changes |
| CatalogStore.Catalog.CreditRide | trabalho-pratico/src/catalog.c:199-217 | the ride's driver and the ride's user get the counter updates of one ride; no other record changes |
| CatalogStore.Catalog.FileRide | trabalho-pratico/src/catalog.c:196-221 | the ride is appended to the ride array and to its city's bucket, and the buckets stay a partition of the rides |
| CatalogStore.Catalog.AccumulateRide | trabalho-pratico/src/catalog.c:222 | the ride's score is added to its city's statistics, and every city's statistics stay in step with the rides |
| CatalogStore.Catalog.IndexRide | trabalho-pratico/src/catalog.c:196-222 | the ride is stored, filed in its city's bucket and counted for its driver in that city, and both indexes stay valid |
| CatalogStore.Catalog.RegisterRide | trabalho-pratico/src/catalog.c:195-223 | the priced ride is stored and filed in its city, its driver and its user get the counters of one ride, its driver's statistics in the city gain its score, and the catalog stays valid |
| CatalogStore.Catalog.RankCities | trabalho-pratico/src/catalog.c:464-474 | every city's statistics table becomes its ranking, best first, listing exactly the drivers and scores the table held, and those statistics agree with the registered rides |
| CatalogStore.Catalog.SortBuckets | trabalho-pratico/src/catalog.c:473 | every city's bucket becomes a date-sorted permutation of itself |
| CatalogStore.Catalog.SortArrays | trabalho-pratico/src/catalog.c:466-469 | drivers are ranked by average score, users by distance, and rides by date, each as a permutation of what was registered |
| CatalogStore.Catalog.NotifyStopRegistering | trabalho-pratico/src/catalog.c:463-475 | finalize leaves the catalog valid and finalized, with the same rides (now sorted by date) and the same cities; each city's ranking lists exactly the drivers and scores of the statistics it replaced, and those statistics counted the registered rides of that city |
| CatalogStore.Catalog.TopDriversWithBestScore | trabalho-pratico/src/catalog.c:233-242 | it returns min(n, number of drivers) and appends that prefix of the ranking; each driver it appends ranks at least as high as every driver it leaves out |
| CatalogStore.Catalog.TopUsersWithLongestDistance | trabalho-pratico/src/catalog.c:244-253 | it returns min(n, number of users) and appends that prefix of the ranking; each appended user has at least the distance of every user left out |
| CatalogStore.Catalog.AveragePriceInCity | trabalho-pratico/src/catalog.c:255-270 | 0 for a city without rides; otherwise the average times the bucket size is the bucket's total price |
| CatalogStore.Catalog.AveragePriceInDateRange | trabalho-pratico/src/catalog.c:302-325 | the mean price of the rides dated within [start, end], or 0 when none is, in particular when start > end |
| CatalogStore.Catalog.AverageDistanceInCityByDate | trabalho-pratico/src/catalog.c:327-351 | 0 for an unknown city or an empty range; otherwise the mean distance of the city's rides within [start, end] |
| CatalogStore.Catalog.PassengersThatGaveTip | trabalho-pratico/src/catalog.c:353-376 | the result is sorted by distance, longest first, and holds what it held before plus exactly the tipped rides within [start, end] |
| CatalogStore.Catalog.TopDriversInCity | trabalho-pratico/src/catalog.c:477-485 | nothing for an unknown city; otherwise it appends the first n drivers of the city's ranking, fewer if the city has fewer, each ranked at least as high as every driver left out |
| Queries.StrToLong | trabalho-pratico/src/queries.c:72 | the end pointer stays within the text and the value within the range of long; Queries.IntegerTextValue gives the value of every integer text |
| Queries.ToInt | trabalho-pratico/src/queries.c:72 | the cast gives a 32-bit value congruent to the long modulo 2^32, and leaves a value already in range unchanged |
| Queries.ReadsWholeIffIntegerText | trabalho-pratico/src/queries.c:72-73 | for a text without NULs, `strtol` stops at the end of the text or at a NUL exactly when the text is empty or is spaces, an optional sign and at least one digit |
| Queries.ReadsWhole | trabalho-pratico/src/queries.c:72-73 | for a text without NULs, the `*rest == '\0'` test after `strtol` passes exactly when the text is empty or is spaces, an optional sign and at least one digit |
| Queries.WholeReadIsIntegerText | trabalho-pratico/src/queries.c:72-73 | a non-empty text that `strtol` reads to its end is spaces, an optional sign and at least one digit |
| Queries.IntegerTextIsReadWhole | trabalho-pratico/src/queries.c:72-73 | `strtol` reads every text of spaces, an optional sign and at least one digit to its end |
| Queries.IntegerTextValue | trabalho-pratico/src/queries.c:72 | for a text of spaces, an optional sign and digits, `strtol` reads it whole and returns the number the digits denote, negated after a '-' and clamped to the range of long |
| Queries.Zeros | trabalho-pratico/src/queries.c:99 | a run of k zero digits denotes 0 |
| Queries.LeadingZerosValue | trabalho-pratico/src/queries.c:72 | leading zeros do not change the number a run of digits denotes |
| Queries.PaddedText | trabalho-pratico/src/queries.c:99 | the `%0*d` form of a non-negative number is all digits and as long as the width, or as the number's digits when they are longer |
| Queries.StrToLongReadsPaddedText | trabalho-pratico/src/queries.c:72 | `strtol` reads the zero-padded form of any non-negative long, such as a `%012d` id, whole and returns that long |
| Queries.StrToLongReadsDecimalText | trabalho-pratico/src/queries.c:72 | `strtol` reads the printed form of any long whole and returns that long |
| Queries.Dispatch | trabalho-pratico/src/queries.c:68-78 | a text that does not parse whole goes, unchanged, to the user lookup; any other text goes to the driver lookup with the parsed id cast to int; for a text without NULs, the user lookup is taken exactly when the text is non-empty and not spaces, an optional sign and digits |
| Queries.DispatchReadsPrintedIds | trabalho-pratico/src/queries.c:68-78 | the printed form of every int, and the zero-padded form of every non-negative int, goes to the driver lookup with that id |
| Queries.FindUserByName | trabalho-pratico/src/queries.c:22-43 | at most one line; a line exactly when the username is registered and its user is active; the line describes a stored user with that username |
| Queries.FindDriverById | trabalho-pratico/src/queries.c:45-66 | at most one line; a line exactly when the id is registered and its driver is active; the line describes a stored driver with that id |
| Queries.FindUserOrDriver | trabalho-pratico/src/queries.c:68-78 | at most one line, written by the user lookup when the argument does not parse whole and by the driver lookup otherwise |
| Queries.FindUserOrDriverReachesBoth | trabalho-pratico/src/queries.c:68-78 | the printed id of a driver, plain or zero-padded as query 2 prints it, reaches that driver's lookup, and a username that is not an integer reaches that user's lookup |
| Queries.RankLines | trabalho-pratico/src/queries.c:92-100 | one line per driver, in order, with its id, name and average score |
| Queries.TopDriversQuery | trabalho-pratico/src/queries.c:80-103 | on a finalized catalog: no line when the count does not parse whole; otherwise one line for each of the first min(n, number of registered drivers) drivers of the ranking, in ranking order |
| Queries.TopDriversQueryCount | trabalho-pratico/src/queries.c:80-103 | on a finalized catalog, asking for the printed form of n lists no driver for n <= 0 and min(n, number of registered drivers) otherwise |
| Findings.CopyOutcomeBound | trabalho-pratico/src/catalog.c:248-250 | a copy loop bounded by count copies the first count items when there are that many, and otherwise first reads at index len |
| Findings.CopyLoop | trabalho-pratico/src/catalog.c:248-250 | the loop's outcome is the iteration-by-iteration outcome of the copy |
| Findings.TopUsersAsWritten | trabalho-pratico/src/catalog.c:244-253 | as written, a request for at most the number of users copies the first n users (none for n <= 0), and for 0 <= n it reports their number |
| Findings.TopUsersAsWrittenOverruns | trabalho-pratico/src/catalog.c:244-253 | asking for more users than there are returns their number but reads past the end of the user array |
| Findings.AsUnsigned | trabalho-pratico/src/catalog.c:481 | the conversion of `i < n` maps a negative int to at least 2^31 and leaves a non-negative one unchanged |
| Findings.TopDriversInCityAsWritten | trabalho-pratico/src/catalog.c:477-485 | as written, an unknown city returns nothing, and a known city with 0 <= n <= its number of rides returns the first n rides of its bucket |
| Findings.TopDriversInCityAsWrittenMisreads | trabalho-pratico/src/catalog.c:477-485 | as written, the query returns the city's rides instead of its drivers, and reads past the bucket for a negative n or an n above the bucket's size |
| Findings.TopDriversQueryAsWritten | trabalho-pratico/src/queries.c:90-100 | as written, a count of at most the number of drivers prints the first n drivers of the ranking (none for n <= 0) |
| Findings.TopDriversQueryAsWrittenOverruns | trabalho-pratico/src/queries.c:90-100 | asking for more drivers than there are prints past the end of the result |
| Findings.ReservedSlots | trabalho-pratico/src/queries.c:88 | the capacity reserved as written is `n + 100` taken modulo 2^32, which is n + 100 whenever that is a valid guint |
| Findings.ReservedSlotsForNegativeCount | trabalho-pratico/src/queries.c:88 | a count below -100 reserves at least 2^31 slots, more than the intended capacity for any ranking of fewer than 2^31 - 100 drivers |
| Findings.IntendedSlots | trabalho-pratico/src/queries.c:88 | the capacity the result needs: more than the drivers the query can return, at most the number of drivers plus 100, and n + 100 for 0 <= n <= the number of drivers |

## Left out

- Input and output: the query handlers return their lines. The `fprintf` calls, the `%.3f` format and the debug messages under `DEBUG` (trabalho-pratico/src/queries.c:8-20) are not modelled. The `%012d` form of an id is modelled only as Queries.PaddedText, to show that query 1 reads it back; the lines carry the id as a number.
- The age column: a profile line carries the birthdate, because `get_age` reads the current date. get_age is not part of this model.
- Memory management (`malloc`, `free`, `g_strdup`, `free_catalog` and the GLib free wrappers) has no counterpart here. Records are values, and tables map keys to indices into the arrays.
- Floating point: prices, distances, tips and scores are integers, and averages are exact reals.
- Entities.StatAverage: for a driver with no rides it gives 0 through Entities.Mean. `driver_by_city_get_average_score` (trabalho-pratico/src/catalog.c:40-42) divides zero by zero instead. Every ranked statistic has at least one ride, so that case never arises in the model.
- Orders.CompareById: the difference of two ids is exact. The source's `a - b` on int can overflow for ids of opposite sign far apart.
- Queries.TopDriversQuery: does not model the reservation `g_ptr_array_sized_new(n + 100)` (trabalho-pratico/src/queries.c:88). For n above INT_MAX - 100, `n + 100` overflows a signed int, which C leaves undefined, so Findings.ReservedSlots covers only the wrap-around of a negative sum into a guint.
- `compute_price` is a function field given when the catalog is created. price_util.h is not part of this model.
- The comparators of catalog_sort.h are not part of this model; their orders are choices of this model. The names give the key of each (rides by date, users by distance, drivers by score, rides by distance). The directions and the tie-break are chosen: rides by date ascending, users by distance descending (longest first), drivers by average score descending and then by id descending, as the per-city comparator of catalog.c:406-416 does, and rides by distance descending.
- `g_ptr_array_sort` belongs to GLib and is not part of this model. The model stands for it with an insertion sort (`Sorting.Sort`), and only the promise of a sort is used: sorted and a permutation.
- The last-ride-date mutators (`driver_register_ride_date`, `user_register_ride_date`) are not modelled. Their bodies are not part of this model, and no query in the core reads them.
- CatalogStore.Catalog.NotifyStopRegistering: finalize sorts copies into `driverRanking` and `userRanking`, and the key tables keep indexing the arrays in registration order. The source sorts the pointer arrays in place, which its tables survive because they hold pointers.
- `alter_hash_to_gptr_array` (trabalho-pratico/src/catalog.c:434-446) never changes its loop condition and looks up the whole key array instead of key i. `glib_wrapper_alter_hash_to_gptr_array` (trabalho-pratico/src/catalog.c:448-461) reads the stored `GHashTable*` as a `GHashArray**`. Both would hang or crash. StatsToSeq and RankCities model the conversion they evidently intend: every entry of the table, exactly once.
- The doc comment of the lower bound (trabalho-pratico/src/catalog.c:273) says "greater than". The code and the model compute "greater than or equal".
- `catalog_get_top_n_drivers` (trabalho-pratico/src/queries.c:90) is not defined in catalog.c. Queries.TopDriversQuery reads the finalized driver ranking, as `catalog_get_top_drivers_with_best_score` fills it.
- Integer widths: ride counts, scores and the `guint` indices are unbounded in the model. Only the `(int)` cast of `strtol`'s result, the `guint` comparison of catalog.c:481 and the `guint` conversion of the reserved capacity at queries.c:88 (Findings.ReservedSlots) are modelled.
- `strtol`: `errno`, locales and base prefixes are not modelled. The `(int)` cast of an out-of-range long is taken to wrap modulo 2^32, which is what the usual compilers do.
- The lazy or eager indexing mode belongs to the program's front end and is not modelled.
- Duplicate registration: the array keeps both records and the table points to the newer one, as `g_hash_table_insert` does.
- CatalogStore.Catalog.RegisterRide requires the ride's driver and user to be registered. The source dereferences the lookup result without a check, so the loader has to guarantee this.

## Findings

| source | as written | input that shows it | evidently intended | confidence | as-written member | corrected member |
|---|---|---|---|---|---|---|
| trabalho-pratico/src/catalog.c:248 | the copy loop runs to `n` | n greater than the number of users: the loop reads `users_array` at index len | copy the clipped `length` users it returns | high, not executed | Findings.TopUsersAsWrittenOverruns | CatalogStore.Catalog.TopUsersWithLongestDistance |
| trabalho-pratico/src/catalog.c:478-481 | looks the city up in the ride buckets and loops `guint i < n` | any known city with n = 1 returns a ride as a driver; n = -1 reads past the bucket | read the city's driver ranking and stop at min(n, its length) | high, not executed | Findings.TopDriversInCityAsWrittenMisreads | CatalogStore.Catalog.TopDriversInCity |
| trabalho-pratico/src/queries.c:92 | prints `n` entries of the result | n greater than the number of drivers, if the callee fills the result as `catalog_get_top_drivers_with_best_score` does | print the entries the result holds | medium (the callee is not defined in catalog.c), not executed | Findings.TopDriversQueryAsWrittenOverruns | Queries.TopDriversQuery |
| trabalho-pratico/src/queries.c:88 | reserves `n + 100` slots, passed as a guint | n = -101: the reservation is 2^32 - 1 pointer slots, about 32 GiB, which GLib aborts on when the allocation fails | reserve room for the drivers the query can return | medium (the abort depends on the memory available), not executed | Findings.ReservedSlotsForNegativeCount | Findings.IntendedSlots |
