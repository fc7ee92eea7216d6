# FlightTracker core, modelled in Dafny

FlightTracker searches for flights, and its core turns the raw offers of a
search response into display records. The code is in `src/main.py`. The core
is modelled here and proved correct. It handles an offer in these steps:

- It normalises the offer (`prepare_flight_data`). This skips offers that
  involve the test carrier "Duffel Airways". It builds one display record per
  remaining offer from the offer's first slice. It keeps only the first record
  for each identity key (price, departure, arrival, connection count). It stops
  once `max_results` records are collected.
- `main` keeps the records priced under the ceiling of 600 (as does
  `check_flights_under_price`). It sorts them by price and mails the first five.
- There is also an alternative ranker, `get_top_cheapest_flights`. It turns
  every offer's amount into a float in place, with missing or unparsable
  amounts becoming +inf. It sorts the offers by that number and emits one ranked
  record per slice of the first `top_n` offers.

The modules follow that structure:

- `Fields` covers Python's view of a decoded JSON object: `dict.get` with and
  without a default, truthiness and `or`, f-string interpolation of
  `None`, and `str.strip`.
- `Offers` is the raw offer data model. It also defines the price order over
  reals extended with ±inf.
- `Lists` covers list comprehensions, filtering and Python's `s[:n]` for any
  integer `n`.
- `Sorting` is the stable `sorted(..., key=...)` and taking its first `n`.
- `Dedup` covers de-duplication with a `seen` set, and a reference definition
  for it.
- `Prepare` is `prepare_flight_data`, as a loop and as the definition the loop
  is proved against.
- `Ranking` is `get_top_cheapest_flights`, with the coercion loop over an
  array.
- `Pipeline` is `check_flights_under_price` and the part of `main` that comes
  after the fetch.

The helpers `format_time` and `float` on strings are parameters of the model:
`formatTime: string -> string` and `toFloat: string -> Option<Amount>`. For
`toFloat`, `None` stands for a `ValueError`. Prices are `Amount`, a real or
±inf. The record's two-decimal text `f"{price:.2f}"` is kept as the unrounded
number.

`prepare_flight_data` calls `float(flight["total_amount"])` without a `try`
(src/main.py:149), so an unparsable price raises there. Only
`get_top_cheapest_flights` maps it to +inf (src/main.py:61-64).
`Prepare.WellFormed` therefore asks the offers that are not skipped for a
readable price.

The normaliser raises on the first offer it reaches that it cannot read: no
first slice, no segment, or an unreadable price on an offer that is not
skipped. Offers after the `break` are never read, so they cannot make it raise.
`Prepare.Prepared` is the normaliser's result with `None` where it raises, and
`Pipeline.Track` ends with `Crashed` then.

The airline name of a display record comes from the carriers of the offer's
LAST segment. The source reads `operating_carrier` and `marketing_carrier` after
the per-segment loop, where they hold the last segment's values. The model does
the same (`Prepare.Build`, `Prepare.ParseOffer`).

## Model

| member | source | states |
|---|---|---|
| Prepare.PrepareFlightData | src/main.py:109-181 | The loop (two `continue`s, the `seen` set, the `break` at `max_results`) computes `Prepared`: `None` when it reaches an offer it cannot read before the `break`, and the records collected otherwise. Its properties are those of `Prepared` below. |
| Prepare.ParseOffer | src/main.py:115-176 | The key and the record built for one offer are its price, its first departure, its last arrival and its connection count (`OfferKey`), and its display record (`Build`). |
| Prepare.BuildConnections | src/main.py:128-147 | The loop yields one connection per segment, in order. It also hands back the last segment's carriers, which the source reads after the loop. |
| Prepare.Build | src/main.py:149-176 | The key of the built record is the offer's key: the price, the formatted first departure, the formatted last arrival, and the segment count minus one. |
| Prepare.BuildWellShaped | src/main.py:126-176 | Every built record has one connection per segment. Its connection count is that number minus one. Its departure and arrival are those of its first and last connection. All of its flight codes are non-empty and trimmed. |
| Prepare.ConnectionOf | src/main.py:140-147 | Defines the connection of one segment: its origin and destination codes, its formatted times, `CarrierName` with the default "Unknown Carrier", and `FlightCode`. `ConnectionCodesTrimmed` and `BuildWellShaped` state its properties. |
| Prepare.ConnectionCodesTrimmed | src/main.py:134-146 | Every connection's flight code is non-empty and has no surrounding whitespace. |
| Prepare.RawFlightCode | src/main.py:134-137 | Defines the code before trimming: the operating carrier's code and number when both are truthy, otherwise the marketing carrier's, with `None` shown as "None". `FlightCodeTrimmed` states its properties. |
| Prepare.FlightCode | src/main.py:138-146 | Defines `RawFlightCode` stripped, or "N/A" when that leaves nothing. `FlightCodeTrimmed` states its properties. |
| Prepare.FlightCodeTrimmed | src/main.py:134-146 | The flight code is the raw code (operating carrier's code and number when both are truthy, otherwise the marketing carrier's) with its surrounding whitespace removed. It is "N/A" when only whitespace was there. It is never empty or padded. |
| Prepare.CarrierName | src/main.py:133 | Defines line 133's fallback, `op.get("name") or mk.get("name", default)`. `CarrierNameSpec`, `CarrierNameNotExcluded` and `ExcludedCarrierNotShown` state its properties. |
| Prepare.CarrierNameSpec | src/main.py:133 | The name is `None` exactly when the operating name is falsy and the marketing name is an explicit `null`. It is empty exactly when the operating name is falsy and the marketing name (or the default for a missing one) is empty. It is always the operating name, the marketing name, or the default, and the default only for a missing marketing name. |
| Prepare.FirstTruthy | src/main.py:152-156 | Defines the logo fallback `a or b or placeholder`. `FirstTruthySpec` states its properties. |
| Prepare.FirstTruthySpec | src/main.py:152-156 | The result is one of the three values. It is empty exactly when all three are empty or `None`. It is something other than the fallback only when one of the first two is a non-empty string. |
| Prepare.PriceOf | src/main.py:149 | Defines `float(flight["total_amount"])`, with `None` where it raises. `OfferKey` and `Build` use it for the record's price, and `WellFormed` asks for it. |
| Prepare.WellFormed | src/main.py:114-150 | Defines what the normaliser needs of an offer in order not to raise: a first slice (line 115), a segment (line 150), and a readable price unless the offer is skipped (line 149). `PreparedKept`, `PreparedStop` and `TrackCrashed` state its role. |
| Prepare.AnyCarriedBy | src/main.py:119-123 | Defines the `any(...)` test over the segments, recursively. `AnyCarriedByExists` states what it means. |
| Prepare.AnyCarriedByExists | src/main.py:119-123 | The `any(...)` test holds exactly when some segment names "Duffel Airways" as its operating or marketing carrier. |
| Prepare.Excluded | src/main.py:119-124 | Defines the skip test: `AnyCarriedBy` over the first slice's segments with "Duffel Airways". `AnyCarriedByExists` and `ExcludedCarrierNotShown` state its properties. |
| Prepare.ExcludedCarrierNotShown | src/main.py:118-124 | The record of an offer that is not skipped never shows "Duffel Airways", neither as the airline nor as a connection's carrier. |
| Prepare.CarrierNameNotExcluded | src/main.py:133 | A segment not carried by the excluded airline never yields its name as carrier name. |
| Prepare.OfferKey | src/main.py:159 | Defines the `unique_key` of an offer: its price, formatted first departure, formatted last arrival and segment count minus one. `Build` states that it is the key of the offer's record. |
| Prepare.WellFormedExtend | src/main.py:114-149 | One more offer that the normaliser can read extends a prefix of such offers. |
| Prepare.KeptUpTo | src/main.py:114-164 | Defines the reference result over the first `n` offers: the records of those not skipped, keeping the first of each key. `KeptSources`, `KeptKeysUnique` and `KeptRecordsSound` state its properties. |
| Prepare.Kept | src/main.py:114-164 | Defines `KeptUpTo` over all the offers. `PreparedKept` and `LaterOffersIgnored` use it. |
| Prepare.KeptSources | src/main.py:114-164 | Among the first `n` offers, record `r` is built from offer `src[r]`, which is not skipped. No earlier offer that is not skipped has the same key. The source offers appear in input order. |
| Prepare.KeptKeysUnique | src/main.py:159-162 | No two records of the first `n` offers share a key. The key of every one of those offers that is not skipped is the key of some record. |
| Prepare.KeptRecordsSound | src/main.py:114-176 | Every record of the first `n` offers is well shaped and names no excluded carrier. |
| Prepare.Limit | src/main.py:178-179 | The `break` keeps exactly the first `max_results` records when `max_results >= 1`. It never fires for `max_results < 1`, so nothing is cut then. |
| Prepare.PassUpTo | src/main.py:111-164 | Defines the loop's state after the first `n` offers, as `Dedup.SeenPass` with the skip test and `Build`. `PassAdvance`, `PassSkip` and `PassIsKept` state its properties. |
| Prepare.RunFrom | src/main.py:114-181 | Defines the loop from offer `n` on: it returns the records at the end or at the `break`, gives `None` on an offer it cannot read, and reads the next offer otherwise. `RunFromKept`, `RunFromReached`, `RunFromIgnoresLater` and `RunFromStop` state its properties. |
| Prepare.Prepared | src/main.py:109-181 | Defines `prepare_flight_data(flights, max_results)` as `RunFrom` from the first offer, with `None` where it raises. `PreparedKept`, `PreparedStop`, `PreparedRecordsSound`, `LimitReached` and `LaterOffersIgnored` state its properties. |
| Prepare.PassAdvance | src/main.py:159-164 | One step of the pass on an offer that is not skipped: the record is appended exactly when its key was not seen. |
| Prepare.PassSkip | src/main.py:119-124 | A skipped offer leaves the pass unchanged. |
| Prepare.PassIsKept | src/main.py:111-164 | The pass with the `seen` set computes the reference definition, the first record of each key. |
| Prepare.PassPrefix | src/main.py:114-164 | The records after fewer offers are a prefix of those after more offers. |
| Prepare.PassAgree | src/main.py:114-164 | The pass over the first `n` offers depends on those offers only. |
| Prepare.PassDone | src/main.py:178-181 | Where the loop stops (all offers read, or the limit reached), it holds the limited result. |
| Prepare.RunFromStep | src/main.py:114-179 | Before the limit, an offer that can be read is read, and the loop goes on with at most one more record. |
| Prepare.RunFromKept | src/main.py:114-181 | From any point short of the limit, the loop over offers that can all be read ends with the limited reference result. |
| Prepare.PreparedKept | src/main.py:109-181 | When every offer can be read, the normaliser does not raise, and it returns the first `max_results` reference records (all of them for `max_results < 1`). |
| Prepare.ReachedStep | src/main.py:178-179 | Short of a limit reached at offer `n`, the loop reads the current offer and goes on. |
| Prepare.RunFromReached | src/main.py:178-179 | From any point up to offer `n`, where the records reach `max_results`, the loop returns the records of the first `n` offers. |
| Prepare.LimitReached | src/main.py:178-179 | Once the first `n` offers, all readable, have yielded `max_results` records, those are the result. The offers after them are never read, readable or not. |
| Prepare.RunFromIgnoresLater | src/main.py:178-179 | The loop over offers that yield at least `max_results` records gives the same result with any offers appended. |
| Prepare.LaterOffersIgnored | src/main.py:178-179 | Once readable offers yield `max_results` records, appending further offers (a cheaper one, or one that would raise) does not change the result. |
| Prepare.RunFromStop | src/main.py:114-181 | When the loop does not raise, it stops at some offer `stop`. Its records are the reference records of the first `stop` offers, all readable. It has read every offer or collected `max_results` records, and never more than that. |
| Prepare.PreparedStop | src/main.py:109-181 | The same for the whole normaliser: its records are the reference records of the offers before `stop`, at most `max_results` of them. |
| Prepare.PreparedRecordsSound | src/main.py:109-181 | Every record the normaliser returns is well shaped and names no excluded carrier, and no two share a key. |
| Fields.Strip | src/main.py:138 | Defines `str.strip()` as `lstrip` then `rstrip`. `StripSpec` states its properties. |
| Fields.StripSpec | src/main.py:138 | `strip()` leaves a trimmed string. That string is a contiguous piece of the input with only whitespace around it. It is empty exactly when the input is all whitespace. |
| Fields.StripLeadingSpec | src/main.py:138 | Removing leading whitespace leaves a suffix of the input whose first character is not whitespace. Only whitespace is removed. |
| Fields.StripTrailingSpec | src/main.py:138 | Removing trailing whitespace leaves a prefix of the input whose last character is not whitespace. Only whitespace is removed. |
| Lists.PyPrefix | src/main.py:71 | `s[:n]` is a prefix of `s`. Its length is `min(n, len(s))` for `n >= 0`. For negative `n` it is what remains after dropping `-n` elements from the end. |
| Lists.MapSeqIndexed | src/main.py:129-147 | The mapped list has the input's length, and element `k` is the image of input element `k`. |
| Lists.MapSeqSnoc | src/main.py:140 | Appending one image extends the mapped prefix by one element. This is the step of every `append` loop. |
| Lists.KeptPositionsExact | src/main.py:47 | The positions the comprehension keeps are in range and increasing. A position is kept exactly when its element is not filtered out. |
| Lists.FilterMapIndexed | src/main.py:47 | Kept element `a` is the image of the input element at the `a`-th kept position. |
| Lists.FilterMapPrefix | src/main.py:114-124 | Filtering a prefix of the input yields a prefix of the filtered whole. |
| Lists.FilterMapAgree | src/main.py:114-124 | Filtering depends only on the elements it reads. |
| Offers.Below | src/main.py:276 | Defines `a < max_price` for a float `a` (±inf included) and a finite ceiling. `CheckFlightsUnderPriceSpec` and `FilteredEmpty` state the filter's use of it. |
| Offers.LeTotal | src/main.py:67 | The price order is total. |
| Sorting.SortBy | src/main.py:67 | The sort returns a permutation of its input (same multiset, same length), in ascending order of the key. |
| Sorting.InsertBy | src/main.py:67 | Insertion adds exactly one element. |
| Sorting.InsertByPermutes | src/main.py:67 | Insertion adds exactly the inserted element to the multiset. |
| Sorting.InsertByBounded | src/main.py:67 | Insertion keeps a common lower bound of the keys. |
| Sorting.InsertBySorted | src/main.py:67 | Insertion into a sorted list keeps it sorted. |
| Sorting.SortByStable | src/main.py:67 | The sort is stable: the elements with one key keep their input order. |
| Sorting.WithKeyCons | src/main.py:67 | The elements with a given key in `[y] + t` are `y` (if it has the key) followed by those of `t`. |
| Sorting.WithKeyPrefix | src/main.py:282 | The elements with a given key in a prefix are the first of those in the whole. |
| Sorting.InsertByWithKey | src/main.py:67 | Insertion puts its element after every element of equal key. |
| Sorting.InsertPastHead | src/main.py:67 | The step of InsertByWithKey past a head with a smaller key. |
| Sorting.SortedPrefixIsCheapest | src/main.py:282 | In a sorted list, no element of the first `m` has a higher key than any element after them. |
| Sorting.SmallestBy | src/main.py:282 | Defines `sorted(s, key=key)[:n]` as `PyPrefix` of `SortBy`. `SmallestBySpec` states its properties. |
| Sorting.SmallestBySpec | src/main.py:282 | `sorted(...)[:n]` is sorted, is drawn from the input (sub-multiset), and has length `min(n, len)` for `n >= 0`. No element it leaves out is cheaper than one it keeps. |
| Dedup.FirstByKey | src/main.py:159-164 | Defines the reference de-duplication: keep each element whose key no earlier element has, in order. `FirstByKeyKeys`, `FirstByKeyUnique`, `FirstIndicesExact` and `FirstByKeyIndexed` state its properties. |
| Dedup.SeenPass | src/main.py:111-164 | Defines the pass with a `seen` set over the first `n` elements, skipping some and dropping an image whose key was seen. `SeenPassIsFirstByKey` states what it computes. |
| Dedup.KeysSnoc | src/main.py:162 | `seen.add(key)`: the keys of the extended list are the old keys and the new key. |
| Dedup.FirstWithKeyLast | src/main.py:160 | The last element is the first of its key exactly when its key is not among the earlier ones. It is the `in seen` test. |
| Dedup.FirstByKeyKeys | src/main.py:159-162 | De-duplication loses no key and adds none. |
| Dedup.FirstByKeySnoc | src/main.py:159-164 | A new element is kept exactly when its key is new. This is the step of the `seen` pass. |
| Dedup.FirstByKeyUnique | src/main.py:159-162 | No two kept elements share a key. |
| Dedup.FirstIndicesExact | src/main.py:159-162 | The kept positions are in range and increasing, and are exactly those whose element is first with its key. |
| Dedup.FirstByKeyIndexed | src/main.py:159-164 | Kept element `a` is the input element at the `a`-th kept position. |
| Dedup.FirstByKeyPrefix | src/main.py:178-179 | De-duplicating a prefix yields a prefix of the de-duplicated whole. |
| Dedup.SeenPassIsFirstByKey | src/main.py:111-164 | The pass with a `seen` set equals the reference definition: first filter, then keep the first of each key. |
| Dedup.Sources | src/main.py:114-164 | One source position per kept element. |
| Dedup.SourceAt | src/main.py:114-164 | Kept element `a` is the image of the element at its source position, which is not skipped. |
| Dedup.SourcesIncrease | src/main.py:114-164 | The source positions increase. |
| Dedup.FirstByKeyEarliest | src/main.py:159-161 | An element before a kept position has a different key. |
| Dedup.KeptPositionOf | src/main.py:114-124 | A position that is not skipped and lies before a kept position is itself an earlier kept position. |
| Dedup.SourceEarliest | src/main.py:159-161 | No element before a kept element's source, unless skipped, has its key. |
| Dedup.FirstByKeyFilterMapFrom | src/main.py:114-164 | Every kept image comes from a position that is not skipped. Nothing earlier that is not skipped has its key. The positions increase. |
| Dedup.FirstByKeyFilterMapKeys | src/main.py:114-162 | Every element that is not skipped has its key among the kept images. |
| Ranking.CoercedAmount | src/main.py:60-64 | Defines the new amount: +inf when missing or unparsable, the parsed number otherwise. `CoerceSpec` states its properties. |
| Ranking.Coerce | src/main.py:62-64 | Defines the offer after the assignment: only the amount changes. `CoerceSpec` states its properties. |
| Ranking.CoerceSpec | src/main.py:60-64 | After the coercion the amount is a number, and the slices and currency are unchanged. The number is +inf exactly when the amount was missing, failed to parse, or was +inf. |
| Ranking.CoerceAll | src/main.py:60-64 | The coercion keeps the number of offers. |
| Ranking.CoerceAmounts | src/main.py:60-64 | The loop overwrites each offer of the array, in place, with its coerced form. |
| Ranking.UnpricedSortLast | src/main.py:62-67 | After the sort, an offer at +inf (missing or unparsable amount) is followed only by offers at +inf. |
| Ranking.TopOffers | src/main.py:67-71 | Defines `sorted(offers, key=...)[:top_n]`. `TopOffersSorted` states its properties. |
| Ranking.PriceKey | src/main.py:67 | Defines the sort key `x["total_amount"]`, a number after the coercion. `CoerceSpec` and `UnpricedSortLast` state its properties. |
| Ranking.CurrencyOf | src/main.py:73 | Defines `offer.get("total_currency", "USD")`. `OfferRecordsSpec` states its role. |
| Ranking.OfferRecords | src/main.py:76-101 | Defines the records of one ranked offer, one per slice. `OfferRecordsSlices` and `OfferRecordsSpec` state its properties. |
| Ranking.RankedUpTo | src/main.py:71-101 | Defines the records of the first `n` ranked offers, the offer at index `i` ranked `i + 1`. `RankedUpToSpec` states its properties. |
| Ranking.Detail | src/main.py:84-93 | Defines a segment's details: the operating carrier's name or "Unknown Airline", and a flight code from the operating carrier alone. `SegmentDetails` uses it. |
| Ranking.SliceRecord | src/main.py:95-101 | Defines one slice's record: the rank, the currency, the coerced price, the slice's origin and destination names and its segments' details. `OfferRecordsSpec` states its properties. |
| Ranking.OfferRecordsSlices | src/main.py:76-101 | An offer yields one record per slice, in slice order. |
| Ranking.OfferRecordsSpec | src/main.py:71-101 | Every record of a ranked offer carries its rank, its coerced price and its currency (default "USD"). |
| Ranking.RankedUpToSpec | src/main.py:71-101 | Ranking the first `n` offers yields one record per slice. Every record has a rank in `1..n` and is a record of the offer with that rank. Ranks never decrease. |
| Ranking.AppendRanked | src/main.py:95-101 | Appending the records of the offer ranked `n` keeps those facts. |
| Ranking.AscendingByRank | src/main.py:67-71 | Records ordered by the rank of offers sorted by price are in ascending order of price. |
| Ranking.TopOffersSorted | src/main.py:67-71 | The ranked offers are sorted by price. There are at most `top_n` of them, or `len + top_n` for a negative `top_n`. |
| Ranking.TopCheapest | src/main.py:51-105 | Defines the ranker's result: `[]` for no offers, otherwise the ranked records of the sorted first `top_n`. `TopCheapestAscending` states its properties. |
| Ranking.TopCheapestAscending | src/main.py:51-105 | The ranker's records have ranks from 1 up to at most `top_n` (`len(offers) + top_n` for a negative `top_n`). Ranks never decrease, and prices are in ascending order. |
| Ranking.SegmentDetails | src/main.py:80-93 | The per-segment loop yields the details of each segment in order. The flight code comes from the operating carrier alone. |
| Ranking.RankOffer | src/main.py:72-101 | The per-slice loop yields exactly the offer's records for its rank. |
| Ranking.GetTopCheapestFlights | src/main.py:51-105 | A missing or empty offer list gives `[]`. Otherwise the array is coerced in place and the result is the ranked records of the first `top_n` offers sorted by price (see `TopCheapestAscending`). |
| Pipeline.RecordPrice | src/main.py:276-282 | Defines `float(flight["price"])`, the record's price read back. `CheckFlightsUnderPriceSpec` and `TrackMailed` state the filter and the sort by it. |
| Pipeline.CheckFlightsUnderPrice | src/main.py:43-47 | Defines the comprehension that keeps the flights priced below the ceiling, which is also the filter in `main` (src/main.py:276). `CheckFlightsUnderPriceSpec` states its properties. |
| Pipeline.CheapestFlights | src/main.py:282 | Defines `sorted(..., key=price)[:5]`. `SmallestBySpec`, `MailedFrom` and `CheapestFlightsStable` state its properties. |
| Pipeline.Track | src/main.py:261-285 | Defines the outcome of `main` after the fetch. `TrackCrashed`, `TrackNothingUnderPrice` and `TrackMailed` state its properties. |
| Pipeline.CheckFlightsUnderPriceSpec | src/main.py:43-47 | The filter keeps flight `i` exactly when it is priced strictly below the ceiling. It keeps those flights unchanged and in their original order. |
| Pipeline.FilteredFrom | src/main.py:276 | Every record the filter in `main` keeps is one of its input and is under the ceiling. |
| Pipeline.FilteredEmpty | src/main.py:276-279 | The filter keeps nothing exactly when no record is under the ceiling. |
| Pipeline.RunTracker | src/main.py:261-285 | `main` after the fetch: a response without `data.offers` ends the run, and so does a normaliser that raises. Otherwise nothing is mailed when no record is under the ceiling, and the five cheapest records under the ceiling are mailed when some are. This equals `Track`. |
| Pipeline.TrackCrashed | src/main.py:272 | `main` crashes exactly when the normaliser raises, and never when every offer can be read. |
| Pipeline.TrackNothingUnderPrice | src/main.py:276-279 | `main` mails nothing exactly when the normaliser returns records and none of them is under 600. |
| Pipeline.TrackMailed | src/main.py:272-285 | When mail is sent, the normaliser did not raise and returned at most five records. The mail has between one and five flights, in ascending order of price. Each is one of the normaliser's records, under the ceiling, well shaped and naming no excluded carrier. No record under the ceiling that is left out is cheaper than one that is mailed. |
| Pipeline.MailedFrom | src/main.py:276-282 | TrackMailed's conclusion for any records that are well shaped and name no excluded carrier. |
| Pipeline.CheapestFlightsStable | src/main.py:282 | Among mailed flights of equal price, the order is that of the filtered records, and they are the first such records. |

## Left out

- I/O is left out: the `.env` file, the Duffel request (`fetch_flight_data`, in `src/api_utils.py`, which is not part of this model), writing and re-reading `data/duffel_response.json`, the Jinja2 template, Postmark and `print`. The model assumes the offers read back from the cache equal those in the response. A response without `data.offers` is the `None` input of `Pipeline.Track`.
- `format_time` and `float` on strings are function parameters. Date parsing and float parsing are not modelled.
- The two-decimal rendering is left out: the normaliser's `f"{price:.2f}"` read back by `float()`, and the ranker's `f"{currency} {total_price:.2f}"`. A record keeps the number, with the ranker's currency in a field of its own. Rounding, and NaN in comparisons, are not modelled.
- Place and segment fields (`origin`, `destination`, `iata_code`, `name`, `departing_at`, `arriving_at`) are always present strings. A JSON `null` in place of a carrier object is not modelled.
- Prepare.PrepareFlightData: the error kinds (KeyError, IndexError, TypeError, ValueError) are all `None`. The test that an offer can be read is made before the offer is used. Nothing observable happens in between, so the result is the same.
- Ranking.GetTopCheapestFlights: requires that no amount be `null` (TypeError in the source) and that the offers it ranks have an operating carrier with an `iata_code` (KeyError otherwise). A `json_data` that is not a dictionary is not modelled.
- `get_top_cheapest_flights` is not called by `main`. It is modelled on its own.
- Pipeline.TrackMailed: states that each mailed flight is a member of the normaliser's records, not that the mailed multiset is a sub-multiset of them. `Sorting.SmallestBySpec` states the sub-multiset relation against the filtered records.
- `get_dates_within_next_month`, `send_email_with_template` and `load_flight_data` are I/O or clock-dependent and are not modelled.
