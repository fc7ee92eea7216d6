/** What `main` in src/main.py does with the normaliser's records: keep those
    priced under the ceiling, sort them by price, and mail the five cheapest. */
module Pipeline {
  import opened Fields
  import opened Offers
  import opened Lists
  import opened Sorting
  import opened Prepare

  /** `max_price` in `main`, in US dollars. */
  const MaxPrice: real := 600.0

  /** The number of flights `main` mails. */
  const TopCount := 5

  /** `float(flight["price"])`: the two-decimal text read back as the price. */
  function RecordPrice(it: Itinerary): Amount
  {
    it.price
  }

  /** The flights the filter drops: those priced at or above the ceiling. */
  function AtOrAbove(maxPrice: real): Itinerary -> bool
  {
    it => !Below(RecordPrice(it), maxPrice)
  }

  /** The identity, as the image of the comprehension. */
  function Identity(): Itinerary -> Itinerary
  {
    it => it
  }

  /** `[flight for flight in flights if float(flight["price"]) < max_price]`,
      which is both `check_flights_under_price` and the filter in `main`. */
  function CheckFlightsUnderPrice(flights: seq<Itinerary>, maxPrice: real): seq<Itinerary>
  {
    FilterMap(flights, |flights|, AtOrAbove(maxPrice), Identity())
  }

  /** The filter keeps exactly the flights priced strictly below the ceiling,
      in their original order: kept flight `a` is flight `src[a]`, the positions
      increase, and a position is among them exactly when its flight is below
      the ceiling. */
  lemma CheckFlightsUnderPriceSpec(flights: seq<Itinerary>, maxPrice: real) returns (src: seq<int>)
    ensures var r := CheckFlightsUnderPrice(flights, maxPrice);
            && |src| == |r|
            && (forall a :: 0 <= a < |r| ==> 0 <= src[a] < |flights| && r[a] == flights[src[a]] && Below(RecordPrice(r[a]), maxPrice))
            && (forall a, b :: 0 <= a < b < |r| ==> src[a] < src[b])
            && (forall i :: 0 <= i < |flights| ==> (Below(RecordPrice(flights[i]), maxPrice) <==> i in src))
  {
    src := KeptPositions(flights, |flights|, AtOrAbove(maxPrice));
    FilterMapIndexed(flights, |flights|, AtOrAbove(maxPrice), Identity());
    KeptPositionsExact(flights, |flights|, AtOrAbove(maxPrice));
  }

  /** `sorted(filtered_flights, key=lambda x: float(x["price"]))[:5]`. */
  function CheapestFlights(filtered: seq<Itinerary>): seq<Itinerary>
  {
    SmallestBy(filtered, RecordPrice, TopCount)
  }

  /** What `main` ends with. */
  datatype Outcome =
    | FetchFailed                          // no response, or one without `data.offers`
    | Crashed                              // the normaliser raised on an offer it could not read
    | NoFlightsUnderPrice                  // nothing under the ceiling; no mail is sent
    | Emailed(flights: seq<Itinerary>)     // the flights handed to the mailer

  /** `main` after the fetch: `None` is a response without `data.offers`; the
      offers are otherwise read back from the cache exactly as they were written. */
  function Track(response: Option<seq<Offer>>, formatTime: string -> string, toFloat: string -> Option<Amount>): Outcome
  {
    if response.None? then FetchFailed
    else match Prepared(response.value, DefaultMaxResults, formatTime, toFloat)
      case None => Crashed
      case Some(parsed) =>
        var filtered := CheckFlightsUnderPrice(parsed, MaxPrice);
        if filtered == [] then NoFlightsUnderPrice else Emailed(CheapestFlights(filtered))
  }

  /** `main` as it runs once the response is in hand. */
  method RunTracker(response: Option<seq<Offer>>, formatTime: string -> string, toFloat: string -> Option<Amount>)
    returns (outcome: Outcome)
    ensures outcome == Track(response, formatTime, toFloat)
  {
    if response.None? {
      return FetchFailed;
    }
    var flights := response.value;
    var parsedFlights := PrepareFlightData(flights, DefaultMaxResults, formatTime, toFloat);
    if parsedFlights.None? {
      return Crashed;
    }
    var filteredFlights := CheckFlightsUnderPrice(parsedFlights.value, MaxPrice);
    if filteredFlights == [] {
      return NoFlightsUnderPrice;
    }
    outcome := Emailed(CheapestFlights(filteredFlights));
  }

  /** The filter keeps flights of its input, all below the ceiling. */
  lemma FilteredFrom(flights: seq<Itinerary>, maxPrice: real)
    ensures var r := CheckFlightsUnderPrice(flights, maxPrice);
            forall x :: x in multiset(r) ==> x in multiset(flights) && Below(RecordPrice(x), maxPrice)
  {
    var r := CheckFlightsUnderPrice(flights, maxPrice);
    var src := CheckFlightsUnderPriceSpec(flights, maxPrice);
    forall x | x in multiset(r) ensures x in multiset(flights) && Below(RecordPrice(x), maxPrice) {
      var a :| 0 <= a < |r| && r[a] == x;
      assert flights[src[a]] == x;
    }
  }

  /** The filter keeps nothing exactly when no flight is below the ceiling. */
  lemma FilteredEmpty(flights: seq<Itinerary>, maxPrice: real)
    ensures CheckFlightsUnderPrice(flights, maxPrice) == [] <==> forall k :: 0 <= k < |flights| ==> !Below(RecordPrice(flights[k]), maxPrice)
  {
    var r := CheckFlightsUnderPrice(flights, maxPrice);
    var src := CheckFlightsUnderPriceSpec(flights, maxPrice);
    if r != [] {
      assert Below(RecordPrice(flights[src[0]]), maxPrice);
    }
  }

  /** `main` stops with `Crashed` exactly when the normaliser raises: when
      an offer it reads before collecting five records cannot be read. */
  lemma TrackCrashed(flights: seq<Offer>, formatTime: string -> string, toFloat: string -> Option<Amount>)
    ensures Track(Some(flights), formatTime, toFloat) == Crashed <==> Prepared(flights, DefaultMaxResults, formatTime, toFloat).None?
    ensures AllWellFormed(flights, toFloat) ==> Track(Some(flights), formatTime, toFloat) != Crashed
  {
    if AllWellFormed(flights, toFloat) {
      PreparedKept(flights, DefaultMaxResults, formatTime, toFloat);
    }
  }

  /** `main` mails nothing exactly when the normaliser returns records and none
      of them is under the ceiling. */
  lemma TrackNothingUnderPrice(flights: seq<Offer>, formatTime: string -> string, toFloat: string -> Option<Amount>)
    ensures var prepared := Prepared(flights, DefaultMaxResults, formatTime, toFloat);
            Track(Some(flights), formatTime, toFloat) == NoFlightsUnderPrice <==>
              prepared.Some? && forall k :: 0 <= k < |prepared.value| ==> !Below(RecordPrice(prepared.value[k]), MaxPrice)
  {
    var prepared := Prepared(flights, DefaultMaxResults, formatTime, toFloat);
    if prepared.Some? {
      FilteredEmpty(prepared.value, MaxPrice);
    }
  }

  /** The flights `main` mails: the normaliser did not raise, and they are
      between one and five, in ascending order of price, all under the ceiling,
      all among the normaliser's records (at most five, so a cheaper offer found
      later is never mailed), each well shaped with no excluded carrier, and no
      other record under the ceiling is cheaper. */
  lemma TrackMailed(flights: seq<Offer>, formatTime: string -> string, toFloat: string -> Option<Amount>)
    ensures var prepared := Prepared(flights, DefaultMaxResults, formatTime, toFloat);
            var outcome := Track(Some(flights), formatTime, toFloat);
            outcome.Emailed? ==>
              && prepared.Some? && |prepared.value| <= DefaultMaxResults
              && var filtered := CheckFlightsUnderPrice(prepared.value, MaxPrice);
              && 1 <= |outcome.flights| <= TopCount
              && SortedBy(outcome.flights, RecordPrice)
              && (forall x :: x in multiset(outcome.flights) ==> x in multiset(prepared.value) && Below(RecordPrice(x), MaxPrice) && WellShaped(x) && ShowsNoExcluded(x))
              && (forall x, y :: x in multiset(outcome.flights) && y in multiset(filtered) - multiset(outcome.flights) ==> Le(RecordPrice(x), RecordPrice(y)))
  {
    var prepared := Prepared(flights, DefaultMaxResults, formatTime, toFloat);
    if prepared.Some? {
      var parsed := prepared.value;
      var stop := PreparedStop(flights, DefaultMaxResults, formatTime, toFloat);
      PreparedRecordsSound(flights, DefaultMaxResults, formatTime, toFloat);
      forall x | x in multiset(parsed) ensures WellShaped(x) && ShowsNoExcluded(x) {
        var a :| 0 <= a < |parsed| && parsed[a] == x;
      }
      MailedFrom(parsed);
    }
  }

  /** TrackMailed over any records that are all well shaped with no excluded carrier. */
  lemma MailedFrom(parsed: seq<Itinerary>)
    requires forall x :: x in multiset(parsed) ==> WellShaped(x) && ShowsNoExcluded(x)
    ensures var filtered := CheckFlightsUnderPrice(parsed, MaxPrice);
            var top := CheapestFlights(filtered);
            filtered != [] ==>
              && 1 <= |top| <= TopCount
              && SortedBy(top, RecordPrice)
              && (forall x :: x in multiset(top) ==> x in multiset(parsed) && Below(RecordPrice(x), MaxPrice) && WellShaped(x) && ShowsNoExcluded(x))
              && (forall x, y :: x in multiset(top) && y in multiset(filtered) - multiset(top) ==> Le(RecordPrice(x), RecordPrice(y)))
  {
    var filtered := CheckFlightsUnderPrice(parsed, MaxPrice);
    FilteredFrom(parsed, MaxPrice);
    SmallestBySpec(filtered, RecordPrice, TopCount);
  }

  /** Among flights of equal price, the mailed ones are the first of the
      filtered ones, in the same order: the sort is stable. */
  lemma CheapestFlightsStable(filtered: seq<Itinerary>, price: Amount)
    ensures var mailed := WithKey(CheapestFlights(filtered), RecordPrice, price);
            var all := WithKey(filtered, RecordPrice, price);
            |mailed| <= |all| && all[..|mailed|] == mailed
  {
    var sorted := SortBy(filtered, RecordPrice);
    var top := CheapestFlights(filtered);
    assert top == PyPrefix(sorted, TopCount) == sorted[..|top|];
    SortByStable(filtered, RecordPrice, price);
    WithKeyPrefix(sorted, |top|, RecordPrice, price);
  }
}
