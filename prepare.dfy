/** The normaliser (`prepare_flight_data` in src/main.py): from raw offers to
    display records, skipping the excluded test carrier, keeping the first
    offer of each identity key, and stopping once enough records are collected. */
module Prepare {
  import opened Fields
  import opened Offers
  import opened Lists
  import opened Dedup

  /** The carrier whose offers are skipped (test data of the search API). */
  const ExcludedCarrier := "Duffel Airways"

  const PlaceholderLogo := "https://via.placeholder.com/100x30?text=No+Logo"

  /** The default of `max_results`. */
  const DefaultMaxResults := 5

  /** One flown segment of a display record. */
  datatype Connection = Connection(
    origin: string,
    destination: string,
    departure: string,
    arrival: string,
    carrier: Option<string>,
    flightCode: string)

  /** A display record; the price is kept as a number, its two-decimal text is not modelled. */
  datatype Itinerary = Itinerary(
    logoUrl: string,
    airlineName: Option<string>,
    origin: string,
    originCode: string,
    destination: string,
    destinationCode: string,
    departureTime: string,
    arrivalTime: string,
    price: Amount,
    numConnections: int,
    connections: seq<Connection>)

  /** The identity of a record for de-duplication. */
  datatype Key = Key(price: Amount, departureTime: string, arrivalTime: string, numConnections: int)

  function KeyOf(it: Itinerary): Key
  {
    Key(it.price, it.departureTime, it.arrivalTime, it.numConnections)
  }

  /** The segment names `name` as its operating or its marketing carrier. */
  predicate CarriedBy(seg: Segment, name: string)
  {
    Get(CarrierOf(seg.operating).name) == Some(name) || Get(CarrierOf(seg.marketing).name) == Some(name)
  }

  /** `any(...)` over the segments: one of them names `name` as a carrier. */
  predicate AnyCarriedBy(segs: seq<Segment>, name: string)
  {
    segs != [] && (CarriedBy(segs[0], name) || AnyCarriedBy(segs[1..], name))
  }

  /** `AnyCarriedBy` holds exactly when some segment is carried by `name`. */
  lemma {:induction false} AnyCarriedByExists(segs: seq<Segment>, name: string)
    ensures AnyCarriedBy(segs, name) <==> exists k :: 0 <= k < |segs| && CarriedBy(segs[k], name)
  {
    if segs != [] {
      AnyCarriedByExists(segs[1..], name);
      if CarriedBy(segs[0], name) {
        assert 0 <= 0 < |segs| && CarriedBy(segs[0], name);
      } else if AnyCarriedBy(segs[1..], name) {
        var k :| 0 <= k < |segs| - 1 && CarriedBy(segs[1..][k], name);
        assert CarriedBy(segs[k + 1], name);
      } else {
        forall k | 0 <= k < |segs| ensures !CarriedBy(segs[k], name) {
          if k > 0 { assert segs[k] == segs[1..][k - 1]; }
        }
      }
    }
  }

  /** The offer is skipped: some segment of its first slice is flown or sold by the excluded carrier. */
  predicate Excluded(o: Offer)
  {
    |o.slices| > 0 && AnyCarriedBy(o.slices[0].segments, ExcludedCarrier)
  }

  /** `float(flight["total_amount"])`; None where Python raises. */
  function PriceOf(a: RawAmount, toFloat: string -> Option<Amount>): Option<Amount>
  {
    match a
    case AmountNumber(x) => Some(x)
    case AmountText(s) => toFloat(s)
    case _ => None
  }

  /** What the normaliser needs of an offer in order not to raise: a first slice
      with at least one segment, and a readable price unless the offer is skipped. */
  predicate WellFormed(o: Offer, toFloat: string -> Option<Amount>)
  {
    && |o.slices| > 0
    && |o.slices[0].segments| > 0
    && (Excluded(o) || PriceOf(o.totalAmount, toFloat).Some?)
  }

  /** What building a record needs: a first slice with a segment, and a readable price. */
  predicate Buildable(o: Offer, toFloat: string -> Option<Amount>)
  {
    |o.slices| > 0 && |o.slices[0].segments| > 0 && PriceOf(o.totalAmount, toFloat).Some?
  }

  /** The first `n` offers are well formed. */
  predicate WellFormedUpTo(flights: seq<Offer>, n: int, toFloat: string -> Option<Amount>)
    requires 0 <= n <= |flights|
  {
    forall k :: 0 <= k < n ==> WellFormed(flights[k], toFloat)
  }

  /** One more well-formed offer extends a well-formed prefix. */
  lemma WellFormedExtend(flights: seq<Offer>, n: int, toFloat: string -> Option<Amount>)
    requires 0 <= n < |flights| && WellFormedUpTo(flights, n, toFloat) && WellFormed(flights[n], toFloat)
    ensures WellFormedUpTo(flights, n + 1, toFloat)
  {
  }

  predicate AllWellFormed(flights: seq<Offer>, toFloat: string -> Option<Amount>)
  {
    WellFormedUpTo(flights, |flights|, toFloat)
  }

  /** `operating.get("name") or marketing.get("name", default)`. */
  function CarrierName(operating: Carrier, marketing: Carrier, default: string): Option<string>
  {
    Or(Get(operating.name), GetOr(marketing.name, default))
  }

  /** The carrier name is `None` only when the operating name is falsy and the
      marketing name is an explicit `null`; it is empty only when the operating
      name is falsy and the marketing name (or the default standing in for it)
      is empty; and it is always the operating name, the marketing name, or the
      default, the default only when the marketing name is missing. */
  lemma CarrierNameSpec(operating: Carrier, marketing: Carrier, default: string)
    ensures var r := CarrierName(operating, marketing, default);
            && (r == None <==> !Truthy(Get(operating.name)) && marketing.name == Null)
            && (r == Some("") <==> !Truthy(Get(operating.name)) && (marketing.name == Text("") || (marketing.name == Absent && default == "")))
            && (r.Some? ==> r == Get(operating.name) || r == Get(marketing.name) || (r == Some(default) && marketing.name == Absent))
  {
  }

  /** The code before trimming: the operating carrier's code and number when
      both are present and non-empty, the marketing carrier's otherwise. */
  function RawFlightCode(seg: Segment): string
  {
    var operating := CarrierOf(seg.operating);
    var marketing := CarrierOf(seg.marketing);
    if Truthy(Get(operating.iataCode)) && Truthy(Get(seg.operatingFlightNumber)) then
      Show(GetOr(operating.iataCode, "")) + Show(GetOr(seg.operatingFlightNumber, ""))
    else
      Show(GetOr(marketing.iataCode, "")) + Show(GetOr(seg.marketingFlightNumber, ""))
  }

  /** `(...).strip()`, with "N/A" for an empty result. */
  function FlightCode(seg: Segment): string
  {
    var code := Strip(RawFlightCode(seg));
    if |code| == 0 then "N/A" else code
  }

  /** The flight code of a connection is never empty and never padded: it is the
      raw code with its surrounding whitespace removed, or "N/A" when nothing is left. */
  lemma FlightCodeTrimmed(seg: Segment)
    ensures FlightCode(seg) != [] && Trimmed(FlightCode(seg))
    ensures AllSpace(RawFlightCode(seg)) ==> FlightCode(seg) == "N/A"
    ensures !AllSpace(RawFlightCode(seg)) ==> StrippedFrom(FlightCode(seg), RawFlightCode(seg))
  {
    var raw := RawFlightCode(seg);
    var code := Strip(raw);
    StripSpec(raw);
    if code == [] {
      assert FlightCode(seg) == "N/A";
      assert !IsSpace('N') && !IsSpace('A');
    } else {
      assert FlightCode(seg) == code;
    }
  }

  function ConnectionOf(seg: Segment, formatTime: string -> string): Connection
  {
    Connection(
      seg.originCode,
      seg.destinationCode,
      formatTime(seg.departingAt),
      formatTime(seg.arrivingAt),
      CarrierName(CarrierOf(seg.operating), CarrierOf(seg.marketing), "Unknown Carrier"),
      FlightCode(seg))
  }

  /** `ConnectionOf` with the time formatter fixed. */
  function ConnectionFn(formatTime: string -> string): Segment -> Connection
  {
    seg => ConnectionOf(seg, formatTime)
  }

  /** `a or b or fallback` on string-or-None values. */
  function FirstTruthy(a: Option<string>, b: Option<string>, fallback: string): string
  {
    if Truthy(a) then a.value else if Truthy(b) then b.value else fallback
  }

  /** `a or b or fallback` is one of the three, the first that is non-empty: it
      is empty only when all three are empty or `None`, and it is the fallback
      whenever neither `a` nor `b` is a non-empty string. */
  lemma FirstTruthySpec(a: Option<string>, b: Option<string>, fallback: string)
    ensures var r := FirstTruthy(a, b, fallback);
            && (r != "" <==> Truthy(a) || Truthy(b) || fallback != "")
            && (Some(r) == a || Some(r) == b || r == fallback)
            && (r != fallback ==> Truthy(a) || Truthy(b))
  {
  }

  /** The key of the record an offer that is not skipped yields: its price, the
      formatted departure of its first segment, the formatted arrival of its
      last segment, and its number of connections. */
  function OfferKey(o: Offer, formatTime: string -> string, toFloat: string -> Option<Amount>): Key
    requires Buildable(o, toFloat)
  {
    var segs := o.slices[0].segments;
    Key(PriceOf(o.totalAmount, toFloat).value, formatTime(segs[0].departingAt), formatTime(segs[|segs| - 1].arrivingAt), |segs| - 1)
  }

  /** The facts every display record satisfies by construction. */
  predicate WellShaped(it: Itinerary)
  {
    && |it.connections| >= 1
    && it.numConnections == |it.connections| - 1
    && it.departureTime == it.connections[0].departure
    && it.arrivalTime == it.connections[|it.connections| - 1].arrival
    && forall k :: 0 <= k < |it.connections| ==> it.connections[k].flightCode != [] && Trimmed(it.connections[k].flightCode)
  }

  /** The display record of an offer that is not skipped. The airline name is
      taken from the LAST segment's carriers: the source reads the loop
      variables that the per-segment loop leaves behind. */
  function Build(o: Offer, formatTime: string -> string, toFloat: string -> Option<Amount>): (r: Itinerary)
    requires Buildable(o, toFloat)
    ensures KeyOf(r) == OfferKey(o, formatTime, toFloat)
  {
    var sl := o.slices[0];
    var segs := sl.segments;
    var first := segs[0];
    var last := segs[|segs| - 1];
    Itinerary(
      FirstTruthy(Get(CarrierOf(first.operating).logoSymbolUrl), Get(CarrierOf(first.marketing).logoSymbolUrl), PlaceholderLogo),
      CarrierName(CarrierOf(last.operating), CarrierOf(last.marketing), "Unknown Airline"),
      sl.origin.name,
      sl.origin.iataCode,
      sl.destination.name,
      sl.destination.iataCode,
      formatTime(first.departingAt),
      formatTime(last.arrivingAt),
      PriceOf(o.totalAmount, toFloat).value,
      |segs| - 1,
      MapSeq(ConnectionFn(formatTime), segs))
  }

  /** Every record the normaliser builds has one connection per segment and is consistent with them. */
  lemma BuildWellShaped(o: Offer, formatTime: string -> string, toFloat: string -> Option<Amount>)
    requires Buildable(o, toFloat)
    ensures WellShaped(Build(o, formatTime, toFloat))
  {
    MapSeqIndexed(ConnectionFn(formatTime), o.slices[0].segments);
    ConnectionCodesTrimmed(o, formatTime, toFloat);
  }

  lemma ConnectionCodesTrimmed(o: Offer, formatTime: string -> string, toFloat: string -> Option<Amount>)
    requires Buildable(o, toFloat)
    ensures var cs := Build(o, formatTime, toFloat).connections;
            forall k :: 0 <= k < |cs| ==> cs[k].flightCode != [] && Trimmed(cs[k].flightCode)
  {
    var cs := Build(o, formatTime, toFloat).connections;
    MapSeqIndexed(ConnectionFn(formatTime), o.slices[0].segments);
    forall k | 0 <= k < |cs| ensures cs[k].flightCode != [] && Trimmed(cs[k].flightCode) {
      assert cs[k].flightCode == FlightCode(o.slices[0].segments[k]);
      FlightCodeTrimmed(o.slices[0].segments[k]);
    }
  }

  /** Build as a function value, defined on the offers it can be applied to. */
  function BuildFn(formatTime: string -> string, toFloat: string -> Option<Amount>): Offer --> Itinerary
  {
    o requires Buildable(o, toFloat) => Build(o, formatTime, toFloat)
  }

  /** The records of the offers among the first `n` that are not skipped, in input order. */
  function RecordsUpTo(flights: seq<Offer>, n: int, formatTime: string -> string, toFloat: string -> Option<Amount>): seq<Itinerary>
    requires 0 <= n <= |flights| && WellFormedUpTo(flights, n, toFloat)
  {
    FilterMap(flights, n, Excluded, BuildFn(formatTime, toFloat))
  }

  /** The reference definition of the pass over the first `n` offers: one record
      per offer that is not skipped and whose key no earlier such offer has, in
      input order. */
  function KeptUpTo(flights: seq<Offer>, n: int, formatTime: string -> string, toFloat: string -> Option<Amount>): seq<Itinerary>
    requires 0 <= n <= |flights| && WellFormedUpTo(flights, n, toFloat)
  {
    FirstByKey(RecordsUpTo(flights, n, formatTime, toFloat), KeyOf)
  }

  /** The reference records of all the offers, before the limit. */
  function Kept(flights: seq<Offer>, formatTime: string -> string, toFloat: string -> Option<Amount>): seq<Itinerary>
    requires AllWellFormed(flights, toFloat)
  {
    KeptUpTo(flights, |flights|, formatTime, toFloat)
  }

  /** The effect of the early `break`: with `maxResults >= 1` at most that many
      records, the first ones; with `maxResults < 1` the test never fires and nothing is cut. */
  function Limit(s: seq<Itinerary>, maxResults: int): (r: seq<Itinerary>)
    ensures |r| <= |s| && r == s[..|r|]
    ensures maxResults >= 1 ==> |r| == if |s| < maxResults then |s| else maxResults
    ensures maxResults < 1 ==> r == s
  {
    if 1 <= maxResults < |s| then s[..maxResults] else s
  }

  /** The loop's state after the first `n` offers: the records of the offers
      not skipped, each dropped when its key was already seen. */
  function PassUpTo(flights: seq<Offer>, n: int, formatTime: string -> string, toFloat: string -> Option<Amount>): seq<Itinerary>
    requires 0 <= n <= |flights| && WellFormedUpTo(flights, n, toFloat)
  {
    SeenPass(flights, n, Excluded, BuildFn(formatTime, toFloat), KeyOf)
  }

  /** The loop from offer `n` on, holding the records of the first `n`: it
      returns them once every offer is read or `maxResults` of them are
      collected, raises (`None`) on an offer it cannot read, and reads the next
      offer otherwise. */
  function RunFrom(flights: seq<Offer>, n: int, maxResults: int, formatTime: string -> string, toFloat: string -> Option<Amount>): Option<seq<Itinerary>>
    requires 0 <= n <= |flights| && WellFormedUpTo(flights, n, toFloat)
    decreases |flights| - n
  {
    var parsed := PassUpTo(flights, n, formatTime, toFloat);
    if n == |flights| || (maxResults >= 1 && |parsed| == maxResults) then Some(parsed)
    else if !WellFormed(flights[n], toFloat) then None
    else RunFrom(flights, n + 1, maxResults, formatTime, toFloat)
  }

  /** `prepare_flight_data(flights, max_results)`: the records it returns, or
      `None` where it raises (KeyError, IndexError, TypeError, ValueError) on an
      offer it reaches before the `break`. */
  function Prepared(flights: seq<Offer>, maxResults: int, formatTime: string -> string, toFloat: string -> Option<Amount>): Option<seq<Itinerary>>
  {
    RunFrom(flights, 0, maxResults, formatTime, toFloat)
  }

  /** The loop's step on an offer that is not skipped, in the terms the loop holds. */
  lemma PassAdvance(flights: seq<Offer>, i: int, formatTime: string -> string, toFloat: string -> Option<Amount>, uniqueKey: Key, record: Itinerary)
    requires 0 <= i < |flights| && WellFormedUpTo(flights, i + 1, toFloat)
    requires !Excluded(flights[i])
    requires uniqueKey == OfferKey(flights[i], formatTime, toFloat) && record == Build(flights[i], formatTime, toFloat)
    ensures var prev := PassUpTo(flights, i, formatTime, toFloat);
            var next := PassUpTo(flights, i + 1, formatTime, toFloat);
            next == if uniqueKey in Keys(prev, KeyOf) then prev else prev + [record]
  {
  }

  /** A skipped offer leaves the pass as it was. */
  lemma PassSkip(flights: seq<Offer>, i: int, formatTime: string -> string, toFloat: string -> Option<Amount>)
    requires 0 <= i < |flights| && WellFormedUpTo(flights, i + 1, toFloat)
    requires Excluded(flights[i])
    ensures PassUpTo(flights, i + 1, formatTime, toFloat) == PassUpTo(flights, i, formatTime, toFloat)
  {
  }

  /** The pass computes the reference definition: the first record of each key
      among the records of the offers that are not skipped. */
  lemma PassIsKept(flights: seq<Offer>, n: int, formatTime: string -> string, toFloat: string -> Option<Amount>)
    requires 0 <= n <= |flights| && WellFormedUpTo(flights, n, toFloat)
    ensures PassUpTo(flights, n, formatTime, toFloat) == KeptUpTo(flights, n, formatTime, toFloat)
  {
    SeenPassIsFirstByKey(flights, n, Excluded, BuildFn(formatTime, toFloat), KeyOf);
  }

  /** The records of the first `m` offers are the first records of the first `n`. */
  lemma PassPrefix(flights: seq<Offer>, m: int, n: int, formatTime: string -> string, toFloat: string -> Option<Amount>)
    requires 0 <= m <= n <= |flights| && WellFormedUpTo(flights, n, toFloat)
    ensures WellFormedUpTo(flights, m, toFloat)
    ensures var p := PassUpTo(flights, m, formatTime, toFloat);
            var q := PassUpTo(flights, n, formatTime, toFloat);
            |p| <= |q| && q[..|p|] == p && (|p| == |q| ==> p == q)
  {
    PassIsKept(flights, m, formatTime, toFloat);
    PassIsKept(flights, n, formatTime, toFloat);
    FilterMapPrefix(flights, m, n, Excluded, BuildFn(formatTime, toFloat));
    var pre := RecordsUpTo(flights, m, formatTime, toFloat);
    var all := RecordsUpTo(flights, n, formatTime, toFloat);
    FirstByKeyPrefix(pre, all[|pre|..], KeyOf);
  }

  /** The pass over the first `n` offers reads those offers only. */
  lemma PassAgree(s: seq<Offer>, t: seq<Offer>, n: int, formatTime: string -> string, toFloat: string -> Option<Amount>)
    requires 0 <= n <= |s| && n <= |t| && s[..n] == t[..n] && WellFormedUpTo(s, n, toFloat)
    ensures WellFormedUpTo(t, n, toFloat)
    ensures PassUpTo(s, n, formatTime, toFloat) == PassUpTo(t, n, formatTime, toFloat)
  {
    assert forall k :: 0 <= k < n ==> s[k] == s[..n][k] == t[..n][k] == t[k];
    FilterMapAgree(s, t, n, Excluded, BuildFn(formatTime, toFloat));
    PassIsKept(s, n, formatTime, toFloat);
    PassIsKept(t, n, formatTime, toFloat);
  }

  /** With every offer well formed, where the pass stops (after all offers or on
      reaching `maxResults` records) it holds the limited reference result. */
  lemma PassDone(flights: seq<Offer>, n: int, maxResults: int, formatTime: string -> string, toFloat: string -> Option<Amount>, parsed: seq<Itinerary>)
    requires AllWellFormed(flights, toFloat) && 0 <= n <= |flights|
    requires parsed == PassUpTo(flights, n, formatTime, toFloat)
    requires n == |flights| || (maxResults >= 1 && |parsed| == maxResults)
    requires n == |flights| && maxResults >= 1 ==> |parsed| <= maxResults
    ensures parsed == Limit(Kept(flights, formatTime, toFloat), maxResults)
  {
    PassIsKept(flights, n, formatTime, toFloat);
    if n < |flights| {
      PassPrefix(flights, n, |flights|, formatTime, toFloat);
      PassIsKept(flights, |flights|, formatTime, toFloat);
    }
  }

  /** One step of RunFrom: before the limit, a well-formed offer `n` is read and
      the loop goes on from `n + 1` with at most one more record. */
  lemma RunFromStep(flights: seq<Offer>, n: int, maxResults: int, formatTime: string -> string, toFloat: string -> Option<Amount>)
    requires 0 <= n < |flights| && WellFormedUpTo(flights, n, toFloat) && WellFormed(flights[n], toFloat)
    requires !(maxResults >= 1 && |PassUpTo(flights, n, formatTime, toFloat)| == maxResults)
    ensures WellFormedUpTo(flights, n + 1, toFloat)
    ensures RunFrom(flights, n, maxResults, formatTime, toFloat) == RunFrom(flights, n + 1, maxResults, formatTime, toFloat)
    ensures |PassUpTo(flights, n + 1, formatTime, toFloat)| <= |PassUpTo(flights, n, formatTime, toFloat)| + 1
  {
    WellFormedExtend(flights, n, toFloat);
  }

  /** RunFrom over offers that are all well formed, from a point where the limit
      has not been passed, ends with the limited reference result. */
  lemma {:induction false} RunFromKept(flights: seq<Offer>, n: int, maxResults: int, formatTime: string -> string, toFloat: string -> Option<Amount>)
    requires AllWellFormed(flights, toFloat) && 0 <= n <= |flights|
    requires maxResults >= 1 ==> |PassUpTo(flights, n, formatTime, toFloat)| <= maxResults
    ensures RunFrom(flights, n, maxResults, formatTime, toFloat) == Some(Limit(Kept(flights, formatTime, toFloat), maxResults))
    decreases |flights| - n
  {
    var parsed := PassUpTo(flights, n, formatTime, toFloat);
    if n == |flights| || (maxResults >= 1 && |parsed| == maxResults) {
      PassDone(flights, n, maxResults, formatTime, toFloat, parsed);
    } else {
      RunFromStep(flights, n, maxResults, formatTime, toFloat);
      RunFromKept(flights, n + 1, maxResults, formatTime, toFloat);
    }
  }

  /** When every offer is well formed the normaliser does not raise, and it
      returns the first `maxResults` reference records (all of them for
      `maxResults < 1`). */
  lemma PreparedKept(flights: seq<Offer>, maxResults: int, formatTime: string -> string, toFloat: string -> Option<Amount>)
    requires AllWellFormed(flights, toFloat)
    ensures Prepared(flights, maxResults, formatTime, toFloat) == Some(Limit(Kept(flights, formatTime, toFloat), maxResults))
  {
    RunFromKept(flights, 0, maxResults, formatTime, toFloat);
  }

  /** Short of the limit reached at `n`, RunFrom reads offer `m` and goes on. */
  lemma ReachedStep(flights: seq<Offer>, m: int, n: int, maxResults: int, formatTime: string -> string, toFloat: string -> Option<Amount>)
    requires 0 <= m <= n <= |flights| && WellFormedUpTo(flights, n, toFloat)
    requires maxResults >= 1 && |PassUpTo(flights, n, formatTime, toFloat)| == maxResults
    requires WellFormedUpTo(flights, m, toFloat) && |PassUpTo(flights, m, formatTime, toFloat)| < maxResults
    ensures m < n && WellFormedUpTo(flights, m + 1, toFloat)
    ensures RunFrom(flights, m, maxResults, formatTime, toFloat) == RunFrom(flights, m + 1, maxResults, formatTime, toFloat)
    ensures |PassUpTo(flights, m + 1, formatTime, toFloat)| <= maxResults
  {
    RunFromStep(flights, m, maxResults, formatTime, toFloat);
  }

  /** RunFrom from any point up to `n`, where the records reach `maxResults`,
      returns the records of the first `n` offers. */
  lemma {:induction false} RunFromReached(flights: seq<Offer>, m: int, n: int, maxResults: int, formatTime: string -> string, toFloat: string -> Option<Amount>)
    requires 0 <= m <= n <= |flights| && WellFormedUpTo(flights, n, toFloat)
    requires maxResults >= 1 && |PassUpTo(flights, n, formatTime, toFloat)| == maxResults
    requires WellFormedUpTo(flights, m, toFloat) && |PassUpTo(flights, m, formatTime, toFloat)| <= maxResults
    ensures RunFrom(flights, m, maxResults, formatTime, toFloat) == Some(PassUpTo(flights, n, formatTime, toFloat))
    decreases n - m
  {
    var parsed := PassUpTo(flights, m, formatTime, toFloat);
    if |parsed| == maxResults {
      PassPrefix(flights, m, n, formatTime, toFloat);
    } else {
      ReachedStep(flights, m, n, maxResults, formatTime, toFloat);
      RunFromReached(flights, m + 1, n, maxResults, formatTime, toFloat);
    }
  }

  /** Once the first `n` offers have yielded `maxResults` records, the `break`
      fires: the normaliser returns those records, whatever the offers after
      them are, well formed or not. */
  lemma LimitReached(flights: seq<Offer>, n: int, maxResults: int, formatTime: string -> string, toFloat: string -> Option<Amount>)
    requires 0 <= n <= |flights| && WellFormedUpTo(flights, n, toFloat)
    requires maxResults >= 1 && |PassUpTo(flights, n, formatTime, toFloat)| == maxResults
    ensures Prepared(flights, maxResults, formatTime, toFloat) == Some(PassUpTo(flights, n, formatTime, toFloat))
  {
    RunFromReached(flights, 0, n, maxResults, formatTime, toFloat);
  }

  /** RunFrom over well-formed offers that yield at least `maxResults` records
      does not read the offers appended after them. */
  lemma {:induction false} RunFromIgnoresLater(first: seq<Offer>, later: seq<Offer>, n: int, maxResults: int, formatTime: string -> string, toFloat: string -> Option<Amount>)
    requires AllWellFormed(first, toFloat) && maxResults >= 1 && 0 <= n <= |first|
    requires |PassUpTo(first, n, formatTime, toFloat)| <= maxResults <= |PassUpTo(first, |first|, formatTime, toFloat)|
    ensures WellFormedUpTo(first + later, n, toFloat)
    ensures RunFrom(first + later, n, maxResults, formatTime, toFloat) == RunFrom(first, n, maxResults, formatTime, toFloat)
    decreases |first| - n
  {
    var all := first + later;
    assert first[..n] == all[..n];
    PassAgree(first, all, n, formatTime, toFloat);
    var parsed := PassUpTo(first, n, formatTime, toFloat);
    if n < |first| && |parsed| != maxResults {
      assert all[n] == first[n];
      RunFromStep(first, n, maxResults, formatTime, toFloat);
      RunFromStep(all, n, maxResults, formatTime, toFloat);
      RunFromIgnoresLater(first, later, n + 1, maxResults, formatTime, toFloat);
    }
  }

  /** Once well-formed offers yield `maxResults` records, appending further
      offers, malformed or cheaper ones included, does not change the result. */
  lemma LaterOffersIgnored(first: seq<Offer>, later: seq<Offer>, maxResults: int, formatTime: string -> string, toFloat: string -> Option<Amount>)
    requires AllWellFormed(first, toFloat) && maxResults >= 1
    requires |Kept(first, formatTime, toFloat)| >= maxResults
    ensures Prepared(first + later, maxResults, formatTime, toFloat) == Some(Limit(Kept(first, formatTime, toFloat), maxResults))
  {
    PassIsKept(first, |first|, formatTime, toFloat);
    RunFromIgnoresLater(first, later, 0, maxResults, formatTime, toFloat);
    PreparedKept(first, maxResults, formatTime, toFloat);
  }

  /** Where RunFrom stops when it does not raise: the reference records of the
      first `stop` offers, all read without raising, with either every offer
      read or `maxResults` records collected. */
  lemma {:induction false} RunFromStop(flights: seq<Offer>, n: int, maxResults: int, formatTime: string -> string, toFloat: string -> Option<Amount>)
    returns (stop: int)
    requires 0 <= n <= |flights| && WellFormedUpTo(flights, n, toFloat)
    requires maxResults >= 1 ==> |PassUpTo(flights, n, formatTime, toFloat)| <= maxResults
    requires RunFrom(flights, n, maxResults, formatTime, toFloat).Some?
    ensures n <= stop <= |flights| && WellFormedUpTo(flights, stop, toFloat)
    ensures var parsed := RunFrom(flights, n, maxResults, formatTime, toFloat).value;
            && parsed == KeptUpTo(flights, stop, formatTime, toFloat)
            && (stop == |flights| || (maxResults >= 1 && |parsed| == maxResults))
            && (maxResults >= 1 ==> |parsed| <= maxResults)
    decreases |flights| - n
  {
    var parsed := PassUpTo(flights, n, formatTime, toFloat);
    if n == |flights| || (maxResults >= 1 && |parsed| == maxResults) {
      PassIsKept(flights, n, formatTime, toFloat);
      stop := n;
    } else {
      RunFromStep(flights, n, maxResults, formatTime, toFloat);
      stop := RunFromStop(flights, n + 1, maxResults, formatTime, toFloat);
    }
  }

  /** What the normaliser returns when it does not raise: the first record of
      each key among the offers before some point `stop`, none of which made it
      raise; `stop` is the end of the offers, or the point where `maxResults`
      records were collected, and there are never more than `maxResults`. */
  lemma PreparedStop(flights: seq<Offer>, maxResults: int, formatTime: string -> string, toFloat: string -> Option<Amount>)
    returns (stop: int)
    requires Prepared(flights, maxResults, formatTime, toFloat).Some?
    ensures 0 <= stop <= |flights| && WellFormedUpTo(flights, stop, toFloat)
    ensures var parsed := Prepared(flights, maxResults, formatTime, toFloat).value;
            && parsed == KeptUpTo(flights, stop, formatTime, toFloat)
            && (stop == |flights| || (maxResults >= 1 && |parsed| == maxResults))
            && (maxResults >= 1 ==> |parsed| <= maxResults)
  {
    stop := RunFromStop(flights, 0, maxResults, formatTime, toFloat);
  }

  /** No two records of the first `n` offers share a key, and every key of one
      of those offers that is not skipped has a record. */
  lemma KeptKeysUnique(flights: seq<Offer>, n: int, formatTime: string -> string, toFloat: string -> Option<Amount>)
    requires 0 <= n <= |flights| && WellFormedUpTo(flights, n, toFloat)
    ensures var kept := KeptUpTo(flights, n, formatTime, toFloat);
            && (forall r, q :: 0 <= r < q < |kept| ==> KeyOf(kept[r]) != KeyOf(kept[q]))
            && (forall i :: 0 <= i < n && !Excluded(flights[i]) ==> OfferKey(flights[i], formatTime, toFloat) in Keys(kept, KeyOf))
  {
    var kept := KeptUpTo(flights, n, formatTime, toFloat);
    var f := BuildFn(formatTime, toFloat);
    FirstByKeyUnique(RecordsUpTo(flights, n, formatTime, toFloat), KeyOf);
    FirstByKeyFilterMapKeys(flights, n, Excluded, f, KeyOf);
    forall i | 0 <= i < n && !Excluded(flights[i]) ensures OfferKey(flights[i], formatTime, toFloat) in Keys(kept, KeyOf) {
      assert KeyOf(f(flights[i])) in Keys(kept, KeyOf);
    }
  }

  /** The record names the excluded carrier neither as its airline nor as the carrier of a connection. */
  predicate ShowsNoExcluded(it: Itinerary)
  {
    && it.airlineName != Some(ExcludedCarrier)
    && forall k :: 0 <= k < |it.connections| ==> it.connections[k].carrier != Some(ExcludedCarrier)
  }

  /** The records do not name the excluded carrier, as airline or as the carrier of a connection. */
  lemma ExcludedCarrierNotShown(o: Offer, formatTime: string -> string, toFloat: string -> Option<Amount>)
    requires Buildable(o, toFloat) && !Excluded(o)
    ensures ShowsNoExcluded(Build(o, formatTime, toFloat))
  {
    var segs := o.slices[0].segments;
    AnyCarriedByExists(segs, ExcludedCarrier);
    MapSeqIndexed(ConnectionFn(formatTime), segs);
    CarrierNameNotExcluded(segs[|segs| - 1], "Unknown Airline");
    forall k | 0 <= k < |segs| ensures ConnectionOf(segs[k], formatTime).carrier != Some(ExcludedCarrier) {
      CarrierNameNotExcluded(segs[k], "Unknown Carrier");
    }
  }

  /** A segment not carried by the excluded carrier does not show its name. */
  lemma CarrierNameNotExcluded(seg: Segment, default: string)
    requires !CarriedBy(seg, ExcludedCarrier) && default != ExcludedCarrier
    ensures CarrierName(CarrierOf(seg.operating), CarrierOf(seg.marketing), default) != Some(ExcludedCarrier)
  {
  }

  /** Where each record of the first `n` offers comes from: record `r` is built
      from offer `src[r]`, which is not skipped; no earlier offer that is not
      skipped has its key, so it is the first offer of its key; and the offers
      are taken in input order. */
  lemma KeptSources(flights: seq<Offer>, n: int, formatTime: string -> string, toFloat: string -> Option<Amount>) returns (src: seq<int>)
    requires 0 <= n <= |flights| && WellFormedUpTo(flights, n, toFloat)
    ensures var kept := KeptUpTo(flights, n, formatTime, toFloat);
            && |src| == |kept|
            && (forall r :: 0 <= r < |kept| ==>
                  0 <= src[r] < n && !Excluded(flights[src[r]]) && kept[r] == Build(flights[src[r]], formatTime, toFloat))
            && (forall r, j :: 0 <= r < |kept| && 0 <= j < src[r] && !Excluded(flights[j]) ==>
                  OfferKey(flights[j], formatTime, toFloat) != KeyOf(kept[r]))
            && (forall r, q :: 0 <= r < q < |kept| ==> src[r] < src[q])
  {
    var kept := KeptUpTo(flights, n, formatTime, toFloat);
    var f := BuildFn(formatTime, toFloat);
    src := FirstByKeyFilterMapFrom(flights, n, Excluded, f, KeyOf);
    forall r | 0 <= r < |kept| ensures kept[r] == Build(flights[src[r]], formatTime, toFloat) {
      assert kept[r] == f(flights[src[r]]);
    }
    forall r, j | 0 <= r < |kept| && 0 <= j < src[r] && !Excluded(flights[j])
      ensures OfferKey(flights[j], formatTime, toFloat) != KeyOf(kept[r])
    {
      assert KeyOf(f(flights[j])) != KeyOf(kept[r]);
      assert f(flights[j]) == Build(flights[j], formatTime, toFloat);
    }
  }

  /** Every record of the first `n` offers is well shaped and names no excluded carrier. */
  lemma KeptRecordsSound(flights: seq<Offer>, n: int, formatTime: string -> string, toFloat: string -> Option<Amount>)
    requires 0 <= n <= |flights| && WellFormedUpTo(flights, n, toFloat)
    ensures var kept := KeptUpTo(flights, n, formatTime, toFloat);
            forall r :: 0 <= r < |kept| ==> WellShaped(kept[r]) && ShowsNoExcluded(kept[r])
  {
    var kept := KeptUpTo(flights, n, formatTime, toFloat);
    var src := KeptSources(flights, n, formatTime, toFloat);
    forall r | 0 <= r < |kept| ensures WellShaped(kept[r]) && ShowsNoExcluded(kept[r]) {
      BuildWellShaped(flights[src[r]], formatTime, toFloat);
      ExcludedCarrierNotShown(flights[src[r]], formatTime, toFloat);
    }
  }

  /** The records the normaliser returns, when it does not raise, are well
      shaped, name no excluded carrier, and have pairwise distinct keys. */
  lemma PreparedRecordsSound(flights: seq<Offer>, maxResults: int, formatTime: string -> string, toFloat: string -> Option<Amount>)
    requires Prepared(flights, maxResults, formatTime, toFloat).Some?
    ensures var parsed := Prepared(flights, maxResults, formatTime, toFloat).value;
            && (forall r :: 0 <= r < |parsed| ==> WellShaped(parsed[r]) && ShowsNoExcluded(parsed[r]))
            && (forall r, q :: 0 <= r < q < |parsed| ==> KeyOf(parsed[r]) != KeyOf(parsed[q]))
  {
    var stop := PreparedStop(flights, maxResults, formatTime, toFloat);
    KeptRecordsSound(flights, stop, formatTime, toFloat);
    KeptKeysUnique(flights, stop, formatTime, toFloat);
  }

  /** The per-segment loop: one connection per segment, in order. It also hands
      back the carrier objects of the last segment, which the source goes on to
      read after the loop. */
  method BuildConnections(segments: seq<Segment>, formatTime: string -> string)
    returns (connections: seq<Connection>, operating: Carrier, marketing: Carrier)
    requires |segments| > 0
    ensures connections == MapSeq(ConnectionFn(formatTime), segments)
    ensures operating == CarrierOf(segments[|segments| - 1].operating)
    ensures marketing == CarrierOf(segments[|segments| - 1].marketing)
  {
    connections := [];
    operating, marketing := NoCarrier, NoCarrier;
    var k := 0;
    while k < |segments|
      invariant 0 <= k <= |segments|
      invariant connections == MapSeq(ConnectionFn(formatTime), segments[..k])
      invariant k > 0 ==> operating == CarrierOf(segments[k - 1].operating) && marketing == CarrierOf(segments[k - 1].marketing)
    {
      var segment := segments[k];
      operating := CarrierOf(segment.operating);
      marketing := CarrierOf(segment.marketing);
      MapSeqSnoc(ConnectionFn(formatTime), segments, k);
      connections := connections + [ConnectionOf(segment, formatTime)];
      k := k + 1;
    }
    assert segments[..k] == segments;
  }

  /** The body of the pass for one offer that is not skipped: its key and its record. */
  method ParseOffer(flight: Offer, formatTime: string -> string, toFloat: string -> Option<Amount>)
    returns (uniqueKey: Key, record: Itinerary)
    requires Buildable(flight, toFloat)
    ensures uniqueKey == OfferKey(flight, formatTime, toFloat)
    ensures record == Build(flight, formatTime, toFloat)
  {
    var sliceInfo := flight.slices[0];
    var segments := sliceInfo.segments;
    var numConnections := |segments| - 1;
    var connections, operating, marketing := BuildConnections(segments, formatTime);
    var price := PriceOf(flight.totalAmount, toFloat).value;
    var departureTime := formatTime(segments[0].departingAt);
    var arrivalTime := formatTime(segments[|segments| - 1].arrivingAt);
    var logoUrl := FirstTruthy(
      Get(CarrierOf(segments[0].operating).logoSymbolUrl),
      Get(CarrierOf(segments[0].marketing).logoSymbolUrl),
      PlaceholderLogo);
    // `operating` and `marketing` are the last segment's carriers here.
    var airlineName := CarrierName(operating, marketing, "Unknown Airline");
    uniqueKey := Key(price, departureTime, arrivalTime, numConnections);
    record := Itinerary(
      logoUrl, airlineName,
      sliceInfo.origin.name, sliceInfo.origin.iataCode,
      sliceInfo.destination.name, sliceInfo.destination.iataCode,
      departureTime, arrivalTime, price, numConnections, connections);
  }

  /** The normaliser, step by step as the source runs it over the offers. An
      offer it cannot read ends it with `None`, where the source raises; the
      test is made before the offer is used, which changes nothing since the
      source has no effect before it raises. The source's two `continue`s are
      the two `if`s here, and its `break` is the flag `full`, which ends the
      loop right after the record that fills the result. */
  method PrepareFlightData(flights: seq<Offer>, maxResults: int, formatTime: string -> string, toFloat: string -> Option<Amount>)
    returns (result: Option<seq<Itinerary>>)
    ensures result == Prepared(flights, maxResults, formatTime, toFloat)
  {
    var seen: set<Key> := {};
    var parsed := [];
    var i := 0;
    var full := false;
    while i < |flights| && !full
      invariant 0 <= i <= |flights| && WellFormedUpTo(flights, i, toFloat)
      invariant parsed == PassUpTo(flights, i, formatTime, toFloat)
      invariant seen == Keys(parsed, KeyOf)
      invariant full ==> maxResults >= 1 && |parsed| == maxResults
      invariant !full ==> maxResults < 1 || |parsed| < maxResults
      invariant RunFrom(flights, i, maxResults, formatTime, toFloat) == Prepared(flights, maxResults, formatTime, toFloat)
    {
      var flight := flights[i];
      if !WellFormed(flight, toFloat) {
        return None;
      }
      RunFromStep(flights, i, maxResults, formatTime, toFloat);
      if Excluded(flight) {
        PassSkip(flights, i, formatTime, toFloat);
      } else {
        var uniqueKey, record := ParseOffer(flight, formatTime, toFloat);
        PassAdvance(flights, i, formatTime, toFloat, uniqueKey, record);
        if uniqueKey !in seen {
          seen := seen + {uniqueKey};
          KeysSnoc(parsed, record, KeyOf);
          parsed := parsed + [record];
          full := |parsed| == maxResults;
        }
      }
      i := i + 1;
    }
    result := Some(parsed);
  }
}
