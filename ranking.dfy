/** The alternative ranker (`get_top_cheapest_flights` in src/main.py): it
    turns every offer's amount into a number in place, sorts the offers by it,
    and emits one ranked record per slice of the first `topN` offers. */
module Ranking {
  import opened Fields
  import opened Offers
  import opened Lists
  import opened Sorting

  /** One segment of a ranked record. */
  datatype SegmentDetail = SegmentDetail(
    origin: string,
    destination: string,
    departure: string,
    arrival: string,
    airline: Option<string>,
    flightCode: string)

  /** One ranked record, for one slice of a ranked offer. The price is kept as
      the currency text and the number; its two-decimal rendering is not modelled. */
  datatype RankedFlight = RankedFlight(
    rank: int,
    currency: string,
    price: Amount,
    origin: string,
    destination: string,
    segments: seq<SegmentDetail>)

  /** `float(offer.get("total_amount", float("inf")))`, with a failed parse
      (ValueError) caught as +inf. A `null` amount raises TypeError, which is not
      caught, so it is excluded. */
  function CoercedAmount(a: RawAmount, toFloat: string -> Option<Amount>): Amount
    requires a != AmountNull
  {
    match a
    case AmountAbsent => Infinity
    case AmountNumber(x) => x
    case AmountText(t) => if toFloat(t).Some? then toFloat(t).value else Infinity
  }

  /** The offer after the assignment `offer["total_amount"] = ...`. */
  function Coerce(o: Offer, toFloat: string -> Option<Amount>): Offer
    requires o.totalAmount != AmountNull
  {
    o.(totalAmount := AmountNumber(CoercedAmount(o.totalAmount, toFloat)))
  }

  /** The coercion loop does not raise on these offers. */
  predicate Coercible(offers: seq<Offer>)
  {
    forall k :: 0 <= k < |offers| ==> offers[k].totalAmount != AmountNull
  }

  /** The offers after the coercion loop. */
  function CoerceAll(offers: seq<Offer>, toFloat: string -> Option<Amount>): (r: seq<Offer>)
    requires Coercible(offers)
    ensures |r| == |offers|
  {
    seq(|offers|, k requires 0 <= k < |offers| => Coerce(offers[k], toFloat))
  }

  /** The sort key `x["total_amount"]`; after the coercion it is always a number,
      and the `Infinity` of the other cases is never used. */
  function PriceKey(o: Offer): Amount
  {
    if o.totalAmount.AmountNumber? then o.totalAmount.number else Infinity
  }

  /** The coercion changes the amount only, leaves a number, and that number is
      +inf exactly when the amount is missing, fails to parse, or is itself +inf. */
  lemma CoerceSpec(o: Offer, toFloat: string -> Option<Amount>)
    requires o.totalAmount != AmountNull
    ensures var c := Coerce(o, toFloat);
            && c.totalAmount.AmountNumber?
            && c.slices == o.slices && c.totalCurrency == o.totalCurrency
            && (PriceKey(c) == Infinity <==>
                  || o.totalAmount.AmountAbsent?
                  || (o.totalAmount.AmountText? && (toFloat(o.totalAmount.text).None? || toFloat(o.totalAmount.text) == Some(Infinity)))
                  || o.totalAmount == AmountNumber(Infinity))
  {
  }

  /** The coercion loop, updating the offers in place. */
  method CoerceAmounts(offers: array<Offer>, toFloat: string -> Option<Amount>)
    requires Coercible(offers[..])
    modifies offers
    ensures offers[..] == CoerceAll(old(offers[..]), toFloat)
  {
    for k := 0 to offers.Length
      invariant forall j :: 0 <= j < k ==> offers[j] == Coerce(old(offers[j]), toFloat)
      invariant forall j :: k <= j < offers.Length ==> offers[j] == old(offers[j])
    {
      offers[k] := Coerce(offers[k], toFloat);
    }
  }

  /** `sorted_offers[:top_n]`. */
  function TopOffers(offers: seq<Offer>, topN: int): seq<Offer>
  {
    SmallestBy(offers, PriceKey, topN)
  }

  /** After the sort, an offer whose amount is +inf (missing or unparsable) is
      followed only by such offers. */
  lemma UnpricedSortLast(offers: seq<Offer>, i: int, j: int)
    requires 0 <= i < j < |offers|
    requires PriceKey(SortBy(offers, PriceKey)[i]) == Infinity
    ensures PriceKey(SortBy(offers, PriceKey)[j]) == Infinity
  {
    var sorted := SortBy(offers, PriceKey);
    assert Le(PriceKey(sorted[i]), PriceKey(sorted[j]));
  }

  /** `segment["operating_carrier"]["iata_code"]` does not raise KeyError. */
  predicate SegmentRankable(seg: Segment)
  {
    seg.operating.Some? && seg.operating.value.iataCode != Absent
  }

  predicate SliceRankable(sl: Slice)
  {
    forall k :: 0 <= k < |sl.segments| ==> SegmentRankable(sl.segments[k])
  }

  predicate Rankable(o: Offer)
  {
    forall k :: 0 <= k < |o.slices| ==> SliceRankable(o.slices[k])
  }

  predicate AllRankable(offers: seq<Offer>)
  {
    forall k :: 0 <= k < |offers| ==> Rankable(offers[k])
  }

  /** The details of a segment. Unlike the normaliser, the ranker takes the
      flight code from the operating carrier alone, with no fallback and no trimming. */
  function Detail(seg: Segment): SegmentDetail
    requires SegmentRankable(seg)
  {
    SegmentDetail(
      seg.originCode,
      seg.destinationCode,
      seg.departingAt,
      seg.arrivingAt,
      GetOr(CarrierOf(seg.operating).name, "Unknown Airline"),
      Show(Get(seg.operating.value.iataCode)) + Show(GetOr(seg.operatingFlightNumber, "")))
  }

  function DetailFn(): Segment --> SegmentDetail
  {
    seg requires SegmentRankable(seg) => Detail(seg)
  }

  /** The record of one slice of the offer ranked `rank`. */
  function SliceRecord(o: Offer, rank: int, sl: Slice): RankedFlight
    requires SliceRankable(sl)
  {
    RankedFlight(
      rank,
      CurrencyOf(o),
      PriceKey(o),
      sl.origin.name,
      sl.destination.name,
      MapSeq(DetailFn(), sl.segments))
  }

  function SliceFn(o: Offer, rank: int): Slice --> RankedFlight
  {
    sl requires SliceRankable(sl) => SliceRecord(o, rank, sl)
  }

  /** The records of the offer ranked `rank`: one per slice, in slice order. */
  function OfferRecords(o: Offer, rank: int): seq<RankedFlight>
    requires Rankable(o)
  {
    MapSeq(SliceFn(o, rank), o.slices)
  }

  /** The records of the first `n` ranked offers, the offer at index `i` ranked `i + 1`. */
  function RankedUpTo(top: seq<Offer>, n: int): seq<RankedFlight>
    requires 0 <= n <= |top| && AllRankable(top)
    decreases n
  {
    if n == 0 then [] else RankedUpTo(top, n - 1) + OfferRecords(top[n - 1], n)
  }

  /** The ranker's result on the offers of a response; `None` stands for a
      response without `data` or without `offers`. */
  function TopCheapest(offers: Option<seq<Offer>>, topN: int, toFloat: string -> Option<Amount>): seq<RankedFlight>
    requires offers.Some? ==> Coercible(offers.value) && AllRankable(TopOffers(CoerceAll(offers.value, toFloat), topN))
  {
    if offers.None? || offers.value == [] then []
    else
      var top := TopOffers(CoerceAll(offers.value, toFloat), topN);
      RankedUpTo(top, |top|)
  }

  /** The records of an offer are those of its slices, in order. */
  lemma OfferRecordsSlices(o: Offer, rank: int)
    requires Rankable(o)
    ensures var recs := OfferRecords(o, rank);
            |recs| == |o.slices| && forall k :: 0 <= k < |recs| ==> recs[k] == SliceRecord(o, rank, o.slices[k])
  {
    MapSeqIndexed(SliceFn(o, rank), o.slices);
  }

  /** The record of a ranked offer: its rank, its price and its currency. */
  predicate RecordOf(rec: RankedFlight, o: Offer, rank: int)
  {
    rec.rank == rank && rec.price == PriceKey(o) && rec.currency == CurrencyOf(o)
  }

  /** Every record of an offer carries its rank, price and currency. */
  lemma OfferRecordsSpec(o: Offer, rank: int)
    requires Rankable(o)
    ensures var recs := OfferRecords(o, rank);
            |recs| == |o.slices| && forall k :: 0 <= k < |recs| ==> RecordOf(recs[k], o, rank)
  {
    OfferRecordsSlices(o, rank);
  }

  /** The number of slices of the first `n` offers. */
  function SliceCount(top: seq<Offer>, n: int): nat
    requires 0 <= n <= |top|
    decreases n
  {
    if n == 0 then 0 else SliceCount(top, n - 1) + |top[n - 1].slices|
  }

  /** The currency text of an offer's records. */
  function CurrencyOf(o: Offer): string
  {
    Show(GetOr(o.totalCurrency, "USD"))
  }

  /** There is one record per slice of the first `n` offers, every record has a
      rank in `1..n` and is a record of the offer of that rank, and the ranks
      never decrease. */
  lemma {:induction false} RankedUpToSpec(top: seq<Offer>, n: int)
    requires 0 <= n <= |top| && AllRankable(top)
    ensures var rs := RankedUpTo(top, n);
            && |rs| == SliceCount(top, n)
            && (forall i :: 0 <= i < |rs| ==> 1 <= rs[i].rank <= n && RecordOf(rs[i], top[rs[i].rank - 1], rs[i].rank))
            && (forall i, j :: 0 <= i < j < |rs| ==> rs[i].rank <= rs[j].rank)
  {
    if n > 0 {
      RankedUpToSpec(top, n - 1);
      var prev := RankedUpTo(top, n - 1);
      var o := top[n - 1];
      var recs := OfferRecords(o, n);
      OfferRecordsSpec(o, n);
      AppendRanked(top, prev, recs, n);
    }
  }

  /** The step of RankedUpToSpec: appending the records of the offer ranked `n`. */
  lemma AppendRanked(top: seq<Offer>, prev: seq<RankedFlight>, recs: seq<RankedFlight>, n: int)
    requires 1 <= n <= |top|
    requires forall i :: 0 <= i < |prev| ==> 1 <= prev[i].rank <= n - 1 && RecordOf(prev[i], top[prev[i].rank - 1], prev[i].rank)
    requires forall i, j :: 0 <= i < j < |prev| ==> prev[i].rank <= prev[j].rank
    requires forall k :: 0 <= k < |recs| ==> RecordOf(recs[k], top[n - 1], n)
    ensures var rs := prev + recs;
            && (forall i :: 0 <= i < |rs| ==> 1 <= rs[i].rank <= n && RecordOf(rs[i], top[rs[i].rank - 1], rs[i].rank))
            && (forall i, j :: 0 <= i < j < |rs| ==> rs[i].rank <= rs[j].rank)
  {
    var rs := prev + recs;
    forall i | 0 <= i < |rs| ensures 1 <= rs[i].rank <= n && RecordOf(rs[i], top[rs[i].rank - 1], rs[i].rank) {
      if i < |prev| {
        assert rs[i] == prev[i];
      } else {
        assert rs[i] == recs[i - |prev|];
      }
    }
  }

  /** The ranked records are in ascending order of price, and their ranks
      never decrease and are within `1..topN` (within `1..|offers| + topN` for a
      negative `topN`, which drops offers from the end). */
  lemma TopCheapestAscending(offers: seq<Offer>, topN: int, toFloat: string -> Option<Amount>)
    requires Coercible(offers) && AllRankable(TopOffers(CoerceAll(offers, toFloat), topN))
    ensures var rs := TopCheapest(Some(offers), topN, toFloat);
            && (forall i :: 0 <= i < |rs| ==> 1 <= rs[i].rank && (if topN >= 0 then rs[i].rank <= topN else rs[i].rank <= |offers| + topN))
            && (forall i, j :: 0 <= i < j < |rs| ==> rs[i].rank <= rs[j].rank && Le(rs[i].price, rs[j].price))
  {
    if offers != [] {
      var top := TopOffers(CoerceAll(offers, toFloat), topN);
      TopOffersSorted(offers, topN, toFloat);
      RankedUpToSpec(top, |top|);
      AscendingByRank(top, RankedUpTo(top, |top|));
      assert TopCheapest(Some(offers), topN, toFloat) == RankedUpTo(top, |top|);
    }
  }

  /** The offers the ranker keeps are sorted by price, and there are at most
      `top_n` of them (Python's `[:top_n]` drops `-top_n` from the end when
      `top_n` is negative). */
  lemma TopOffersSorted(offers: seq<Offer>, topN: int, toFloat: string -> Option<Amount>)
    requires Coercible(offers)
    ensures var top := TopOffers(CoerceAll(offers, toFloat), topN);
            && SortedBy(top, PriceKey)
            && (top != [] ==> |top| <= if topN >= 0 then topN else |offers| + topN)
  {
    var coerced := CoerceAll(offers, toFloat);
    var sorted := SortBy(coerced, PriceKey);
    var top := TopOffers(coerced, topN);
    assert top == PyPrefix(sorted, topN) == sorted[..|top|];
  }

  /** Records ordered by the rank of offers sorted by price are ordered by price. */
  lemma AscendingByRank(top: seq<Offer>, rs: seq<RankedFlight>)
    requires SortedBy(top, PriceKey)
    requires forall i :: 0 <= i < |rs| ==> 1 <= rs[i].rank <= |top| && RecordOf(rs[i], top[rs[i].rank - 1], rs[i].rank)
    requires forall i, j :: 0 <= i < j < |rs| ==> rs[i].rank <= rs[j].rank
    ensures forall i, j :: 0 <= i < j < |rs| ==> Le(rs[i].price, rs[j].price)
  {
    forall i, j | 0 <= i < j < |rs| ensures Le(rs[i].price, rs[j].price) {
      var a, b := rs[i].rank - 1, rs[j].rank - 1;
      if a < b {
        assert Le(PriceKey(top[a]), PriceKey(top[b]));
      }
    }
  }

  /** The per-segment loop. */
  method SegmentDetails(segments: seq<Segment>) returns (details: seq<SegmentDetail>)
    requires forall k :: 0 <= k < |segments| ==> SegmentRankable(segments[k])
    ensures details == MapSeq(DetailFn(), segments)
  {
    details := [];
    var k := 0;
    while k < |segments|
      invariant 0 <= k <= |segments|
      invariant details == MapSeq(DetailFn(), segments[..k])
    {
      MapSeqSnoc(DetailFn(), segments, k);
      details := details + [Detail(segments[k])];
      k := k + 1;
    }
    assert segments[..k] == segments;
  }

  /** The per-slice loop of one ranked offer. */
  method RankOffer(offer: Offer, rank: int) returns (records: seq<RankedFlight>)
    requires Rankable(offer)
    ensures records == OfferRecords(offer, rank)
  {
    var totalPrice := PriceKey(offer);
    var currency := CurrencyOf(offer);
    var slices := offer.slices;
    records := [];
    var k := 0;
    while k < |slices|
      invariant 0 <= k <= |slices|
      invariant records == MapSeq(SliceFn(offer, rank), slices[..k])
    {
      var flightSlice := slices[k];
      var details := SegmentDetails(flightSlice.segments);
      MapSeqSnoc(SliceFn(offer, rank), slices, k);
      records := records + [RankedFlight(rank, currency, totalPrice, flightSlice.origin.name, flightSlice.destination.name, details)];
      k := k + 1;
    }
    assert slices[..k] == slices;
  }

  /** The ranker, step by step: the early return, the in-place coercion, the
      sort, and the loop over the first `topN` offers with ranks from 1. */
  method GetTopCheapestFlights(offers: Option<array<Offer>>, topN: int, toFloat: string -> Option<Amount>)
    returns (results: seq<RankedFlight>)
    requires offers.Some? ==> Coercible(offers.value[..]) && AllRankable(TopOffers(CoerceAll(offers.value[..], toFloat), topN))
    modifies if offers.Some? then {offers.value} else {}
    ensures offers.Some? ==> offers.value[..] == CoerceAll(old(offers.value[..]), toFloat)
    ensures results == TopCheapest(if offers.Some? then Some(old(offers.value[..])) else None, topN, toFloat)
    ensures offers.None? || offers.value.Length == 0 ==> results == []
  {
    if offers.None? || offers.value.Length == 0 {
      return [];
    }
    var data := offers.value;
    CoerceAmounts(data, toFloat);
    var sortedOffers := SortBy(data[..], PriceKey);
    assert PyPrefix(sortedOffers, topN) == TopOffers(data[..], topN);
    var top := PyPrefix(sortedOffers, topN);
    results := [];
    var idx := 0;
    while idx < |top|
      invariant 0 <= idx <= |top|
      invariant results == RankedUpTo(top, idx)
      invariant data[..] == CoerceAll(old(data[..]), toFloat)
    {
      var records := RankOffer(top[idx], idx + 1);
      results := results + records;
      idx := idx + 1;
    }
  }
}
