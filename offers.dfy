/** The raw flight offers of a search response, as the normaliser and the
    ranker read them, and the prices they are ordered by. */
module Offers {
  import opened Fields

  /** A Python float as a price: finite or one of the two infinities (NaN is not modelled). */
  datatype Amount = NegInfinity | Finite(value: real) | Infinity

  /** `a <= b` on floats (without NaN this is a total order). */
  predicate Le(a: Amount, b: Amount)
  {
    match (a, b)
    case (NegInfinity, _) => true
    case (_, Infinity) => true
    case (Finite(x), Finite(y)) => x <= y
    case _ => false
  }

  /** `a < ceiling` for a float `a` and a finite ceiling. */
  predicate Below(a: Amount, ceiling: real)
  {
    match a
    case NegInfinity => true
    case Finite(x) => x < ceiling
    case Infinity => false
  }

  lemma LeTotal(a: Amount, b: Amount)
    ensures Le(a, b) || Le(b, a)
  {
  }

  /** The `total_amount` key of an offer: missing, null, a numeric string, or a
      number (the ranker overwrites it with a number in place). */
  datatype RawAmount = AmountAbsent | AmountNull | AmountText(text: string) | AmountNumber(number: Amount)

  /** An `operating_carrier` or `marketing_carrier` object. */
  datatype Carrier = Carrier(name: Field, iataCode: Field, logoSymbolUrl: Field)

  /** The `{}` that `segment.get("operating_carrier", {})` falls back to. */
  const NoCarrier := Carrier(Absent, Absent, Absent)

  /** A segment; either carrier object may be missing from it altogether. */
  datatype Segment = Segment(
    originCode: string,
    destinationCode: string,
    departingAt: string,
    arrivingAt: string,
    operating: Option<Carrier>,
    marketing: Option<Carrier>,
    operatingFlightNumber: Field,
    marketingFlightNumber: Field)

  /** The `origin` or `destination` object of a slice. */
  datatype Place = Place(name: string, iataCode: string)

  datatype Slice = Slice(origin: Place, destination: Place, segments: seq<Segment>)

  datatype Offer = Offer(totalAmount: RawAmount, totalCurrency: Field, slices: seq<Slice>)

  /** `segment.get(key, {})` for a carrier key. */
  function CarrierOf(c: Option<Carrier>): Carrier
  {
    if c.Some? then c.value else NoCarrier
  }
}
