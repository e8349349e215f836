/** The amenities bar chart: five counters folded over the listings. */
module AmenitiesChart {

  /** The listing fields the chart reads. */
  datatype Listing = Listing(parking: bool, offer: bool, furnished: bool, kind: string)

  /** The five bars, in chart order. */
  datatype Feature = CarParking | Discount | Furnished | Rent | Sell

  /** Whether a listing adds one to a bar. */
  predicate Has(l: Listing, f: Feature)
  {
    match f
    case CarParking => l.parking
    case Discount => l.offer
    case Furnished => l.furnished
    case Rent => l.kind == "rent"
    case Sell => l.kind == "sell"
  }

  /** The number of listings that add one to bar `f`. */
  function Count(listings: seq<Listing>, f: Feature): nat
  {
    if listings == [] then 0
    else Count(listings[..|listings| - 1], f) + (if Has(listings[|listings| - 1], f) then 1 else 0)
  }

  /** No bar exceeds the number of listings, and since a listing is never both 'rent' and
      'sell', neither do the two type bars together. */
  lemma {:induction false} CountBounds(listings: seq<Listing>)
    ensures forall f :: Count(listings, f) <= |listings|
    ensures Count(listings, Rent) + Count(listings, Sell) <= |listings|
  {
    if listings != [] {
      CountBounds(listings[..|listings| - 1]);
    }
  }

  /** The component body: all counters start at 0, the `forEach` bumps each counter whose
      condition holds, and the bar data is `[carParking, discount, furnished, rent, sell]`. */
  method BarData(listings: seq<Listing>) returns (data: seq<nat>)
    ensures data == [Count(listings, CarParking), Count(listings, Discount), Count(listings, Furnished),
                     Count(listings, Rent), Count(listings, Sell)]
    ensures data[3] + data[4] <= |listings|
  {
    var carParking, discount, furnished, rent, sell := 0, 0, 0, 0, 0;
    var k := 0;
    while k < |listings|
      invariant 0 <= k <= |listings|
      invariant carParking == Count(listings[..k], CarParking) && discount == Count(listings[..k], Discount)
      invariant furnished == Count(listings[..k], Furnished)
      invariant rent == Count(listings[..k], Rent) && sell == Count(listings[..k], Sell)
    {
      var listing := listings[k];
      assert listings[..k + 1][..k] == listings[..k];
      if listing.parking { carParking := carParking + 1; }
      if listing.offer { discount := discount + 1; }
      if listing.furnished { furnished := furnished + 1; }
      if listing.kind == "rent" { rent := rent + 1; }
      if listing.kind == "sell" { sell := sell + 1; }
      k := k + 1;
    }
    assert listings[..k] == listings;
    CountBounds(listings);
    data := [carParking, discount, furnished, rent, sell];
  }
}
