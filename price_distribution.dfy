/** The price-distribution chart: a classifier of prices into four half-open ranges per
    listing type, the per-range tallies, and the two totals. Prices are whole numbers. */
module PriceDistribution {
  import opened Common

  /** One chart input `{ price, type, rent, sell }`; `rent` and `sell` may be missing. */
  datatype PricePoint = PricePoint(price: int, kind: string, rent: Option<int>, sell: Option<int>)

  /** `x || 0` on a number that may be missing. */
  function OrZero(o: Option<int>): int
  {
    match o
    case Some(v) => v
    case None => 0
  }

  predicate IsRent(kind: string)
  {
    kind == "rent"
  }

  const RentBounds: seq<int> := [500, 1000, 1500]
  const SellBounds: seq<int> := [50000, 100000, 200000]
  const RentLabels: seq<string> := ["<500", "500\U{2013}999", "1000\U{2013}1499", "1500+"]
  const SellLabels: seq<string> := ["<50k", "50k\U{2013}99k", "100k\U{2013}199k", "200k+"]

  /** The three thresholds splitting the four ranges: the rent ones for 'rent', the sale ones
      for every other type. */
  function Bounds(kind: string): seq<int>
  {
    if IsRent(kind) then RentBounds else SellBounds
  }

  function Labels(kind: string): seq<string>
  {
    if IsRent(kind) then RentLabels else SellLabels
  }

  /** The position of the price's range: range `i` is `[Bounds[i-1], Bounds[i])`, the first
      one open below and the last one open above. */
  function Bucket(price: int, kind: string): (i: nat)
    ensures i < 4
    ensures i > 0 ==> Bounds(kind)[i - 1] <= price
    ensures i < 3 ==> price < Bounds(kind)[i]
  {
    var b := Bounds(kind);
    if price < b[0] then 0
    else if price < b[1] then 1
    else if price < b[2] then 2
    else 3
  }

  /** `categorizePrice`: one of the four rent labels for 'rent', one of the four sale labels
      otherwise, and exactly the label of the range the price falls in. */
  function CategorizePrice(price: int, kind: string): (range: string)
    ensures IsRent(kind) ==> range in RentLabels
    ensures !IsRent(kind) ==> range in SellLabels
    ensures forall i :: 0 <= i < 4 ==>
      (range == Labels(kind)[i] <==>
        (i == 0 || Bounds(kind)[i - 1] <= price) && (i == 3 || price < Bounds(kind)[i]))
  {
    Labels(kind)[Bucket(price, kind)]
  }

  /** A higher price never lands in an earlier range. */
  lemma BucketMonotone(p: int, q: int, kind: string)
    requires p <= q
    ensures Bucket(p, kind) <= Bucket(q, kind)
  {
  }

  // ---------------------------------------------------------------------------------------
  // The tallies

  /** `rentCounts` after the `forEach`: for each 'rent' record, its `rent || 0` is added to
      the count of its price range; other records are skipped. */
  function RentCounts(data: seq<PricePoint>): (c: seq<int>)
    ensures |c| == 4
  {
    if data == [] then [0, 0, 0, 0]
    else
      var c := RentCounts(data[..|data| - 1]);
      var d := data[|data| - 1];
      if IsRent(d.kind) then
        var i := Bucket(d.price, d.kind);
        c[i := c[i] + OrZero(d.rent)]
      else c
  }

  /** `sellCounts` after the `forEach`: the same for every record whose type is not 'rent',
      adding `sell || 0`. */
  function SellCounts(data: seq<PricePoint>): (c: seq<int>)
    ensures |c| == 4
  {
    if data == [] then [0, 0, 0, 0]
    else
      var c := SellCounts(data[..|data| - 1]);
      var d := data[|data| - 1];
      if !IsRent(d.kind) then
        var i := Bucket(d.price, d.kind);
        c[i := c[i] + OrZero(d.sell)]
      else c
  }

  /** The `forEach` over the chart data, updating the two dictionaries in place. */
  method Tally(data: seq<PricePoint>) returns (rentCounts: seq<int>, sellCounts: seq<int>)
    ensures rentCounts == RentCounts(data) && sellCounts == SellCounts(data)
  {
    rentCounts := [0, 0, 0, 0];
    sellCounts := [0, 0, 0, 0];
    var k := 0;
    while k < |data|
      invariant 0 <= k <= |data|
      invariant rentCounts == RentCounts(data[..k]) && sellCounts == SellCounts(data[..k])
    {
      var d := data[k];
      var range := Bucket(d.price, d.kind);
      assert data[..k + 1][..k] == data[..k];
      if IsRent(d.kind) {
        rentCounts := rentCounts[range := rentCounts[range] + OrZero(d.rent)];
      } else {
        sellCounts := sellCounts[range := sellCounts[range] + OrZero(d.sell)];
      }
      k := k + 1;
    }
    assert data[..k] == data;
  }

  /** The records of the given side, in order: the 'rent' ones (`rent` true) or all the others. */
  function OfSide(data: seq<PricePoint>, rent: bool): seq<PricePoint>
  {
    if data == [] then []
    else
      var init := OfSide(data[..|data| - 1], rent);
      var d := data[|data| - 1];
      if IsRent(d.kind) == rent then init + [d] else init
  }

  /** Records of another type never change the rent tally: it is the tally of the 'rent'
      records alone. */
  lemma {:induction false} RentCountsIgnoreOthers(data: seq<PricePoint>)
    ensures RentCounts(data) == RentCounts(OfSide(data, true))
  {
    if data != [] {
      var init := data[..|data| - 1];
      var d := data[|data| - 1];
      RentCountsIgnoreOthers(init);
      var r := OfSide(init, true);
      if IsRent(d.kind) {
        assert OfSide(data, true) == r + [d];
        assert (r + [d])[..|r + [d]| - 1] == r;
      } else {
        assert OfSide(data, true) == r;
      }
    }
  }

  /** 'rent' records never change the sale tally: it is the tally of the other records alone. */
  lemma {:induction false} SellCountsIgnoreRent(data: seq<PricePoint>)
    ensures SellCounts(data) == SellCounts(OfSide(data, false))
  {
    if data != [] {
      var init := data[..|data| - 1];
      var d := data[|data| - 1];
      SellCountsIgnoreRent(init);
      var r := OfSide(init, false);
      if !IsRent(d.kind) {
        assert OfSide(data, false) == r + [d];
        assert (r + [d])[..|r + [d]| - 1] == r;
      } else {
        assert OfSide(data, false) == r;
      }
    }
  }

  /** `Object.values(counts).reduce((acc, val) => acc + val, 0)`. */
  function Sum(s: seq<int>): int
  {
    if s == [] then 0 else Sum(s[..|s| - 1]) + s[|s| - 1]
  }

  /** `sum` of `rent || 0` over the 'rent' records (`rent` true) or of `sell || 0` over the
      others (`rent` false). */
  function SideTotal(data: seq<PricePoint>, rent: bool): int
  {
    if data == [] then 0
    else
      var d := data[|data| - 1];
      SideTotal(data[..|data| - 1], rent) +
        (if IsRent(d.kind) != rent then 0 else if rent then OrZero(d.rent) else OrZero(d.sell))
  }

  lemma {:induction false} SumUpdate(s: seq<int>, i: nat, v: int)
    requires i < |s|
    ensures Sum(s[i := s[i] + v]) == Sum(s) + v
  {
    var t := s[i := s[i] + v];
    if i < |s| - 1 {
      assert t[..|t| - 1] == s[..|s| - 1][i := s[i] + v];
      SumUpdate(s[..|s| - 1], i, v);
    } else {
      assert t[..|t| - 1] == s[..|s| - 1];
    }
  }

  /** `totalRent` is the sum of `rent || 0` over the 'rent' records and `totalSell` the sum of
      `sell || 0` over the others: every record's amount lands in exactly one range. */
  lemma {:induction false} TotalsAreSideSums(data: seq<PricePoint>)
    ensures Sum(RentCounts(data)) == SideTotal(data, true)
    ensures Sum(SellCounts(data)) == SideTotal(data, false)
  {
    if data != [] {
      var init := data[..|data| - 1];
      var d := data[|data| - 1];
      TotalsAreSideSums(init);
      var i := Bucket(d.price, d.kind);
      if IsRent(d.kind) {
        assert RentCounts(data) == RentCounts(init)[i := RentCounts(init)[i] + OrZero(d.rent)];
        SumUpdate(RentCounts(init), i, OrZero(d.rent));
        assert SellCounts(data) == SellCounts(init);
      } else {
        assert SellCounts(data) == SellCounts(init)[i := SellCounts(init)[i] + OrZero(d.sell)];
        SumUpdate(SellCounts(init), i, OrZero(d.sell));
        assert RentCounts(data) == RentCounts(init);
      }
    } else {
      assert Sum([0]) == 0 by { assert [0][..0] == []; }
      assert Sum([0, 0]) == 0 by { assert [0, 0][..1] == [0]; }
      assert Sum([0, 0, 0]) == 0 by { assert [0, 0, 0][..2] == [0, 0]; }
      assert Sum([0, 0, 0, 0]) == 0 by { assert [0, 0, 0, 0][..3] == [0, 0, 0]; }
    }
  }
}
