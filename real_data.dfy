/** analyze_real_data.py: the shop's products priced at base cost 1000 and
    food-cost share 0.30, with a fixed four-band tier ladder, a listing loop
    and a second loop that counts the tiers. */
module RealData {
  import opened Wrappers
  import opened Dicts
  import opened Tally
  import opened Tiers
  import Stats
  import RealProducts

  const BaseCost: real := 1000.0
  const IdealPct: real := 0.30

  /** The if/elif ladder: inclusive upper bounds 3990, 7990 and 9990. */
  function Ladder(price: real): string {
    if price <= 3990.0 then "≤3,990원"
    else if price <= 7990.0 then "≤7,990원"
    else if price <= 9990.0 then "≤9,990원"
    else ">9,990원"
  }

  /** The hard-coded ladder gives the same label as categorise_price with
      the default thresholds, for every price. */
  lemma LadderAgreesWithCategorise(price: real)
    ensures Categorise(price, DefaultTiers) == Ok(Ladder(price))
  {
    DefaultTierBands(price);
  }

  /** base_cost x ratio / ideal_pct. */
  function PriceOf(ratio: real): real {
    BaseCost * ratio / IdealPct
  }

  /** (price - cost) / price at that price: 0.70 for every non-zero ratio,
      whatever its sign. */
  lemma MarginOfRatio(ratio: real)
    requires ratio != 0.0
    ensures PriceOf(ratio) != 0.0
    ensures (PriceOf(ratio) - BaseCost * ratio) / PriceOf(ratio) == 0.7
  {
    var c := BaseCost * ratio;
    var p := PriceOf(ratio);
    assert p * IdealPct == c;
    assert p - c == p * 0.7;
  }

  /** What analyze_real_data computes, without the printing. */
  datatype Analysis = Analysis(
    prices: seq<real>, margins: seq<real>, listed: seq<string>,
    meanPrice: real, maxPrice: real, minPrice: real, meanMargin: real,
    tierCounts: Dict<string, nat>, tierShares: seq<(string, real)>)

  /** analyze_real_data over a product table. The listing loop appends one
      price and one margin per product; the second loop recomputes each tier
      and counts it, so the counts are the tally of the listed tiers. A zero
      ratio would divide by zero in the margin, and an empty table in the
      mean. */
  method AnalyzeRealData(products: seq<RealProducts.Product>) returns (a: Analysis)
    requires |products| > 0
    requires forall i :: 0 <= i < |products| ==> products[i].costRatio != 0.0
    ensures |a.prices| == |a.margins| == |a.listed| == |products|
    ensures forall i :: 0 <= i < |products| ==>
      && a.prices[i] == PriceOf(products[i].costRatio)
      && a.margins[i] == 0.7
      && a.listed[i] == Ladder(a.prices[i])
    ensures a.meanPrice == Stats.Mean(a.prices) && a.maxPrice == Stats.Max(a.prices) && a.minPrice == Stats.Min(a.prices)
    ensures a.minPrice <= a.meanPrice <= a.maxPrice
    ensures a.meanMargin == 0.7
    ensures a.tierCounts == Tally.Tally(a.listed)
    ensures Valid(a.tierCounts) && Total(a.tierCounts) == |products|
    ensures a.tierShares == Shares(a.tierCounts, |products|)
    ensures RealTotal(a.tierShares) == 100.0
  {
    var prices: seq<real> := [];
    var margins: seq<real> := [];
    var listed: seq<string> := [];
    for i := 0 to |products|
      invariant |prices| == |margins| == |listed| == i
      invariant forall j :: 0 <= j < i ==>
        prices[j] == PriceOf(products[j].costRatio) && margins[j] == 0.7 && listed[j] == Ladder(prices[j])
    {
      var price, tier := ListProduct(products[i].costRatio);
      var actualCost := BaseCost * products[i].costRatio;
      MarginOfRatio(products[i].costRatio);
      var margin := (price - actualCost) / price;
      prices := prices + [price];
      margins := margins + [margin];
      listed := listed + [tier];
    }
    Stats.MeanBetween(prices);
    Stats.ConstantStats(margins, 0.7);
    var counts := CountRecomputed(products);
    assert Ladders(products) == listed;
    var shares := Shares(counts, |products|);
    SharesSumTo100(counts, |products|);
    a := Analysis(prices, margins, listed, Stats.Mean(prices), Stats.Max(prices), Stats.Min(prices),
                  Stats.Mean(margins), counts, shares);
  }

  /** The price of one product and its rung on the ladder; both loops
      compute them the same way. */
  method ListProduct(ratio: real) returns (price: real, tier: string)
    ensures price == PriceOf(ratio) && tier == Ladder(price)
  {
    var actualCost := BaseCost * ratio;
    price := actualCost / IdealPct;
    if price <= 3990.0 {
      tier := "≤3,990원";
    } else if price <= 7990.0 {
      tier := "≤7,990원";
    } else if price <= 9990.0 {
      tier := "≤9,990원";
    } else {
      tier := ">9,990원";
    }
  }

  /** The tier of each product, recomputed from its ratio. */
  function Ladders(products: seq<RealProducts.Product>): (r: seq<string>)
    ensures |r| == |products|
    ensures forall i :: 0 <= i < |products| ==> r[i] == Ladder(PriceOf(products[i].costRatio))
  {
    seq(|products|, i requires 0 <= i < |products| => Ladder(PriceOf(products[i].costRatio)))
  }

  /** The second loop: recompute each product's tier and count it. */
  method CountRecomputed(products: seq<RealProducts.Product>) returns (counts: Dict<string, nat>)
    ensures counts == Tally.Tally(Ladders(products))
    ensures Valid(counts) && Total(counts) == |products|
  {
    counts := Empty();
    for i := 0 to |products|
      invariant counts == Tally.Tally(Ladders(products)[..i])
    {
      var price, tier := ListProduct(products[i].costRatio);
      assert tier == Ladders(products)[i];
      assert Ladders(products)[..i + 1] == Ladders(products)[..i] + [tier];
      counts := Put(counts, tier, GetOr(counts, tier, 0) + 1);
    }
    assert Ladders(products)[..|products|] == Ladders(products);
    TallyCounts(Ladders(products));
    TallyTotal(Ladders(products));
  }

  /** Ratios in the table's range [0.223, 0.618] price at most 2060 won,
      which is in the lowest band: the printed insight that every product is
      at most 3,990 won holds for such a table, and the distribution has
      that one band. */
  lemma TableInLowestBand(products: seq<RealProducts.Product>, a: Analysis)
    requires |products| > 0 && |a.prices| == |a.listed| == |products|
    requires forall i :: 0 <= i < |products| ==> 0.223 <= products[i].costRatio <= 0.618
    requires forall i :: 0 <= i < |products| ==>
      a.prices[i] == PriceOf(products[i].costRatio) && a.listed[i] == Ladder(a.prices[i])
    requires a.tierCounts == Tally.Tally(a.listed)
    ensures forall i :: 0 <= i < |products| ==> a.prices[i] <= 2060.0 && a.listed[i] == "≤3,990원"
    ensures forall t :: t in a.tierCounts.entries <==> t == "≤3,990원"
  {
    TallyOfConstant(a.listed, "≤3,990원");
  }

  /** The shop's sixteen products all price at most 2060 won and so fall in
      the lowest band; with TableInLowestBand, analyze_real_data on them
      reports that one band only. */
  lemma ShopTableInLowestBand()
    ensures forall i :: 0 <= i < |RealProducts.Products| ==>
      RealProducts.Products[i].costRatio != 0.0 &&
      PriceOf(RealProducts.Products[i].costRatio) <= 2060.0 &&
      Ladder(PriceOf(RealProducts.Products[i].costRatio)) == "≤3,990원"
  {
    RealProducts.ProductsWellFormed();
  }
}
