/** Ratio mode (menu_pricing_real.py and real_menu_pricing.py): each menu
    item carries a food-cost ratio, its cost is base_cost x ratio, and its
    price, margin and tier are written into the item's own fields. The two
    scripts declare the same MenuItem class; it is modelled once. */
module RatioPricing {
  import opened Wrappers
  import opened Text
  import opened Dicts
  import opened Tally
  import opened Tiers
  import Stats
  import MenuPricing
  import RealProducts

  class MenuItem {
    var name: string
    var dailySales: real
    var costRatio: real
    var suggestedPrice: real
    var grossMargin: real
    var tier: string

    /** A new item: price and margin 0.0, no tier yet. */
    constructor (name: string, dailySales: real, costRatio: real)
      ensures this.name == name && this.dailySales == dailySales && this.costRatio == costRatio
      ensures suggestedPrice == 0.0 && grossMargin == 0.0 && tier == ""
    {
      this.name := name;
      this.dailySales := dailySales;
      this.costRatio := costRatio;
      suggestedPrice := 0.0;
      grossMargin := 0.0;
      tier := "";
    }

    /** calculate_pricing: the price at which base_cost x ratio is the share
        idealPct of it; the margin is written only for a positive price. The
        share is not checked, so a zero share divides by zero. */
    method CalculatePricing(baseCost: real, idealPct: real)
      requires idealPct != 0.0
      modifies this
      ensures suggestedPrice == PriceAtShare(baseCost, costRatio, idealPct)
      ensures suggestedPrice > 0.0 ==> MenuPricing.GrossMargin(suggestedPrice, baseCost * costRatio) == Ok(grossMargin)
      ensures suggestedPrice <= 0.0 ==> grossMargin == old(grossMargin)
      ensures suggestedPrice > 0.0 ==> grossMargin == 1.0 - idealPct
      ensures 0.0 < idealPct < 1.0 && baseCost * costRatio > 0.0 ==> grossMargin == 1.0 - idealPct
      ensures name == old(name) && dailySales == old(dailySales) && costRatio == old(costRatio)
      ensures tier == old(tier)
    {
      var actualCost := baseCost * costRatio;
      var price := actualCost / idealPct;
      suggestedPrice := price;
      // gross_margin is (price - cost) / price, written only for a positive price
      var margin := MenuPricing.GrossMargin(price, actualCost);
      if margin.Ok? {
        grossMargin := margin.value;
      }
      assert price * idealPct == actualCost;
      if price > 0.0 {
        MenuPricing.MarginAtShare(price, actualCost, idealPct);
      }
      if 0.0 < idealPct < 1.0 && actualCost > 0.0 {
        MenuPricing.SignOfQuotient(price, idealPct, actualCost);
      }
      assert baseCost * costRatio == actualCost;
    }

    /** categorize_tier: only the tier changes, to the label of the first
        threshold at or above the price; with no thresholds it raises
        IndexError and leaves the tier as it was. */
    method CategorizeTier(tiers: seq<real>) returns (r: Result<()>)
      modifies this
      ensures r.Err? <==> |tiers| == 0
      ensures r.Ok? ==> Categorise(suggestedPrice, tiers) == Ok(tier)
      ensures r.Err? ==> r.error == EmptyTiers && tier == old(tier)
      ensures name == old(name) && dailySales == old(dailySales) && costRatio == old(costRatio)
      ensures suggestedPrice == old(suggestedPrice) && grossMargin == old(grossMargin)
    {
      var named := CategorisePrice(suggestedPrice, tiers);
      if named.Err? {
        return Err(named.error);
      }
      tier := named.value;
      return Ok(());
    }
  }

  // ---- read_excel_data: which spreadsheet rows become menu items ----

  /** A spreadsheet cell: empty (NaN), or a value with its str() text and,
      when float() accepts it, its number. */
  datatype ExcelCell = Blank | Value(text: string, number: Option<real>)

  /** What one data row gives: an item, nothing, or an exception that the
      outer handler turns into an empty result. */
  datatype RowOutcome = Accept(product: RealProducts.Product) | Skip | Abort

  /** How `row[0]` and `row[-1]` find their cells. The sheet is read without
      a header, so a row's index holds the column labels 0, 1, 2, ... and the
      subscript looks a label up: `row[-1]` asks for the label -1, which no
      column has (ByLabel, the code as it stands). ByPosition reads `row[-1]`
      as the last cell, as the comment on the check intends. */
  datatype Lookup = ByLabel | ByPosition

  /** The row rule with label lookup: a blank name cell skips the row before
      `row[-1]` is evaluated; otherwise `row[-1]` raises KeyError outside the
      inner handler, and so does `row[0]` on a row with no cells. */
  function ExcelRowByLabel(row: seq<ExcelCell>): (r: RowOutcome)
    ensures r == Skip <==> |row| > 0 && row[0].Blank?
    ensures !r.Accept?
  {
    if |row| > 0 && row[0].Blank? then Skip else Abort
  }

  /** The row rule with positional lookup: both the name cell and the last
      cell must be filled; float() failures skip the row; the item is kept
      only with a non-empty stripped name and a positive ratio. A missing
      sales cell reads as 0.0. */
  function ExcelRow(row: seq<ExcelCell>): (r: RowOutcome)
    ensures r.Accept? <==>
      && |row| >= 2 && row[0].Value? && row[|row| - 1].Value?
      && Strip(row[0].text) != []
      && (row[1].Blank? || row[1].number.Some?)
      && row[|row| - 1].number.Some? && row[|row| - 1].number.value > 0.0
    ensures r.Accept? ==> r.product.name == Strip(row[0].text) && Some(r.product.costRatio) == row[|row| - 1].number
    ensures r.Accept? ==> r.product.dailySales == if row[1].Blank? then 0.0 else row[1].number.value
    ensures r == Abort <==> |row| < 2 && !(|row| == 1 && row[0].Blank?)
  {
    if |row| == 0 then Abort
    else if row[0].Blank? || row[|row| - 1].Blank? then Skip
    else if |row| < 2 then Abort
    else
      var name := Strip(row[0].text);
      var sales := if row[1].Blank? then Some(0.0) else row[1].number;
      var ratio := row[|row| - 1].number;
      if sales.None? || ratio.None? then Skip
      else if name != [] && ratio.value > 0.0 then Accept(RealProducts.Product(name, sales.value, ratio.value))
      else Skip
  }

  function RowOutcomeOf(lookup: Lookup, row: seq<ExcelCell>): (r: RowOutcome)
    ensures r.Accept? ==> r.product.name != [] && r.product.costRatio > 0.0
  {
    match lookup
    case ByLabel => ExcelRowByLabel(row)
    case ByPosition => ExcelRow(row)
  }

  /** What each data row gives, in row order. */
  function Outcomes(lookup: Lookup, rows: seq<seq<ExcelCell>>): (r: seq<RowOutcome>)
    ensures |r| == |rows|
    ensures forall i :: 0 <= i < |rows| ==> r[i] == RowOutcomeOf(lookup, rows[i])
  {
    seq(|rows|, i requires 0 <= i < |rows| => RowOutcomeOf(lookup, rows[i]))
  }

  /** The loop over the row outcomes: accepted products in order, or None
      once a row aborts the read. */
  function Collect(outcomes: seq<RowOutcome>): Option<seq<RealProducts.Product>> {
    if outcomes == [] then Some([])
    else
      match Collect(outcomes[..|outcomes| - 1])
      case None => None
      case Some(products) =>
        match outcomes[|outcomes| - 1]
        case Abort => None
        case Skip => Some(products)
        case Accept(p) => Some(products + [p])
  }

  /** Collecting succeeds exactly when no outcome aborts, and then holds
      the product of every accepted outcome and nothing else. */
  lemma {:induction false} CollectFacts(outcomes: seq<RowOutcome>)
    ensures Collect(outcomes).Some? <==> Abort !in outcomes
    ensures Collect(outcomes).Some? ==> forall p :: p in Collect(outcomes).value <==> Accept(p) in outcomes
  {
    if outcomes != [] {
      var front := outcomes[..|outcomes| - 1];
      CollectFacts(front);
      assert outcomes == front + [outcomes[|outcomes| - 1]];
    }
  }

  /** Outcomes that accept nothing collect to nothing. */
  lemma {:induction false} CollectNoAccept(outcomes: seq<RowOutcome>)
    requires forall i :: 0 <= i < |outcomes| ==> !outcomes[i].Accept?
    ensures Collect(outcomes) == None || Collect(outcomes) == Some([])
  {
    if outcomes != [] {
      CollectNoAccept(outcomes[..|outcomes| - 1]);
    }
  }

  lemma {:induction false} CollectPrefixNone(outcomes: seq<RowOutcome>, n: nat)
    requires n <= |outcomes| && Collect(outcomes[..n]).None?
    ensures Collect(outcomes).None?
    decreases |outcomes| - n
  {
    if n < |outcomes| {
      assert outcomes[..n + 1][..n] == outcomes[..n];
      CollectPrefixNone(outcomes, n + 1);
    } else {
      assert outcomes[..n] == outcomes;
    }
  }

  /** The products read from data rows, in order, or None when a row raises
      something other than ValueError/TypeError. */
  function ExcelProducts(lookup: Lookup, rows: seq<seq<ExcelCell>>): (r: Option<seq<RealProducts.Product>>)
    ensures r.Some? ==> forall p :: p in r.value ==> p.name != [] && p.costRatio > 0.0
  {
    CollectFacts(Outcomes(lookup, rows));
    Collect(Outcomes(lookup, rows))
  }

  /** The header rows (indices 0 to 2) are never read. */
  function DataRows(rows: seq<seq<ExcelCell>>): seq<seq<ExcelCell>> {
    if |rows| <= 3 then [] else rows[3..]
  }

  /** The read succeeds exactly when no row aborts it, and then it holds
      the product of every accepted row and nothing else. */
  lemma ExcelProductsFromRows(lookup: Lookup, rows: seq<seq<ExcelCell>>)
    ensures ExcelProducts(lookup, rows).Some? <==> forall i :: 0 <= i < |rows| ==> RowOutcomeOf(lookup, rows[i]) != Abort
    ensures ExcelProducts(lookup, rows).Some? ==>
      forall p :: p in ExcelProducts(lookup, rows).value <==> exists i :: 0 <= i < |rows| && RowOutcomeOf(lookup, rows[i]) == Accept(p)
  {
    var outcomes := Outcomes(lookup, rows);
    CollectFacts(outcomes);
    assert forall o :: o in outcomes <==> exists i :: 0 <= i < |rows| && RowOutcomeOf(lookup, rows[i]) == o;
  }

  /** With label lookup no sheet yields a product: the read is empty when
      every data row has a blank name cell, and aborts otherwise. */
  lemma ByLabelReadsNothing(rows: seq<seq<ExcelCell>>)
    ensures ExcelProducts(ByLabel, rows) == Some([]) <==> forall i :: 0 <= i < |rows| ==> |rows[i]| > 0 && rows[i][0].Blank?
    ensures ExcelProducts(ByLabel, rows) == None <==> exists i :: 0 <= i < |rows| && !(|rows[i]| > 0 && rows[i][0].Blank?)
  {
    var outcomes := Outcomes(ByLabel, rows);
    CollectFacts(outcomes);
    CollectNoAccept(outcomes);
    assert Abort in outcomes <==> exists i :: 0 <= i < |rows| && !(|rows[i]| > 0 && rows[i][0].Blank?) by {
      if Abort in outcomes {
        var i :| 0 <= i < |rows| && outcomes[i] == Abort;
      }
    }
  }

  /** A sheet of three header rows and one product row, `김밥` selling 10 a
      day at ratio 0.4: label lookup aborts the read, positional lookup
      reads the product. */
  lemma NamedRowAbortsByLabel()
    ensures var sheet := [[Blank, Blank, Blank], [Blank, Blank, Blank], [Blank, Blank, Blank],
                          [Value("김밥", None), Value("10", Some(10.0)), Value("0.4", Some(0.4))]];
      && ExcelProducts(ByLabel, DataRows(sheet)) == None
      && ExcelProducts(ByPosition, DataRows(sheet)) == Some([RealProducts.Product("김밥", 10.0, 0.4)])
  {
    var sheet := [[Blank, Blank, Blank], [Blank, Blank, Blank], [Blank, Blank, Blank],
                  [Value("김밥", None), Value("10", Some(10.0)), Value("0.4", Some(0.4))]];
    var rows := DataRows(sheet);
    var p := RealProducts.Product("김밥", 10.0, 0.4);
    assert rows == [sheet[3]];
    StripUnpadded("김밥");
    assert Outcomes(ByLabel, rows) == [Abort];
    assert Outcomes(ByPosition, rows) == [Accept(p)];
    assert [Accept(p)][..0] == [Abort][..0] == [];
    assert [] + [p] == [p];
  }

  /** read_excel_data, from the parsed sheet to fresh menu items. With the
      label lookup the code performs, the result is always empty. */
  method ReadExcelData(lookup: Lookup, sheet: seq<seq<ExcelCell>>) returns (items: seq<MenuItem>)
    ensures ExcelProducts(lookup, DataRows(sheet)).None? ==> items == []
    ensures ExcelProducts(lookup, DataRows(sheet)).Some? ==> NewItemsFor(items, ExcelProducts(lookup, DataRows(sheet)).value)
    ensures lookup == ByLabel ==> items == []
    ensures forall i :: 0 <= i < |items| ==> fresh(items[i])
  {
    var rows := DataRows(sheet);
    var outcomes := Outcomes(lookup, rows);
    var products: seq<RealProducts.Product> := [];
    for i := 0 to |rows|
      invariant Collect(outcomes[..i]) == Some(products)
    {
      assert outcomes[..i + 1][..i] == outcomes[..i];
      var outcome := outcomes[i];
      if outcome.Abort? {
        CollectPrefixNone(outcomes, i + 1);
        assert ExcelProducts(lookup, rows).None?;
        return [];
      }
      if outcome.Accept? {
        products := products + [outcome.product];
      }
    }
    assert outcomes[..|rows|] == outcomes;
    assert ExcelProducts(lookup, rows) == Some(products);
    if lookup == ByLabel {
      ByLabelReadsNothing(rows);
    }
    items := NewItems(products);
  }

  /** Distinct items, one per product, with the product's name, sales and
      ratio and the constructor's defaults elsewhere. */
  ghost predicate NewItemsFor(items: seq<MenuItem>, products: seq<RealProducts.Product>)
    reads items
  {
    && |items| == |products|
    && (forall i, j :: 0 <= i < j < |items| ==> items[i] != items[j])
    && forall i :: 0 <= i < |items| ==>
         && items[i].name == products[i].name
         && items[i].dailySales == products[i].dailySales
         && items[i].costRatio == products[i].costRatio
         && items[i].suggestedPrice == 0.0 && items[i].grossMargin == 0.0 && items[i].tier == ""
  }

  /** The append loop shared by both loaders. */
  method NewItems(products: seq<RealProducts.Product>) returns (items: seq<MenuItem>)
    ensures NewItemsFor(items, products)
    ensures forall i :: 0 <= i < |items| ==> fresh(items[i])
  {
    items := [];
    for i := 0 to |products|
      invariant |items| == i
      invariant forall j :: 0 <= j < i ==> fresh(items[j])
      invariant NewItemsFor(items, products[..i])
    {
      var item := new MenuItem(products[i].name, products[i].dailySales, products[i].costRatio);
      items := items + [item];
    }
    assert products[..|products|] == products;
  }

  /** real_menu_pricing.load_real_data: one new item per product of the
      shop's table, in table order. */
  method LoadRealData() returns (items: seq<MenuItem>)
    ensures NewItemsFor(items, RealProducts.Products)
    ensures forall i :: 0 <= i < |items| ==> fresh(items[i])
  {
    items := NewItems(RealProducts.Products);
  }

  // ---- main: price and tier every item ----

  /** The columns of the items, in order. */
  function TierColumn(items: seq<MenuItem>): (r: seq<string>)
    reads items
    ensures |r| == |items|
    ensures forall i :: 0 <= i < |items| ==> r[i] == items[i].tier
  {
    if items == [] then [] else TierColumn(items[..|items| - 1]) + [items[|items| - 1].tier]
  }

  function PriceColumn(items: seq<MenuItem>): (r: seq<real>)
    reads items
    ensures |r| == |items|
    ensures forall i :: 0 <= i < |items| ==> r[i] == items[i].suggestedPrice
  {
    if items == [] then [] else PriceColumn(items[..|items| - 1]) + [items[|items| - 1].suggestedPrice]
  }

  function MarginColumn(items: seq<MenuItem>): (r: seq<real>)
    reads items
    ensures |r| == |items|
    ensures forall i :: 0 <= i < |items| ==> r[i] == items[i].grossMargin
  {
    if items == [] then [] else MarginColumn(items[..|items| - 1]) + [items[|items| - 1].grossMargin]
  }

  /** The price at which the cost base_cost x ratio is the share idealPct. */
  function PriceAtShare(baseCost: real, ratio: real, idealPct: real): real
    requires idealPct != 0.0
  {
    baseCost * ratio / idealPct
  }

  /** An item whose tier is the label of its price. */
  ghost predicate Tiered(item: MenuItem, tiers: seq<real>)
    reads item
  {
    Categorise(item.suggestedPrice, tiers) == Ok(item.tier)
  }

  /** An item after calculate_pricing at the share idealPct: its price is
      the one at that share, and a positive price carries the margin
      1 - idealPct, whatever the sign of the share. */
  ghost predicate PricedAt(item: MenuItem, baseCost: real, idealPct: real)
    reads item
  {
    && idealPct != 0.0
    && item.suggestedPrice == PriceAtShare(baseCost, item.costRatio, idealPct)
    && (item.suggestedPrice > 0.0 ==> item.grossMargin == 1.0 - idealPct)
  }

  /** An item priced at the share idealPct and tiered against tiers. */
  ghost predicate Priced(item: MenuItem, baseCost: real, idealPct: real, tiers: seq<real>)
    reads item
  {
    PricedAt(item, baseCost, idealPct) && Tiered(item, tiers)
  }

  /** The loop of main: calculate_pricing then categorize_tier on each item.
      Afterwards every item's tier is the tier of its own price, and an item
      whose price is not positive keeps its margin. With no thresholds the
      first item is priced before categorize_tier raises, and the rest are
      left alone. */
  method PriceAll(items: seq<MenuItem>, baseCost: real, idealPct: real, tiers: seq<real>) returns (r: Result<()>)
    requires idealPct != 0.0
    requires forall i, j :: 0 <= i < j < |items| ==> items[i] != items[j]
    modifies set x | x in items
    ensures r.Err? <==> |tiers| == 0 && |items| > 0
    ensures r.Ok? ==> forall i :: 0 <= i < |items| ==> Priced(items[i], baseCost, idealPct, tiers)
    ensures r.Err? ==>
      && PricedAt(items[0], baseCost, idealPct) && items[0].tier == old(items[0].tier)
      && forall j :: 0 < j < |items| ==> unchanged(items[j])
    ensures forall i :: 0 <= i < |items| && items[i].suggestedPrice <= 0.0 ==>
      items[i].grossMargin == old(items[i].grossMargin)
    ensures forall i :: 0 <= i < |items| ==>
      items[i].name == old(items[i].name) && items[i].costRatio == old(items[i].costRatio) &&
      items[i].dailySales == old(items[i].dailySales)
  {
    for i := 0 to |items|
      invariant forall j :: 0 <= j < i ==>
        && Priced(items[j], baseCost, idealPct, tiers)
        && (items[j].suggestedPrice <= 0.0 ==> items[j].grossMargin == old(items[j].grossMargin))
      invariant forall j :: i <= j < |items| ==> unchanged(items[j])
      invariant forall j :: 0 <= j < |items| ==>
        items[j].name == old(items[j].name) && items[j].costRatio == old(items[j].costRatio) &&
        items[j].dailySales == old(items[j].dailySales)
      invariant i > 0 ==> |tiers| > 0
    {
      label before:
      var ok := PriceItem(items[i], baseCost, idealPct, tiers);
      assert forall j :: 0 <= j < |items| && j != i ==> unchanged@before(items[j]);
      if ok.Err? {
        assert i == 0;
        return ok;
      }
    }
    return Ok(());
  }

  /** The loop body for one item: calculate_pricing, then categorize_tier,
      which on error leaves the tier but not the new price and margin. */
  method PriceItem(item: MenuItem, baseCost: real, idealPct: real, tiers: seq<real>) returns (r: Result<()>)
    requires idealPct != 0.0
    modifies item
    ensures r.Err? <==> |tiers| == 0
    ensures PricedAt(item, baseCost, idealPct)
    ensures item.suggestedPrice <= 0.0 ==> item.grossMargin == old(item.grossMargin)
    ensures r.Ok? ==> Priced(item, baseCost, idealPct, tiers)
    ensures r.Err? ==> item.tier == old(item.tier)
    ensures item.name == old(item.name) && item.costRatio == old(item.costRatio) && item.dailySales == old(item.dailySales)
  {
    item.CalculatePricing(baseCost, idealPct);
    r := item.CategorizeTier(tiers);
  }

  // ---- print_summary: statistics and the tier distribution ----

  /** What print_summary reports, without the formatting. */
  datatype Report = Report(
    meanPrice: real, maxPrice: real, minPrice: real, meanMargin: real,
    tierCounts: Dict<string, nat>, tierShares: seq<(string, real)>)

  /** print_summary for a non-empty batch: mean, maximum and minimum price,
      mean margin, and per tier its count and its percentage of the batch.
      The counts add up to the batch size and the percentages to 100. */
  method PrintSummary(items: seq<MenuItem>) returns (report: Report)
    requires |items| > 0
    ensures report.meanPrice == Stats.Mean(PriceColumn(items))
    ensures report.maxPrice == Stats.Max(PriceColumn(items))
    ensures report.minPrice == Stats.Min(PriceColumn(items))
    ensures report.meanMargin == Stats.Mean(MarginColumn(items))
    ensures report.minPrice <= report.meanPrice <= report.maxPrice
    ensures report.tierCounts == Tally.Tally(TierColumn(items))
    ensures Valid(report.tierCounts) && Total(report.tierCounts) == |items|
    ensures forall t :: t in report.tierCounts.entries <==> t in TierColumn(items)
    ensures report.tierShares == Shares(report.tierCounts, |items|)
    ensures RealTotal(report.tierShares) == 100.0
  {
    var prices, margins, tiers := PriceColumn(items), MarginColumn(items), TierColumn(items);
    assert |prices| == |margins| == |tiers| == |items|;
    Stats.MeanBetween(prices);
    var counts, shares := TierDistribution(tiers);
    report := Report(Stats.Mean(prices), Stats.Max(prices), Stats.Min(prices), Stats.Mean(margins), counts, shares);
  }

  /** The tier counts and their percentages of the batch. */
  method TierDistribution(tiers: seq<string>) returns (counts: Dict<string, nat>, shares: seq<(string, real)>)
    requires |tiers| > 0
    ensures counts == Tally.Tally(tiers) && Valid(counts) && Total(counts) == |tiers|
    ensures forall t :: t in counts.entries <==> t in tiers
    ensures shares == Shares(counts, |tiers|)
    ensures RealTotal(shares) == 100.0
  {
    // the loop `tier_counts[item.tier] = tier_counts.get(item.tier, 0) + 1`
    counts := CountEach(tiers);
    shares := Shares(counts, |tiers|);
    SharesSumTo100(counts, |tiers|);
  }

  // ---- main of both scripts ----

  /** The part both mains share: the pricing loop, then print_summary. */
  method PriceAndSummarise(items: seq<MenuItem>, baseCost: real, idealPct: real, tiers: seq<real>)
    returns (report: Report)
    requires idealPct != 0.0 && |tiers| > 0 && |items| > 0
    requires forall i, j :: 0 <= i < j < |items| ==> items[i] != items[j]
    modifies set x | x in items
    ensures forall i :: 0 <= i < |items| ==>
      && items[i].name == old(items[i].name)
      && items[i].costRatio == old(items[i].costRatio)
      && Priced(items[i], baseCost, idealPct, tiers)
    ensures forall i :: 0 <= i < |items| && items[i].suggestedPrice <= 0.0 ==>
      items[i].grossMargin == old(items[i].grossMargin)
    ensures report.tierCounts == Tally.Tally(TierColumn(items)) && Total(report.tierCounts) == |items|
    ensures forall t :: t in report.tierCounts.entries <==> t in TierColumn(items)
    ensures report.meanPrice == Stats.Mean(PriceColumn(items))
    ensures report.meanMargin == Stats.Mean(MarginColumn(items))
  {
    var priced := PriceAll(items, baseCost, idealPct, tiers);
    report := PrintSummary(items);
  }

  /** menu_pricing_real.main: read the sheet, stop when no item was read,
      otherwise price and tier every item and summarise. The command line
      gives at least one threshold. With the label lookup the code performs,
      no item is ever read and main always stops early. */
  method SheetMain(lookup: Lookup, sheet: seq<seq<ExcelCell>>, baseCost: real, idealPct: real, tiers: seq<real>)
    returns (items: seq<MenuItem>, report: Option<Report>)
    requires idealPct != 0.0 && |tiers| > 0
    ensures lookup == ByLabel ==> items == [] && report.None?
    ensures ExcelProducts(lookup, DataRows(sheet)).None? ==> items == [] && report.None?
    ensures ExcelProducts(lookup, DataRows(sheet)).Some? ==>
      var products := ExcelProducts(lookup, DataRows(sheet)).value;
      && |items| == |products|
      && forall i :: 0 <= i < |items| ==>
           items[i].name == products[i].name && items[i].costRatio == products[i].costRatio
    ensures report.None? <==> |items| == 0
    ensures forall i :: 0 <= i < |items| ==> fresh(items[i]) && Priced(items[i], baseCost, idealPct, tiers)
    ensures forall i :: 0 <= i < |items| && items[i].suggestedPrice <= 0.0 ==> items[i].grossMargin == 0.0
    ensures report.Some? ==> report.value.tierCounts == Tally.Tally(TierColumn(items))
  {
    items := ReadExcelData(lookup, sheet);
    if |items| == 0 {
      return items, None;
    }
    var summary := PriceAndSummarise(items, baseCost, idealPct, tiers);
    report := Some(summary);
  }

  /** real_menu_pricing.main: the sixteen products of the shop's table,
      priced and tiered; DefaultRun says what the default arguments give. */
  method RealMain(baseCost: real, idealPct: real, tiers: seq<real>) returns (items: seq<MenuItem>, report: Report)
    requires idealPct != 0.0 && |tiers| > 0
    ensures |items| == |RealProducts.Products| == 16
    ensures forall i :: 0 <= i < |items| ==>
      && items[i].name == RealProducts.Products[i].name
      && items[i].costRatio == RealProducts.Products[i].costRatio
      && Priced(items[i], baseCost, idealPct, tiers)
    ensures forall i :: 0 <= i < |items| && items[i].suggestedPrice <= 0.0 ==> items[i].grossMargin == 0.0
    ensures report.tierCounts == Tally.Tally(TierColumn(items)) && Total(report.tierCounts) == 16
    ensures forall t :: t in report.tierCounts.entries <==> t in TierColumn(items)
  {
    RealProducts.ProductsWellFormed();
    items := LoadRealData();
    report := PriceAndSummarise(items, baseCost, idealPct, tiers);
  }

  /** With the default arguments (base cost 1000, share 0.3, thresholds
      3990, 7990, 9990), items whose ratios lie in the table's range
      [0.223, 0.618] all land in the lowest tier at the target margin 0.7,
      so that tier is the only one in the distribution. */
  lemma DefaultRun(items: seq<MenuItem>)
    requires |items| > 0
    requires forall i :: 0 <= i < |items| ==>
      0.223 <= items[i].costRatio <= 0.618 && Priced(items[i], 1000.0, 0.3, DefaultTiers)
    ensures forall i :: 0 <= i < |items| ==> items[i].tier == "≤3,990원" && items[i].grossMargin == 0.7
    ensures forall t :: t in TierColumn(items) <==> t == "≤3,990원"
  {
    forall i | 0 <= i < |items|
      ensures items[i].tier == "≤3,990원" && items[i].grossMargin == 0.7
    {
      DefaultItem(items[i]);
    }
    OneTier(items, "≤3,990원");
  }

  /** Items that all share one tier give a tier column of that tier only. */
  lemma OneTier(items: seq<MenuItem>, tier: string)
    requires |items| > 0
    requires forall i :: 0 <= i < |items| ==> items[i].tier == tier
    ensures forall t :: t in TierColumn(items) <==> t == tier
  {
    assert TierColumn(items)[0] == tier;
  }

  /** The shop's table run with the default arguments. */
  lemma RealDefaults(items: seq<MenuItem>)
    requires |items| == |RealProducts.Products|
    requires forall i :: 0 <= i < |items| ==>
      items[i].costRatio == RealProducts.Products[i].costRatio && Priced(items[i], 1000.0, 0.3, DefaultTiers)
    ensures forall i :: 0 <= i < |items| ==> items[i].tier == "≤3,990원" && items[i].grossMargin == 0.7
  {
    RealProducts.ProductsWellFormed();
    DefaultRun(items);
  }

  lemma DefaultItem(item: MenuItem)
    requires 0.223 <= item.costRatio <= 0.618 && Priced(item, 1000.0, 0.3, DefaultTiers)
    ensures item.tier == "≤3,990원" && item.grossMargin == 0.7
  {
    assert Tiered(item, DefaultTiers);
    PriceInLowestTier(item.costRatio);
  }

  /** At base cost 1000 and share 0.3 a ratio in the table's range
      [0.223, 0.618] gives a price between 743 and 2060 won, in the lowest
      default tier. */
  lemma PriceInLowestTier(ratio: real)
    requires 0.223 <= ratio <= 0.618
    ensures var price := 1000.0 * ratio / 0.3;
      743.0 < price <= 2060.0 && Categorise(price, DefaultTiers) == Ok("≤3,990원")
  {
    DefaultTierBands(1000.0 * ratio / 0.3);
  }
}
