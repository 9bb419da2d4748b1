/** bp_menu_pricing.py: menus described by optional fields, each costed,
    priced and given a margin and a short feature text by fallback rules,
    then grouped by category. */
module BpPricing {
  import opened Wrappers
  import opened Dicts
  import Stats

  /** One menu of the table; a missing key is None. The per-ingredient
      breakdowns some menus carry are never read and are not modelled. */
  datatype BpMenu = BpMenu(
    name: string, category: string,
    totalCost: Option<real>, costPerKg: Option<real>, weightG: Option<real>,
    sellingPrice: Option<real>, marginRate: Option<real>, reason: Option<string>)

  const IdealFoodCostRatio: real := 0.30
  const FeatureWidth: nat := 20

  /** Cost: total_cost if given, else cost_per_kg x weight_g / 1000 when both
      are given, else 0. */
  function CostOf(m: BpMenu): (c: real)
    ensures m.totalCost.Some? ==> c == m.totalCost.value
    ensures m.totalCost.None? && m.costPerKg.Some? && m.weightG.Some? ==> c * 1000.0 == m.costPerKg.value * m.weightG.value
    ensures m.totalCost.None? && (m.costPerKg.None? || m.weightG.None?) ==> c == 0.0
  {
    match m.totalCost
    case Some(t) => t
    case None =>
      if m.costPerKg.Some? && m.weightG.Some? then m.costPerKg.value * m.weightG.value / 1000.0 else 0.0
  }

  /** Suggested price: selling_price if given, else cost / 0.30. */
  function PriceOf(m: BpMenu): (p: real)
    ensures m.sellingPrice.Some? ==> p == m.sellingPrice.value
    ensures m.sellingPrice.None? ==> p * IdealFoodCostRatio == CostOf(m)
  {
    match m.sellingPrice
    case Some(s) => s
    case None => CostOf(m) / IdealFoodCostRatio
  }

  /** Margin: margin_rate if given, else (price - cost) / price for a
      positive price, else 0. */
  function MarginOf(m: BpMenu): (r: real)
    ensures m.marginRate.Some? ==> r == m.marginRate.value
    ensures m.marginRate.None? && PriceOf(m) > 0.0 ==> r * PriceOf(m) == PriceOf(m) - CostOf(m)
    ensures m.marginRate.None? && PriceOf(m) <= 0.0 ==> r == 0.0
  {
    match m.marginRate
    case Some(r) => r
    case None =>
      var p := PriceOf(m);
      if p > 0.0 then (p - CostOf(m)) / p else 0.0
  }

  /** A menu with neither a selling price nor a margin rate, but a positive
      cost, gets exactly the 70% target margin. */
  lemma DerivedMarginIsTarget(m: BpMenu)
    requires m.sellingPrice.None? && m.marginRate.None? && CostOf(m) > 0.0
    ensures PriceOf(m) > 0.0 && MarginOf(m) == 1.0 - IdealFoodCostRatio
  {
    var c, p := CostOf(m), PriceOf(m);
    assert p * IdealFoodCostRatio == c;
    assert p > 0.0;
    assert p - c == p * 0.7;
    assert (p - c) / p == 0.7;
  }

  /** Feature text: the first 20 characters of the reason and "..." when it
      is longer than 20, the reason itself otherwise, "BP 정리 자료" when
      there is none. */
  function FeatureOf(m: BpMenu): (f: string)
    ensures m.reason.None? ==> f == "BP 정리 자료"
    ensures m.reason.Some? && |m.reason.value| <= FeatureWidth ==> f == m.reason.value
    ensures m.reason.Some? && |m.reason.value| > FeatureWidth ==>
      |f| == FeatureWidth + 3 && f[..FeatureWidth] == m.reason.value[..FeatureWidth] && f[FeatureWidth..] == "..."
  {
    match m.reason
    case None => "BP 정리 자료"
    case Some(r) => if |r| > FeatureWidth then r[..FeatureWidth] + "..." else r
  }

  /** A feature text is never longer than 23 characters, and the reason
      starts with everything before its "...". */
  lemma FeatureShort(m: BpMenu)
    requires m.reason.Some?
    ensures |FeatureOf(m)| <= FeatureWidth + 3
    ensures |FeatureOf(m)| > FeatureWidth ==> FeatureOf(m)[..FeatureWidth] == m.reason.value[..FeatureWidth]
    ensures |FeatureOf(m)| <= FeatureWidth ==> FeatureOf(m) == m.reason.value
  {
  }

  /** The columns the listing loop builds and the statistics printed from them. */
  datatype BpReport = BpReport(
    costs: seq<real>, prices: seq<real>, margins: seq<real>, features: seq<string>,
    meanCost: real, meanPrice: real, meanMargin: real, maxPrice: real, minPrice: real)

  /** The listing loop: one cost, price, margin and feature per menu,
      appended in lockstep, then the averages, maximum and minimum. The
      averages divide by the number of menus, so the table is non-empty. */
  method AnalyzeBpMenus(menus: seq<BpMenu>) returns (report: BpReport)
    requires |menus| > 0
    ensures |report.costs| == |report.prices| == |report.margins| == |report.features| == |menus|
    ensures forall i :: 0 <= i < |menus| ==>
      && report.costs[i] == CostOf(menus[i]) && report.prices[i] == PriceOf(menus[i])
      && report.margins[i] == MarginOf(menus[i]) && report.features[i] == FeatureOf(menus[i])
    ensures report.meanCost == Stats.Mean(report.costs) && report.meanPrice == Stats.Mean(report.prices)
    ensures report.meanMargin == Stats.Mean(report.margins)
    ensures report.maxPrice == Stats.Max(report.prices) && report.minPrice == Stats.Min(report.prices)
    ensures report.minPrice <= report.meanPrice <= report.maxPrice
  {
    var costs: seq<real> := [];
    var prices: seq<real> := [];
    var margins: seq<real> := [];
    var features: seq<string> := [];
    for i := 0 to |menus|
      invariant |costs| == |prices| == |margins| == |features| == i
      invariant forall j :: 0 <= j < i ==>
        && costs[j] == CostOf(menus[j]) && prices[j] == PriceOf(menus[j])
        && margins[j] == MarginOf(menus[j]) && features[j] == FeatureOf(menus[j])
    {
      var m := menus[i];
      var cost: real;
      if m.totalCost.Some? {
        cost := m.totalCost.value;
      } else if m.costPerKg.Some? && m.weightG.Some? {
        cost := m.costPerKg.value * m.weightG.value / 1000.0;
      } else {
        cost := 0.0;
      }
      var price: real;
      if m.sellingPrice.Some? {
        price := m.sellingPrice.value;
      } else {
        price := cost / IdealFoodCostRatio;
      }
      var margin: real;
      if m.marginRate.Some? {
        margin := m.marginRate.value;
      } else {
        margin := if price > 0.0 then (price - cost) / price else 0.0;
      }
      var feature: string;
      if m.reason.Some? {
        feature := if |m.reason.value| > FeatureWidth then m.reason.value[..FeatureWidth] + "..." else m.reason.value;
      } else {
        feature := "BP 정리 자료";
      }
      costs := costs + [cost];
      prices := prices + [price];
      margins := margins + [margin];
      features := features + [feature];
    }
    Stats.MeanBetween(prices);
    report := BpReport(costs, prices, margins, features, Stats.Mean(costs), Stats.Mean(prices),
                       Stats.Mean(margins), Stats.Max(prices), Stats.Min(prices));
  }

  // ---- category grouping ----

  /** The names of the menus in category c, in table order. */
  function NamesIn(menus: seq<BpMenu>, c: string): (names: seq<string>)
    ensures |names| <= |menus|
    ensures forall n :: n in names <==> exists i :: 0 <= i < |menus| && menus[i].category == c && menus[i].name == n
  {
    if menus == [] then []
    else
      var front := NamesIn(menus[..|menus| - 1], c);
      var last := menus[|menus| - 1];
      if last.category == c then front + [last.name] else front
  }

  /** The categories in order of first appearance. */
  function CategoriesOf(menus: seq<BpMenu>): (cs: seq<string>)
  {
    if menus == [] then []
    else
      var front := CategoriesOf(menus[..|menus| - 1]);
      var c := menus[|menus| - 1].category;
      if c in front then front else front + [c]
  }

  /** `categories[category].append(menu_name)`, creating the list on a
      category's first appearance. */
  function Grouped(menus: seq<BpMenu>): Dict<string, seq<string>> {
    if menus == [] then Empty()
    else
      var g := Grouped(menus[..|menus| - 1]);
      var m := menus[|menus| - 1];
      Put(g, m.category, GetOr(g, m.category, []) + [m.name])
  }

  /** The grouping has one key per category, in order of first appearance,
      and under each key the names of that category's menus in table order. */
  lemma GroupedContents(menus: seq<BpMenu>)
    ensures Valid(Grouped(menus))
    ensures Grouped(menus).keys == CategoriesOf(menus)
    ensures forall c :: c in Grouped(menus).entries <==> exists i :: 0 <= i < |menus| && menus[i].category == c
    ensures forall c :: c in Grouped(menus).entries ==> Grouped(menus).entries[c] == NamesIn(menus, c)
  {
    GroupedKeys(menus);
    forall c | c in Grouped(menus).entries
      ensures Grouped(menus).entries[c] == NamesIn(menus, c)
    {
      GroupedNames(menus, c);
    }
  }

  /** The keys of the grouping: one per category, in order of first
      appearance. */
  lemma {:induction false} GroupedKeys(menus: seq<BpMenu>)
    ensures Valid(Grouped(menus))
    ensures Grouped(menus).keys == CategoriesOf(menus)
    ensures forall c :: c in Grouped(menus).entries <==> exists i :: 0 <= i < |menus| && menus[i].category == c
  {
    if menus != [] {
      var front := menus[..|menus| - 1];
      GroupedKeys(front);
      forall c ensures c in Grouped(menus).entries <==> exists i :: 0 <= i < |menus| && menus[i].category == c {
        if c in Grouped(front).entries {
          var i :| 0 <= i < |front| && front[i].category == c;
          assert menus[i].category == c;
        }
        if exists i :: 0 <= i < |menus| && menus[i].category == c {
          var i :| 0 <= i < |menus| && menus[i].category == c;
          if i < |front| {
            assert front[i].category == c;
          }
        }
      }
    }
  }

  /** Under a category, the names of its menus in table order. */
  lemma {:induction false} GroupedNames(menus: seq<BpMenu>, c: string)
    ensures c in Grouped(menus).entries ==> Grouped(menus).entries[c] == NamesIn(menus, c)
    ensures c !in Grouped(menus).entries ==> NamesIn(menus, c) == []
  {
    if menus != [] {
      var front := menus[..|menus| - 1];
      GroupedNames(front, c);
    }
  }

  /** The table is a dict, so menu names are distinct. */
  ghost predicate DistinctNames(menus: seq<BpMenu>) {
    forall i, j :: 0 <= i < j < |menus| ==> menus[i].name != menus[j].name
  }

  /** Every menu is listed under its own category and under no other. */
  lemma GroupsPartition(menus: seq<BpMenu>, i: nat, c: string)
    requires DistinctNames(menus) && i < |menus|
    requires c in Grouped(menus).entries
    ensures menus[i].name in Grouped(menus).entries[c] <==> c == menus[i].category
  {
    GroupedContents(menus);
    if menus[i].name in NamesIn(menus, c) {
      var j :| 0 <= j < |menus| && menus[j].category == c && menus[j].name == menus[i].name;
      assert j == i;
    }
  }

  /** analyze_bp_menu_data's grouping loop. */
  method GroupByCategory(menus: seq<BpMenu>) returns (categories: Dict<string, seq<string>>)
    ensures categories == Grouped(menus)
    ensures Valid(categories) && categories.keys == CategoriesOf(menus)
    ensures forall c :: c in categories.entries ==> categories.entries[c] == NamesIn(menus, c)
  {
    categories := Empty();
    for i := 0 to |menus|
      invariant categories == Grouped(menus[..i])
    {
      assert menus[..i + 1][..i] == menus[..i];
      categories := AppendName(categories, menus[i].category, menus[i].name);
    }
    assert menus[..|menus|] == menus;
    GroupedContents(menus);
  }

  /** The loop body for one menu: create the category's list if it is new,
      then append the name to it. */
  method AppendName(categories: Dict<string, seq<string>>, category: string, name: string)
    returns (r: Dict<string, seq<string>>)
    ensures r == Put(categories, category, GetOr(categories, category, []) + [name])
  {
    r := categories;
    if category !in r.entries {
      r := Put(r, category, []);
      PutTwice(categories, category, [], [name]);
    }
    r := Put(r, category, r.entries[category] + [name]);
  }

  // ---- the table analyze_bp_menu_data works on ----

  const BpMenus: seq<BpMenu> := [
    BpMenu("렌틸콩 카레 볶음", "저속라인렌틸콩", None, Some(5000.0), Some(200.0), None, None,
           Some("풍부한 식이섬유, 혈당 조절, 항산화 효과")),
    BpMenu("렌틸콩 스프", "저속라인렌틸콩", None, Some(5000.0), Some(300.0), None, None,
           Some("풍부한 식이섬유, 혈당 조절, 항산화 효과")),
    BpMenu("채소 프듬뿍 리 직화불고기 비비고 영양밥", "프리미엄", Some(2493.0), None, None, None, None,
           Some("국민 반찬의 집밥 취향, 40-50대 선호, 비비고 브랜드 신뢰도 4.7점")),
    BpMenu("연어 유자간장 양밥", "프리미엄", Some(1730.0), None, None, Some(9990.0), None, None),
    BpMenu("양배추 닭가슴살 야채말이", "프리미엄", None, Some(9222.0), Some(370.0), Some(9990.0), Some(0.658),
           Some("건강하게 한끼, 아삭한 식감, 소스 없이도 맛있음")),
    BpMenu("닭가슴살 테이크 보울", "프리미엄", None, Some(7433.0), Some(300.0), Some(7990.0), Some(0.721),
           Some("고단백, 가성비 우수, 편리한 식사"))
  ]

  /** On the table: the first three menus have no price or margin of their
      own and get the 70% target; the salmon menu has no reason and shows
      the fallback text; and the grouping has two categories, lentil menus
      first. */
  lemma TableFacts()
    ensures forall i :: 0 <= i < 3 ==> MarginOf(BpMenus[i]) == 0.7
    ensures CostOf(BpMenus[0]) == 1000.0 && CostOf(BpMenus[1]) == 1500.0
    ensures FeatureOf(BpMenus[3]) == "BP 정리 자료"
    ensures CategoriesOf(BpMenus) == ["저속라인렌틸콩", "프리미엄"]
  {
    forall i | 0 <= i < 3 ensures MarginOf(BpMenus[i]) == 0.7 {
      DerivedMarginIsTarget(BpMenus[i]);
    }
    var lentil, premium := "저속라인렌틸콩", "프리미엄";
    assert BpMenus[..1][..0] == [];
    assert CategoriesOf(BpMenus[..1]) == [lentil];
    assert BpMenus[..2][..1] == BpMenus[..1];
    assert CategoriesOf(BpMenus[..2]) == [lentil];
    assert BpMenus[..3][..2] == BpMenus[..2];
    assert CategoriesOf(BpMenus[..3]) == [lentil, premium];
    assert BpMenus[..4][..3] == BpMenus[..3];
    assert CategoriesOf(BpMenus[..4]) == [lentil, premium];
    assert BpMenus[..5][..4] == BpMenus[..4];
    assert CategoriesOf(BpMenus[..5]) == [lentil, premium];
    assert BpMenus[..6][..5] == BpMenus[..5];
    assert BpMenus[..6] == BpMenus;
  }
}
