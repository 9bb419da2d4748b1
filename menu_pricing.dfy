/** menu_pricing.py: price per kilogram of each ingredient, the cost of each
    recipe, the suggested selling price for a target food-cost percentage,
    the gross margin at that price and the price tier. */
module MenuPricing {
  import opened Wrappers
  import opened Text
  import opened Dicts
  import opened Tiers
  import Stats
  import RealProducts

  datatype Ingredient = Ingredient(name: string, weightKg: real, costWon: real)

  /** Ingredient.price_per_kg: the cost of one kilogram; a weight that is not
      positive is refused. */
  function PricePerKg(ing: Ingredient): (r: Result<real>)
    ensures r.Err? <==> ing.weightKg <= 0.0
    ensures r.Err? ==> r.error == InvalidWeight(ing.name)
    ensures r.Ok? ==> r.value * ing.weightKg == ing.costWon
  {
    if ing.weightKg <= 0.0 then Err(InvalidWeight(ing.name)) else Ok(ing.costWon / ing.weightKg)
  }

  // ---- read_ingredients: the unit rule, on rows already parsed from CSV ----

  const GramUnits: set<string> := {"g", "gram", "grams"}
  const KilogramUnits: set<string> := {"kg", "kilogram", "kilograms"}
  const LitreUnits: set<string> := {"l", "liter", "litre", "liters", "litres"}

  /** row.get('weight_unit', 'kg').strip().lower(); None is a file without
      a weight_unit column. */
  function UnitTag(unit: Option<string>): string {
    Lower(Strip(if unit.Some? then unit.value else "kg"))
  }

  /** The weight in kilograms: grams are divided by 1000, kilograms kept, a
      litre taken as a kilogram; any other tag is an error naming the tag
      and the ingredient. */
  function NormaliseWeight(name: string, weight: real, unit: Option<string>): (r: Result<real>)
    ensures r.Ok? <==> UnitTag(unit) in GramUnits + KilogramUnits + LitreUnits
    ensures r.Ok? && UnitTag(unit) in GramUnits ==> r.value * 1000.0 == weight
    ensures r.Ok? && UnitTag(unit) !in GramUnits ==> r.value == weight
    ensures r.Err? ==> r.error == UnknownUnit(UnitTag(unit), name)
  {
    var tag := UnitTag(unit);
    if tag in GramUnits then Ok(weight / 1000.0)
    else if tag in KilogramUnits then Ok(weight)
    else if tag in LitreUnits then Ok(weight)
    else Err(UnknownUnit(tag, name))
  }

  /** Feeding back an already normalised tag changes nothing: case and
      surrounding whitespace are all the rule ignores. */
  lemma NormaliseWeightOfTag(name: string, weight: real, unit: Option<string>)
    ensures NormaliseWeight(name, weight, Some(UnitTag(unit))) == NormaliseWeight(name, weight, unit)
  {
    StripLowerIdempotent(if unit.Some? then unit.value else "kg");
  }

  lemma UnitTagExamples()
    ensures UnitTag(Some(" Grams ")) == "grams"
    ensures UnitTag(None) == "kg"
    ensures UnitTag(Some("oz")) == "oz"
  {
    var t := " Grams "[1..];
    assert LeadingSpaces(" Grams ") == 1;
    assert t == "Grams ";
    assert TrailingSpaces(t) == 1;
    assert Strip(" Grams ") == "Grams";
    StripUnpadded("kg");
    StripUnpadded("oz");
  }

  /** Examples: " Grams " reads 500 as 0.5 kg, a missing column reads kg,
      and "oz" is refused. */
  lemma NormaliseWeightExamples()
    ensures NormaliseWeight("rice", 500.0, Some(" Grams ")) == Ok(0.5)
    ensures NormaliseWeight("rice", 2.0, None) == Ok(2.0)
    ensures NormaliseWeight("rice", 2.0, Some("oz")) == Err(UnknownUnit("oz", "rice"))
  {
    UnitTagExamples();
  }

  /** One row of the ingredient file, its numbers already parsed. */
  datatype IngredientRow = IngredientRow(ingredient: string, weight: real, unit: Option<string>, cost: real)

  /** The row's unit tag is one the rule accepts. */
  predicate KnownUnit(row: IngredientRow) {
    NormaliseWeight(Strip(row.ingredient), row.weight, row.unit).Ok?
  }

  /** The dict read_ingredients builds, or the error of the first row whose
      unit is unknown. A later row with the same name replaces an earlier one. */
  function IngredientsFrom(rows: seq<IngredientRow>): Result<Dict<string, Ingredient>> {
    if rows == [] then Ok(Empty())
    else
      match IngredientsFrom(rows[..|rows| - 1])
      case Err(e) => Err(e)
      case Ok(d) =>
        var row := rows[|rows| - 1];
        var name := Strip(row.ingredient);
        match NormaliseWeight(name, row.weight, row.unit)
        case Err(e) => Err(e)
        case Ok(kg) => Ok(Put(d, name, Ingredient(name, kg, row.cost)))
  }

  /** Reading succeeds exactly when every unit is known. */
  lemma {:induction false} IngredientsFromOk(rows: seq<IngredientRow>)
    ensures IngredientsFrom(rows).Ok? <==> forall i :: 0 <= i < |rows| ==> KnownUnit(rows[i])
  {
    if IngredientsFrom(rows).Ok? {
      IngredientsFromOkKnown(rows);
    } else {
      var j := IngredientsFromErrAt(rows);
    }
  }

  /** After a successful read every unit was known. */
  lemma {:induction false} IngredientsFromOkKnown(rows: seq<IngredientRow>)
    requires IngredientsFrom(rows).Ok?
    ensures forall i :: 0 <= i < |rows| ==> KnownUnit(rows[i])
  {
    if rows != [] {
      var front := rows[..|rows| - 1];
      IngredientsFromStep(rows);
      IngredientsFromOkKnown(front);
      AllSnoc(rows, front, KnownUnit);
    }
  }

  /** A property of every row before the last and of the last is a
      property of every row. */
  lemma AllSnoc<T>(rows: seq<T>, front: seq<T>, holds: T -> bool)
    requires rows != [] && front == rows[..|rows| - 1]
    requires forall i :: 0 <= i < |front| ==> holds(front[i])
    requires holds(rows[|rows| - 1])
    ensures forall i :: 0 <= i < |rows| ==> holds(rows[i])
  {
    forall i | 0 <= i < |rows| ensures holds(rows[i]) {
      if i < |front| {
        assert rows[i] == front[i];
      }
    }
  }

  /** A failed read has a row whose unit is unknown. */
  lemma {:induction false} IngredientsFromErrAt(rows: seq<IngredientRow>) returns (j: nat)
    requires IngredientsFrom(rows).Err?
    ensures j < |rows| && !KnownUnit(rows[j])
  {
    var front := rows[..|rows| - 1];
    IngredientsFromStep(rows);
    if IngredientsFrom(front).Ok? {
      j := |rows| - 1;
    } else {
      j := IngredientsFromErrAt(front);
      assert rows[j] == front[j];
    }
  }

  /** The last row succeeds exactly when its unit is known. */
  lemma IngredientsFromStep(rows: seq<IngredientRow>)
    requires rows != []
    ensures IngredientsFrom(rows).Ok? <==> IngredientsFrom(rows[..|rows| - 1]).Ok? && KnownUnit(rows[|rows| - 1])
  {
  }

  /** Some row's stripped name is k. */
  ghost predicate NamedIn(rows: seq<IngredientRow>, k: string) {
    exists i :: 0 <= i < |rows| && Strip(rows[i].ingredient) == k
  }

  /** A successful read has as keys exactly the stripped row names, and each
      entry carries its own name. */
  lemma {:induction false} IngredientsFromContents(rows: seq<IngredientRow>, d: Dict<string, Ingredient>)
    requires IngredientsFrom(rows) == Ok(d)
    ensures Valid(d)
    ensures forall k :: k in d.entries <==> NamedIn(rows, k)
    ensures forall k :: k in d.entries ==> d.entries[k].name == k
  {
    if rows != [] {
      var front, last := rows[..|rows| - 1], rows[|rows| - 1];
      var before, kg := IngredientsFromLast(rows);
      IngredientsFromContents(front, before);
      var name := Strip(last.ingredient);
      forall k ensures NamedIn(rows, k) <==> NamedIn(front, k) || k == name {
        NamedInSnoc(rows, k);
      }
    }
  }

  /** A successful read is the read of all rows but the last, with the last
      row's ingredient stored under its stripped name. */
  lemma IngredientsFromLast(rows: seq<IngredientRow>) returns (before: Dict<string, Ingredient>, kg: real)
    requires rows != [] && IngredientsFrom(rows).Ok?
    ensures IngredientsFrom(rows[..|rows| - 1]) == Ok(before)
    ensures NormaliseWeight(Strip(rows[|rows| - 1].ingredient), rows[|rows| - 1].weight, rows[|rows| - 1].unit) == Ok(kg)
    ensures IngredientsFrom(rows).value ==
      Put(before, Strip(rows[|rows| - 1].ingredient), Ingredient(Strip(rows[|rows| - 1].ingredient), kg, rows[|rows| - 1].cost))
  {
    before := IngredientsFrom(rows[..|rows| - 1]).value;
    kg := NormaliseWeight(Strip(rows[|rows| - 1].ingredient), rows[|rows| - 1].weight, rows[|rows| - 1].unit).value;
  }

  /** A name occurs in the rows exactly when it occurs before the last row
      or is the last row's. */
  lemma NamedInSnoc(rows: seq<IngredientRow>, k: string)
    requires rows != []
    ensures NamedIn(rows, k) <==> NamedIn(rows[..|rows| - 1], k) || Strip(rows[|rows| - 1].ingredient) == k
  {
    var front := rows[..|rows| - 1];
    if NamedIn(front, k) {
      var i :| 0 <= i < |front| && Strip(front[i].ingredient) == k;
      assert rows[i] == front[i];
    }
    if NamedIn(rows, k) {
      var i :| 0 <= i < |rows| && Strip(rows[i].ingredient) == k;
      if i < |front| {
        assert front[i] == rows[i];
      }
    }
  }

  /** The row loop of read_ingredients. */
  method ReadIngredients(rows: seq<IngredientRow>) returns (r: Result<Dict<string, Ingredient>>)
    ensures r == IngredientsFrom(rows)
  {
    var ingredients: Dict<string, Ingredient> := Empty();
    for i := 0 to |rows|
      invariant IngredientsFrom(rows[..i]) == Ok(ingredients)
    {
      assert rows[..i + 1][..i] == rows[..i];
      var name := Strip(rows[i].ingredient);
      var weightKg := NormaliseWeight(name, rows[i].weight, rows[i].unit);
      if weightKg.Err? {
        assert IngredientsFrom(rows[..i + 1]).Err?;
        IngredientsFromPrefixErr(rows, i + 1);
        return Err(weightKg.error);
      }
      ingredients := Put(ingredients, name, Ingredient(name, weightKg.value, rows[i].cost));
    }
    assert rows[..|rows|] == rows;
    return Ok(ingredients);
  }

  /** Once a prefix fails, the whole file fails with the same error. */
  lemma {:induction false} IngredientsFromPrefixErr(rows: seq<IngredientRow>, n: nat)
    requires n <= |rows| && IngredientsFrom(rows[..n]).Err?
    ensures IngredientsFrom(rows) == IngredientsFrom(rows[..n])
    decreases |rows| - n
  {
    if n < |rows| {
      assert rows[..n + 1][..n] == rows[..n];
      IngredientsFromPrefixErr(rows, n + 1);
    } else {
      assert rows[..n] == rows;
    }
  }

  // ---- read_recipes: the quantity filter ----

  /** A cell of the recipe file: empty (or missing), or a parsed number. */
  datatype Cell = Blank | Number(x: real)

  /** One row of the recipe file: the menu name and every column with its cell. */
  datatype RecipeRow = RecipeRow(menu: string, cells: seq<(string, Cell)>)

  /** A menu item: ingredient name to quantity in kilograms. */
  datatype Recipe = Recipe(name: string, ingredients: Dict<string, real>)

  /** A cell is kept when its column is not `menu` and it holds a positive
      quantity. */
  predicate Accepted(cell: (string, Cell)) {
    cell.0 != "menu" && cell.1.Number? && cell.1.x > 0.0
  }

  /** ing_quantities for one row of the recipe file. */
  function QuantitiesOf(cells: seq<(string, Cell)>): Dict<string, real> {
    if cells == [] then Empty()
    else
      var d := QuantitiesOf(cells[..|cells| - 1]);
      var c := cells[|cells| - 1];
      if Accepted(c) then Put(d, Strip(c.0), c.1.x) else d
  }

  /** The stored ingredients are exactly the stripped columns of accepted
      cells, and every stored quantity is positive: blanks, zeros, negatives
      and the menu column are dropped. */
  lemma {:induction false} QuantitiesOfFacts(cells: seq<(string, Cell)>)
    ensures Valid(QuantitiesOf(cells))
    ensures forall k :: k in QuantitiesOf(cells).entries <==>
      exists i :: 0 <= i < |cells| && Accepted(cells[i]) && Strip(cells[i].0) == k
    ensures forall k :: k in QuantitiesOf(cells).entries ==> QuantitiesOf(cells).entries[k] > 0.0
  {
    if cells != [] {
      var front := cells[..|cells| - 1];
      QuantitiesOfFacts(front);
      assert forall i :: 0 <= i < |front| ==> front[i] == cells[i];
      var d := QuantitiesOf(cells);
      forall k | k in d.entries
        ensures exists i :: 0 <= i < |cells| && Accepted(cells[i]) && Strip(cells[i].0) == k
      {
        var c := cells[|cells| - 1];
        if !(Accepted(c) && Strip(c.0) == k) {
          var i :| 0 <= i < |front| && Accepted(front[i]) && Strip(front[i].0) == k;
          assert cells[i] == front[i];
        }
      }
    }
  }

  /** The inner loop of read_recipes, for one row. */
  method ReadRecipeRow(row: RecipeRow) returns (recipe: Recipe)
    ensures recipe == Recipe(Strip(row.menu), QuantitiesOf(row.cells))
    ensures Valid(recipe.ingredients)
    ensures forall k :: k in recipe.ingredients.entries ==> recipe.ingredients.entries[k] > 0.0
  {
    var quantities: Dict<string, real> := Empty();
    for i := 0 to |row.cells|
      invariant quantities == QuantitiesOf(row.cells[..i])
    {
      assert row.cells[..i + 1][..i] == row.cells[..i];
      var (key, value) := row.cells[i];
      if key == "menu" || value.Blank? {
        continue;
      }
      if value.x > 0.0 {
        quantities := Put(quantities, Strip(key), value.x);
      }
    }
    assert row.cells[..|row.cells|] == row.cells;
    QuantitiesOfFacts(row.cells);
    recipe := Recipe(Strip(row.menu), quantities);
  }

  /** read_recipes: one recipe per row, in file order. */
  method ReadRecipes(rows: seq<RecipeRow>) returns (recipes: seq<Recipe>)
    ensures |recipes| == |rows|
    ensures forall i :: 0 <= i < |rows| ==> recipes[i] == Recipe(Strip(rows[i].menu), QuantitiesOf(rows[i].cells))
  {
    recipes := [];
    for i := 0 to |rows|
      invariant |recipes| == i
      invariant forall j :: 0 <= j < i ==> recipes[j] == Recipe(Strip(rows[j].menu), QuantitiesOf(rows[j].cells))
    {
      var recipe := ReadRecipeRow(rows[i]);
      recipes := recipes + [recipe];
    }
  }

  // ---- Recipe.cost ----

  /** The running total of Recipe.cost over the items in order, or the first
      item missing from the price list. */
  function CostOf(items: seq<(string, real)>, prices: map<string, real>): (r: Result<real>)
    ensures r.Ok? <==> forall i :: 0 <= i < |items| ==> items[i].0 in prices
    ensures r.Err? ==> exists i :: 0 <= i < |items| && items[i].0 !in prices && r.error == MissingIngredient(items[i].0)
  {
    if items == [] then Ok(0.0)
    else
      match CostOf(items[..|items| - 1], prices)
      case Err(e) => Err(e)
      case Ok(total) =>
        var item, qty := items[|items| - 1].0, items[|items| - 1].1;
        if item !in prices then Err(MissingIngredient(item)) else Ok(total + LineCost(prices[item], qty))
  }

  /** The cost of each item of a recipe. */
  function LineCosts(items: seq<(string, real)>, prices: map<string, real>): (r: seq<real>)
    requires forall i :: 0 <= i < |items| ==> items[i].0 in prices
    ensures |r| == |items|
    ensures forall i :: 0 <= i < |items| ==> r[i] == LineCost(prices[items[i].0], items[i].1)
  {
    seq(|items|, i requires 0 <= i < |items| => LineCost(prices[items[i].0], items[i].1))
  }

  /** price_lookup[item] * qty. */
  function LineCost(price: real, qty: real): real {
    price * qty
  }

  /** With every item priced, the cost is the sum of price times quantity. */
  lemma {:induction false} CostWhenAllPriced(items: seq<(string, real)>, prices: map<string, real>)
    requires forall i :: 0 <= i < |items| ==> items[i].0 in prices
    ensures CostOf(items, prices) == Ok(Stats.Sum(LineCosts(items, prices)))
  {
    if items != [] {
      var front := items[..|items| - 1];
      assert forall i :: 0 <= i < |front| ==> front[i] == items[i];
      CostWhenAllPriced(front, prices);
      var lines := LineCosts(items, prices);
      forall i | 0 <= i < |front| ensures lines[..|items| - 1][i] == LineCosts(front, prices)[i] {
        assert front[i] == items[i];
      }
      assert lines[..|items| - 1] == LineCosts(front, prices);
    }
  }

  /** A missing item raises KeyError naming the first missing item, with no
      partial total. */
  lemma {:induction false} CostFirstMissing(items: seq<(string, real)>, prices: map<string, real>, j: nat)
    requires j < |items| && items[j].0 !in prices
    requires forall i :: 0 <= i < j ==> items[i].0 in prices
    ensures CostOf(items, prices) == Err(MissingIngredient(items[j].0))
  {
    var front := items[..|items| - 1];
    if j < |items| - 1 {
      CostFirstMissing(front, prices, j);
    } else {
      CostWhenAllPriced(front, prices);
    }
  }

  /** Recipe.cost: the loop over the recipe's items in insertion order. */
  method RecipeCost(recipe: Recipe, prices: map<string, real>) returns (r: Result<real>)
    requires Valid(recipe.ingredients)
    ensures r == CostOf(Items(recipe.ingredients), prices)
  {
    var items := Items(recipe.ingredients);
    var total := 0.0;
    for i := 0 to |items|
      invariant CostOf(items[..i], prices) == Ok(total)
    {
      var item, qty := items[i].0, items[i].1;
      if item !in prices {
        CostFirstMissing(items, prices, i);
        return Err(MissingIngredient(item));
      }
      CostOfStep(items, prices, i, total);
      total := total + LineCost(prices[item], qty);
    }
    assert items[..|items|] == items;
    return Ok(total);
  }

  /** One more priced item adds its line cost to the running total. */
  lemma CostOfStep(items: seq<(string, real)>, prices: map<string, real>, i: nat, total: real)
    requires i < |items| && items[i].0 in prices
    requires CostOf(items[..i], prices) == Ok(total)
    ensures CostOf(items[..i + 1], prices) == Ok(total + LineCost(prices[items[i].0], items[i].1))
  {
    assert items[..i + 1][..i] == items[..i];
  }

  // ---- suggest_price and gross_margin ----

  /** suggest_price: the price at which the cost is the target share of it;
      the share must lie strictly between 0 and 1. */
  function SuggestPrice(cost: real, idealPct: real): (r: Result<real>)
    ensures r.Err? <==> idealPct <= 0.0 || idealPct >= 1.0
    ensures r.Err? ==> r.error == InvalidRatio
    ensures r.Ok? ==> r.value * idealPct == cost
  {
    if idealPct <= 0.0 || idealPct >= 1.0 then Err(InvalidRatio) else Ok(cost / idealPct)
  }

  /** gross_margin: the share of the price left after the cost; a price that
      is not positive is refused. */
  function GrossMargin(price: real, cost: real): (r: Result<real>)
    ensures r.Err? <==> price <= 0.0
    ensures r.Err? ==> r.error == NonPositivePrice
    ensures r.Ok? ==> r.value * price == price - cost
  {
    if price <= 0.0 then Err(NonPositivePrice) else Ok((price - cost) / price)
  }

  /** Pricing at food-cost share r leaves a gross margin of exactly 1 - r
      for a positive cost; a zero or negative cost gives a price that
      gross_margin refuses. */
  lemma MarginOfSuggestedPrice(cost: real, idealPct: real)
    requires 0.0 < idealPct < 1.0
    ensures GrossMargin(SuggestPrice(cost, idealPct).value, cost).Ok? <==> cost > 0.0
    ensures cost > 0.0 ==> GrossMargin(SuggestPrice(cost, idealPct).value, cost) == Ok(1.0 - idealPct)
    ensures cost == 0.0 ==> SuggestPrice(cost, idealPct) == Ok(0.0)
  {
    var p := SuggestPrice(cost, idealPct).value;
    SignOfQuotient(p, idealPct, cost);
    if cost > 0.0 {
      MarginAtShare(p, cost, idealPct);
    }
  }

  /** p * r == c with r > 0: p has the sign of c. */
  lemma SignOfQuotient(p: real, r: real, c: real)
    requires r > 0.0 && p * r == c
    ensures c > 0.0 <==> p > 0.0
    ensures c == 0.0 <==> p == 0.0
  {
    if p > 0.0 {
      assert p * r > 0.0;
    } else if p < 0.0 {
      assert p * r < 0.0;
    }
  }

  /** At a price p where the cost is the share r of it, the margin is 1 - r. */
  lemma MarginAtShare(p: real, cost: real, r: real)
    requires p > 0.0 && p * r == cost
    ensures (p - cost) / p == 1.0 - r
  {
    var a := 1.0 - r;
    assert p - cost == p * a;
    var q := (p * a) / p;
    assert p * q == p * a;
    assert p * (q - a) == 0.0;
  }

  // ---- print_summary: price lookup, then cost, price, margin, tier ----

  /** {name: ing.price_per_kg for name, ing in ingredients.items()}, raising
      at the first ingredient whose weight is not positive. */
  function PriceLookup(ingredients: Dict<string, Ingredient>): Result<map<string, real>>
    requires Valid(ingredients)
  {
    PricesOver(ingredients.keys, ingredients.entries)
  }

  function PricesOver(ks: seq<string>, m: map<string, Ingredient>): Result<map<string, real>>
    requires forall i :: 0 <= i < |ks| ==> ks[i] in m
  {
    if ks == [] then Ok(map[])
    else
      match PricesOver(ks[..|ks| - 1], m)
      case Err(e) => Err(e)
      case Ok(prices) =>
        var k := ks[|ks| - 1];
        match PricePerKg(m[k])
        case Err(e) => Err(e)
        case Ok(p) => Ok(prices[k := p])
  }

  lemma {:induction false} PricesOverOk(ks: seq<string>, m: map<string, Ingredient>)
    requires forall i :: 0 <= i < |ks| ==> ks[i] in m
    ensures PricesOver(ks, m).Ok? <==> forall i :: 0 <= i < |ks| ==> m[ks[i]].weightKg > 0.0
  {
    if ks != [] {
      var front := ks[..|ks| - 1];
      PricesOverOk(front, m);
      assert forall i :: 0 <= i < |front| ==> front[i] == ks[i];
    }
  }

  lemma {:induction false} PricesOverValues(ks: seq<string>, m: map<string, Ingredient>)
    requires forall i :: 0 <= i < |ks| ==> ks[i] in m
    requires PricesOver(ks, m).Ok?
    ensures forall k :: k in PricesOver(ks, m).value <==> k in ks
    ensures forall k :: k in ks ==> PricePerKg(m[k]) == Ok(PricesOver(ks, m).value[k])
  {
    if ks != [] {
      var front, k := ks[..|ks| - 1], ks[|ks| - 1];
      assert forall i :: 0 <= i < |front| ==> front[i] == ks[i];
      PricesOverValues(front, m);
      assert forall x :: x in ks <==> x in front || x == k;
    }
  }

  /** The lookup succeeds exactly when every weight is positive; it then
      prices every ingredient and nothing else, each at its price per kg. */
  lemma PriceLookupFacts(ingredients: Dict<string, Ingredient>)
    requires Valid(ingredients)
    ensures PriceLookup(ingredients).Ok? <==> forall k :: k in ingredients.entries ==> ingredients.entries[k].weightKg > 0.0
    ensures PriceLookup(ingredients).Ok? ==>
      && PriceLookup(ingredients).value.Keys == ingredients.entries.Keys
      && forall k :: k in ingredients.entries ==> PricePerKg(ingredients.entries[k]) == Ok(PriceLookup(ingredients).value[k])
  {
    var d := ingredients;
    PricesOverOk(d.keys, d.entries);
    if PriceLookup(d).Ok? {
      PricesOverValues(d.keys, d.entries);
      var prices := PriceLookup(d).value;
      assert forall k :: k in prices <==> k in d.entries;
    }
    if forall i :: 0 <= i < |d.keys| ==> d.entries[d.keys[i]].weightKg > 0.0 {
      forall k | k in d.entries ensures d.entries[k].weightKg > 0.0 {
        assert k in d.keys;
      }
    }
  }

  /** One line of the menu summary. */
  datatype MenuLine = MenuLine(menu: string, cost: real, suggested: real, margin: real, tier: string)

  /** One recipe through cost, suggest_price, gross_margin and
      categorise_price, stopping at the first exception. */
  function PriceRecipe(recipe: Recipe, prices: map<string, real>, tiers: seq<real>, idealPct: real): Result<MenuLine>
    requires Valid(recipe.ingredients)
  {
    match CostOf(Items(recipe.ingredients), prices)
    case Err(e) => Err(e)
    case Ok(c) =>
      match SuggestPrice(c, idealPct)
      case Err(e) => Err(e)
      case Ok(p) =>
        match GrossMargin(p, c)
        case Err(e) => Err(e)
        case Ok(m) =>
          match Categorise(p, tiers)
          case Err(e) => Err(e)
          case Ok(t) => Ok(MenuLine(recipe.name, c, p, m, t))
  }

  ghost predicate AllValid(recipes: seq<Recipe>) {
    forall i :: 0 <= i < |recipes| ==> Valid(recipes[i].ingredients)
  }

  /** The lines print_summary reports, or the first exception it raises. */
  function SummaryOf(ingredients: Dict<string, Ingredient>, recipes: seq<Recipe>, tiers: seq<real>, idealPct: real): Result<seq<MenuLine>>
    requires Valid(ingredients) && AllValid(recipes)
  {
    match PriceLookup(ingredients)
    case Err(e) => Err(e)
    case Ok(prices) => LinesOf(recipes, prices, tiers, idealPct)
  }

  function LinesOf(recipes: seq<Recipe>, prices: map<string, real>, tiers: seq<real>, idealPct: real): Result<seq<MenuLine>>
    requires AllValid(recipes)
  {
    if recipes == [] then Ok([])
    else
      match LinesOf(recipes[..|recipes| - 1], prices, tiers, idealPct)
      case Err(e) => Err(e)
      case Ok(lines) =>
        match PriceRecipe(recipes[|recipes| - 1], prices, tiers, idealPct)
        case Err(e) => Err(e)
        case Ok(line) => Ok(lines + [line])
  }

  /** print_summary without the printing: the recipe loop. */
  method PrintSummary(ingredients: Dict<string, Ingredient>, recipes: seq<Recipe>, tiers: seq<real>, idealPct: real)
    returns (r: Result<seq<MenuLine>>)
    requires Valid(ingredients) && AllValid(recipes)
    ensures r == SummaryOf(ingredients, recipes, tiers, idealPct)
  {
    var lookup := PriceLookup(ingredients);
    if lookup.Err? {
      return Err(lookup.error);
    }
    var prices := lookup.value;
    var lines: seq<MenuLine> := [];
    for i := 0 to |recipes|
      invariant LinesOf(recipes[..i], prices, tiers, idealPct) == Ok(lines)
    {
      assert recipes[..i + 1][..i] == recipes[..i];
      var c := RecipeCost(recipes[i], prices);
      if c.Err? {
        LinesOfPrefixErr(recipes, prices, tiers, idealPct, i + 1);
        return Err(c.error);
      }
      var suggested := SuggestPrice(c.value, idealPct);
      if suggested.Err? {
        LinesOfPrefixErr(recipes, prices, tiers, idealPct, i + 1);
        return Err(suggested.error);
      }
      var margin := GrossMargin(suggested.value, c.value);
      if margin.Err? {
        LinesOfPrefixErr(recipes, prices, tiers, idealPct, i + 1);
        return Err(margin.error);
      }
      var tier := CategorisePrice(suggested.value, tiers);
      if tier.Err? {
        LinesOfPrefixErr(recipes, prices, tiers, idealPct, i + 1);
        return Err(tier.error);
      }
      lines := lines + [MenuLine(recipes[i].name, c.value, suggested.value, margin.value, tier.value)];
    }
    assert recipes[..|recipes|] == recipes;
    return Ok(lines);
  }

  lemma {:induction false} LinesOfPrefixErr(recipes: seq<Recipe>, prices: map<string, real>, tiers: seq<real>, idealPct: real, n: nat)
    requires AllValid(recipes)
    requires n <= |recipes| && LinesOf(recipes[..n], prices, tiers, idealPct).Err?
    ensures LinesOf(recipes, prices, tiers, idealPct) == LinesOf(recipes[..n], prices, tiers, idealPct)
    decreases |recipes| - n
  {
    if n < |recipes| {
      assert recipes[..n + 1][..n] == recipes[..n];
      LinesOfPrefixErr(recipes, prices, tiers, idealPct, n + 1);
    } else {
      assert recipes[..n] == recipes;
    }
  }

  /** A recipe that uses something, all of it priced at a positive price and
      in positive quantity (as read_recipes guarantees), costs more than 0. */
  lemma RecipeCostPositive(recipe: Recipe, prices: map<string, real>)
    requires Valid(recipe.ingredients) && |recipe.ingredients.keys| > 0
    requires forall k :: k in recipe.ingredients.entries ==> recipe.ingredients.entries[k] > 0.0
    requires forall k :: k in recipe.ingredients.entries ==> k in prices && prices[k] > 0.0
    ensures CostOf(Items(recipe.ingredients), prices).Ok?
    ensures CostOf(Items(recipe.ingredients), prices).value > 0.0
  {
    var d := recipe.ingredients;
    var items := Items(d);
    forall i | 0 <= i < |items| ensures items[i].0 in d.entries && items[i].1 == d.entries[items[i].0] {
      assert d.keys[i] in d.keys;
    }
    CostWhenAllPriced(items, prices);
    var lines := LineCosts(items, prices);
    forall i | 0 <= i < |lines| ensures lines[i] > 0.0 {
      PositiveLineCost(prices[items[i].0], items[i].1);
    }
    Stats.SumPositive(lines);
  }

  lemma PositiveLineCost(price: real, qty: real)
    requires price > 0.0 && qty > 0.0
    ensures LineCost(price, qty) > 0.0
  {
  }

  /** A recipe whose cost is sure to be positive: it uses something, and
      everything it uses is priced above 0 and used in positive quantity. */
  ghost predicate Priceable(recipe: Recipe, prices: map<string, real>) {
    && Valid(recipe.ingredients)
    && |recipe.ingredients.keys| > 0
    && forall k :: k in recipe.ingredients.entries ==>
         k in prices && prices[k] > 0.0 && recipe.ingredients.entries[k] > 0.0
  }

  /** The line for a recipe carries its name, the recipe's cost, a price
      at which that cost is the share idealPct, the target margin
      1 - share, and the tier of its suggested price. */
  ghost predicate AtTarget(line: MenuLine, recipe: Recipe, prices: map<string, real>, tiers: seq<real>, idealPct: real) {
    && line.menu == recipe.name
    && Valid(recipe.ingredients)
    && CostOf(Items(recipe.ingredients), prices) == Ok(line.cost)
    && line.suggested * idealPct == line.cost
    && line.margin == 1.0 - idealPct
    && Categorise(line.suggested, tiers) == Ok(line.tier)
  }

  lemma PriceRecipeAtTarget(recipe: Recipe, prices: map<string, real>, tiers: seq<real>, idealPct: real)
    requires Priceable(recipe, prices)
    requires 0.0 < idealPct < 1.0 && |tiers| > 0
    ensures PriceRecipe(recipe, prices, tiers, idealPct).Ok?
    ensures AtTarget(PriceRecipe(recipe, prices, tiers, idealPct).value, recipe, prices, tiers, idealPct)
  {
    RecipeCostPositive(recipe, prices);
    var c := CostOf(Items(recipe.ingredients), prices).value;
    MarginOfSuggestedPrice(c, idealPct);
    var p := SuggestPrice(c, idealPct).value;
    assert GrossMargin(p, c) == Ok(1.0 - idealPct);
    assert Categorise(p, tiers).Ok?;
    var t := Categorise(p, tiers).value;
    assert PriceRecipe(recipe, prices, tiers, idealPct) == Ok(MenuLine(recipe.name, c, p, 1.0 - idealPct, t));
  }

  /** What the summary promises for well-formed data: with positive weights
      and costs, every recipe non-empty, fully priced and in positive
      quantities, a share in (0, 1) and at least one threshold, every recipe
      gets a line with its cost, a price at which that cost is the share,
      a margin of exactly 1 - share, and the tier of that price. */
  lemma SummaryMarginsAreTarget(ingredients: Dict<string, Ingredient>, recipes: seq<Recipe>, tiers: seq<real>, idealPct: real)
    requires Valid(ingredients) && AllValid(recipes)
    requires forall k :: k in ingredients.entries ==> ingredients.entries[k].weightKg > 0.0 && ingredients.entries[k].costWon > 0.0
    requires forall i :: 0 <= i < |recipes| ==> |recipes[i].ingredients.keys| > 0
    requires forall i, k :: 0 <= i < |recipes| && k in recipes[i].ingredients.entries ==>
      k in ingredients.entries && recipes[i].ingredients.entries[k] > 0.0
    requires 0.0 < idealPct < 1.0 && |tiers| > 0
    ensures PriceLookup(ingredients).Ok? && SummaryOf(ingredients, recipes, tiers, idealPct).Ok?
    ensures |SummaryOf(ingredients, recipes, tiers, idealPct).value| == |recipes|
    ensures forall i :: 0 <= i < |recipes| ==>
      AtTarget(SummaryOf(ingredients, recipes, tiers, idealPct).value[i], recipes[i], PriceLookup(ingredients).value, tiers, idealPct)
  {
    PriceLookupFacts(ingredients);
    var prices := PriceLookup(ingredients).value;
    assert SummaryOf(ingredients, recipes, tiers, idealPct) == LinesOf(recipes, prices, tiers, idealPct);
    PricesPositive(ingredients, prices);
    RecipesPriceable(ingredients, recipes, prices);
    LinesOfAllPriced(recipes, prices, tiers, idealPct);
  }

  /** Positive weights and costs give every ingredient a positive price per kg. */
  lemma PricesPositive(ingredients: Dict<string, Ingredient>, prices: map<string, real>)
    requires Valid(ingredients) && PriceLookup(ingredients) == Ok(prices)
    requires forall k :: k in ingredients.entries ==> ingredients.entries[k].weightKg > 0.0 && ingredients.entries[k].costWon > 0.0
    ensures prices.Keys == ingredients.entries.Keys
    ensures forall k :: k in prices ==> prices[k] > 0.0
  {
    PriceLookupFacts(ingredients);
    forall k | k in prices ensures prices[k] > 0.0 {
      var ing := ingredients.entries[k];
      PositiveQuotient(ing.costWon, ing.weightKg, PricePerKg(ing).value);
    }
  }

  /** Non-empty recipes over known ingredients in positive quantities are
      priceable once every ingredient has a positive price. */
  lemma RecipesPriceable(ingredients: Dict<string, Ingredient>, recipes: seq<Recipe>, prices: map<string, real>)
    requires AllValid(recipes)
    requires prices.Keys == ingredients.entries.Keys && forall k :: k in prices ==> prices[k] > 0.0
    requires forall i :: 0 <= i < |recipes| ==> |recipes[i].ingredients.keys| > 0
    requires forall i, k :: 0 <= i < |recipes| && k in recipes[i].ingredients.entries ==>
      k in ingredients.entries && recipes[i].ingredients.entries[k] > 0.0
    ensures forall i :: 0 <= i < |recipes| ==> Priceable(recipes[i], prices)
  {
    forall i | 0 <= i < |recipes| ensures Priceable(recipes[i], prices) {
      var r := recipes[i].ingredients;
      forall k | k in r.entries ensures k in prices && prices[k] > 0.0 && r.entries[k] > 0.0 {
        assert k in ingredients.entries;
      }
    }
  }

  lemma PositiveQuotient(cost: real, weight: real, p: real)
    requires cost > 0.0 && weight > 0.0 && p * weight == cost
    ensures p > 0.0
  {
  }

  lemma {:induction false} LinesOfAllPriced(recipes: seq<Recipe>, prices: map<string, real>, tiers: seq<real>, idealPct: real)
    requires AllValid(recipes)
    requires forall i :: 0 <= i < |recipes| ==> Priceable(recipes[i], prices)
    requires 0.0 < idealPct < 1.0 && |tiers| > 0
    ensures LinesOf(recipes, prices, tiers, idealPct).Ok?
    ensures |LinesOf(recipes, prices, tiers, idealPct).value| == |recipes|
    ensures forall i :: 0 <= i < |recipes| ==>
      AtTarget(LinesOf(recipes, prices, tiers, idealPct).value[i], recipes[i], prices, tiers, idealPct)
  {
    if recipes != [] {
      var n := |recipes| - 1;
      var front := recipes[..n];
      PriceableFront(recipes, front, prices);
      LinesOfAllPriced(front, prices, tiers, idealPct);
      PriceRecipeAtTarget(recipes[n], prices, tiers, idealPct);
      LinesOfSnoc(recipes, prices, tiers, idealPct);
      var before := LinesOf(front, prices, tiers, idealPct).value;
      var line := PriceRecipe(recipes[n], prices, tiers, idealPct).value;
      AtTargetSnoc(before, line, recipes, front, prices, tiers, idealPct);
    }
  }

  /** The recipes before the last are as well formed and priceable as all of them. */
  lemma PriceableFront(recipes: seq<Recipe>, front: seq<Recipe>, prices: map<string, real>)
    requires recipes != [] && front == recipes[..|recipes| - 1]
    requires forall i :: 0 <= i < |recipes| ==> Priceable(recipes[i], prices)
    ensures AllValid(front)
    ensures forall i :: 0 <= i < |front| ==> Priceable(front[i], prices)
  {
    assert forall i :: 0 <= i < |front| ==> front[i] == recipes[i];
  }

  /** Lines at target for the earlier recipes, and one more line at target
      for the next recipe, are lines at target for all of them. */
  lemma AtTargetSnoc(lines: seq<MenuLine>, line: MenuLine, recipes: seq<Recipe>, front: seq<Recipe>, prices: map<string, real>, tiers: seq<real>, idealPct: real)
    requires recipes != [] && front == recipes[..|recipes| - 1] && |lines| == |front|
    requires forall i :: 0 <= i < |front| ==> AtTarget(lines[i], front[i], prices, tiers, idealPct)
    requires AtTarget(line, recipes[|recipes| - 1], prices, tiers, idealPct)
    ensures |lines + [line]| == |recipes|
    ensures forall i :: 0 <= i < |recipes| ==> AtTarget((lines + [line])[i], recipes[i], prices, tiers, idealPct)
  {
    forall i | 0 <= i < |recipes|
      ensures AtTarget((lines + [line])[i], recipes[i], prices, tiers, idealPct)
    {
      if i < |front| {
        assert (lines + [line])[i] == lines[i] && front[i] == recipes[i];
      } else {
        assert (lines + [line])[i] == line;
      }
    }
  }

  /** When the recipes before the last are summarised and the last is
      priced, the summary is the earlier lines followed by the last one. */
  lemma LinesOfSnoc(recipes: seq<Recipe>, prices: map<string, real>, tiers: seq<real>, idealPct: real)
    requires AllValid(recipes) && recipes != []
    requires AllValid(recipes[..|recipes| - 1])
    requires LinesOf(recipes[..|recipes| - 1], prices, tiers, idealPct).Ok?
    requires PriceRecipe(recipes[|recipes| - 1], prices, tiers, idealPct).Ok?
    ensures LinesOf(recipes, prices, tiers, idealPct) ==
      Ok(LinesOf(recipes[..|recipes| - 1], prices, tiers, idealPct).value + [PriceRecipe(recipes[|recipes| - 1], prices, tiers, idealPct).value])
  {
  }

  // ---- load_real_data ----

  /** The price of the base cost unit all real products are scaled from. */
  const BaseCost: real := 1000.0

  /** Distinct product names, as the keys of a Python dict are. */
  ghost predicate DistinctNames(products: seq<RealProducts.Product>) {
    forall i, j :: 0 <= i < j < |products| ==> products[i].name != products[j].name
  }

  /** The ingredient and the recipe load_real_data makes for one product. */
  predicate LoadedAs(p: RealProducts.Product, ingredients: Dict<string, Ingredient>, recipe: Recipe) {
    && p.name in ingredients.entries
    && ingredients.entries[p.name] == Ingredient(p.name, 1.0, BaseCost * p.costRatio)
    && recipe == Recipe(p.name, Dict([p.name], map[p.name := 1.0]))
  }

  /** The two loops of load_real_data over a product table: a 1 kg
      ingredient costing 1000 x ratio per product, keyed in table order,
      and a recipe using exactly 1 kg of it. */
  method LoadProducts(products: seq<RealProducts.Product>) returns (ingredients: Dict<string, Ingredient>, recipes: seq<Recipe>)
    requires DistinctNames(products)
    ensures Valid(ingredients) && AllValid(recipes)
    ensures |ingredients.keys| == |products| && |recipes| == |products|
    ensures forall i :: 0 <= i < |products| ==> ingredients.keys[i] == products[i].name
    ensures forall i :: 0 <= i < |products| ==> LoadedAs(products[i], ingredients, recipes[i])
    ensures forall k :: k in ingredients.entries ==> ingredients.entries[k].weightKg == 1.0
  {
    ingredients := LoadIngredients(products);
    recipes := LoadRecipes(products);
  }

  /** The ingredient the first loop makes for one product. */
  function ProductIngredient(p: RealProducts.Product): Ingredient {
    Ingredient(p.name, 1.0, BaseCost * p.costRatio)
  }

  /** The dict the first loop builds from the first products. */
  function IngredientsOf(products: seq<RealProducts.Product>): Dict<string, Ingredient> {
    if products == [] then Empty()
    else
      var p := products[|products| - 1];
      Put(IngredientsOf(products[..|products| - 1]), p.name, ProductIngredient(p))
  }

  /** With distinct names the keys are the product names in table order, and
      every ingredient weighs 1 kg. */
  lemma {:induction false} IngredientsOfKeys(products: seq<RealProducts.Product>)
    requires DistinctNames(products)
    ensures Valid(IngredientsOf(products)) && |IngredientsOf(products).keys| == |products|
    ensures forall i :: 0 <= i < |products| ==> IngredientsOf(products).keys[i] == products[i].name
    ensures forall k :: k in IngredientsOf(products).entries ==> IngredientsOf(products).entries[k].weightKg == 1.0
  {
    if products != [] {
      var front, p := products[..|products| - 1], products[|products| - 1];
      DistinctFront(products, front);
      IngredientsOfKeys(front);
      var before := IngredientsOf(front);
      assert p.name !in before.keys by {
        forall j | 0 <= j < |before.keys| ensures before.keys[j] != p.name {
          assert before.keys[j] == front[j].name;
        }
      }
      assert IngredientsOf(products).keys == before.keys + [p.name];
    }
  }

  /** The products before the last have distinct names, none of them the
      last product's. */
  lemma DistinctFront(products: seq<RealProducts.Product>, front: seq<RealProducts.Product>)
    requires products != [] && front == products[..|products| - 1] && DistinctNames(products)
    ensures DistinctNames(front)
    ensures forall j :: 0 <= j < |front| ==> front[j] == products[j] && front[j].name != products[|products| - 1].name
  {
    assert forall j :: 0 <= j < |front| ==> front[j] == products[j];
  }

  /** Each product's name holds its own ingredient. */
  lemma {:induction false} IngredientsOfEntry(products: seq<RealProducts.Product>, i: int)
    requires DistinctNames(products) && 0 <= i < |products|
    ensures products[i].name in IngredientsOf(products).entries
    ensures IngredientsOf(products).entries[products[i].name] == ProductIngredient(products[i])
  {
    var front := products[..|products| - 1];
    if i < |front| {
      assert front[i] == products[i];
      assert products[i].name != products[|front|].name;
      assert DistinctNames(front) by {
        assert forall k :: 0 <= k < |front| ==> front[k] == products[k];
      }
      IngredientsOfEntry(front, i);
    }
  }

  /** The first loop: one 1 kg ingredient per product, in table order. */
  method LoadIngredients(products: seq<RealProducts.Product>) returns (ingredients: Dict<string, Ingredient>)
    requires DistinctNames(products)
    ensures Valid(ingredients)
    ensures |ingredients.keys| == |products|
    ensures forall i :: 0 <= i < |products| ==> ingredients.keys[i] == products[i].name
    ensures forall i :: 0 <= i < |products| ==>
      products[i].name in ingredients.entries &&
      ingredients.entries[products[i].name] == Ingredient(products[i].name, 1.0, BaseCost * products[i].costRatio)
    ensures forall k :: k in ingredients.entries ==> ingredients.entries[k].weightKg == 1.0
  {
    ingredients := Empty();
    for i := 0 to |products|
      invariant ingredients == IngredientsOf(products[..i])
    {
      assert products[..i + 1][..i] == products[..i];
      var p := products[i];
      ingredients := Put(ingredients, p.name, Ingredient(p.name, 1.0, BaseCost * p.costRatio));
    }
    assert products[..|products|] == products;
    IngredientsOfKeys(products);
    forall i | 0 <= i < |products|
      ensures products[i].name in ingredients.entries
      ensures ingredients.entries[products[i].name] == Ingredient(products[i].name, 1.0, BaseCost * products[i].costRatio)
    {
      IngredientsOfEntry(products, i);
    }
  }

  /** The second loop: a recipe per product using 1 kg of its ingredient. */
  method LoadRecipes(products: seq<RealProducts.Product>) returns (recipes: seq<Recipe>)
    ensures AllValid(recipes) && |recipes| == |products|
    ensures forall i :: 0 <= i < |products| ==>
      recipes[i] == Recipe(products[i].name, Dict([products[i].name], map[products[i].name := 1.0]))
  {
    recipes := [];
    for i := 0 to |products|
      invariant |recipes| == i
      invariant forall j :: 0 <= j < i ==>
        recipes[j] == Recipe(products[j].name, Dict([products[j].name], map[products[j].name := 1.0]))
    {
      var p := products[i];
      recipes := recipes + [Recipe(p.name, Dict([p.name], map[p.name := 1.0]))];
    }
  }

  /** load_real_data: the sixteen products of the shop's table. */
  method LoadRealData() returns (ingredients: Dict<string, Ingredient>, recipes: seq<Recipe>)
    ensures Valid(ingredients) && AllValid(recipes)
    ensures |ingredients.keys| == 16 && |recipes| == 16
    ensures forall i :: 0 <= i < 16 ==> ingredients.keys[i] == RealProducts.Products[i].name
    ensures forall i :: 0 <= i < 16 ==> LoadedAs(RealProducts.Products[i], ingredients, recipes[i])
    ensures forall k :: k in ingredients.entries ==> ingredients.entries[k].weightKg == 1.0
  {
    RealProducts.ProductsWellFormed();
    ingredients, recipes := LoadProducts(RealProducts.Products);
  }

  /** With the loaded data, each product's recipe costs 1000 x its ratio. */
  lemma RealRecipeCost(ingredients: Dict<string, Ingredient>, p: RealProducts.Product, recipe: Recipe)
    requires Valid(ingredients)
    requires forall k :: k in ingredients.entries ==> ingredients.entries[k].weightKg == 1.0
    requires LoadedAs(p, ingredients, recipe)
    ensures Valid(recipe.ingredients)
    ensures PriceLookup(ingredients).Ok?
    ensures CostOf(Items(recipe.ingredients), PriceLookup(ingredients).value) == Ok(BaseCost * p.costRatio)
  {
    PriceLookupFacts(ingredients);
    var prices := PriceLookup(ingredients).value;
    var items := Items(recipe.ingredients);
    assert items == [(p.name, 1.0)];
    assert prices[p.name] == BaseCost * p.costRatio;
    assert items[..0] == [];
  }
}
