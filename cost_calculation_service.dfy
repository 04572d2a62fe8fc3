/** `costCalculationService` (`src/services/costCalculationService.js`): the
    cost of a sweet from its recipe and the ingredient prices, and the profit
    and margin of a price over a cost. Amounts are exact reals; the only
    rounding written out is the four-decimal `Math.round` of the cost. */
module CostCalculationService {
  import opened Text
  import opened Documents

  /** The first argument of `calculateSweetCost`: a sweet object, whose `id`
      is used, or a bare id. */
  datatype SweetRef = SweetObject(sweet: Sweet) | BareId(id: Id)

  function SweetIdOf(ref: SweetRef): Id {
    match ref
    case SweetObject(s) => s.id
    case BareId(id) => id
  }

  /** What one recipe line adds: its quantity times the unit cost of the
      ingredient with the same id as text; nothing when that ingredient is
      missing or its cost is not a number. */
  function LineCost(line: RecipeIngredient, ingredients: seq<Ingredient>, show: real -> string): real {
    match FindIngredientByText(ingredients, line.ingredientId, show)
    case None => 0.0
    case Some(ingredient) =>
      if ingredient.costPerBaseUnit.None? then 0.0
      else line.quantityInBaseUnit * ingredient.costPerBaseUnit.value
  }

  /** The `reduce` over the recipe lines, from 0, adding one line at a time. */
  function RecipeCost(lines: seq<RecipeIngredient>, ingredients: seq<Ingredient>, show: real -> string): real {
    if lines == [] then 0.0
    else RecipeCost(lines[..|lines| - 1], ingredients, show) + LineCost(lines[|lines| - 1], ingredients, show)
  }

  /** `Math.round(x * 10000) / 10000`; `Math.round` rounds halves up. */
  function Round4(x: real): real {
    (x * 10000.0 + 0.5).Floor as real / 10000.0
  }

  /** `calculateSweetCost(sweetOrSweetId, recipes, ingredients)`. */
  function CalculateSweetCost(ref: SweetRef, recipes: seq<Recipe>, ingredients: seq<Ingredient>, show: real -> string): (cost: real)
    ensures FindRecipe(recipes, SweetIdOf(ref)).None? ==> cost == 0.0
  {
    match FindRecipe(recipes, SweetIdOf(ref))
    case None => 0.0
    case Some(recipe) => Round4(RecipeCost(recipe.ingredients, ingredients, show))
  }

  /** `calculateProfitMargin(price, cost)`: the profit as a percentage of the
      price, 0 for a price that is not positive. */
  function CalculateProfitMargin(price: real, cost: real): real {
    if price <= 0.0 then 0.0 else (price - cost) / price * 100.0
  }

  /** `calculateProfit(price, cost)`: the profit, never below zero. */
  function CalculateProfit(price: real, cost: real): (profit: real)
    ensures profit >= 0.0 && profit >= price - cost
    ensures profit == 0.0 || profit == price - cost
  {
    if 0.0 >= price - cost then 0.0 else price - cost
  }

  // ------------------------------------------------------------ properties

  /** The rounded value is within half a ten-thousandth of the exact one. */
  lemma Round4Bound(x: real)
    ensures x - 0.00005 < Round4(x) <= x + 0.00005
  {
    var y := x * 10000.0 + 0.5;
    assert y - 1.0 < y.Floor as real <= y;
  }

  /** A value with at most four decimals is kept as it is, so rounding twice
      is rounding once. */
  lemma Round4Idempotent(x: real)
    ensures Round4(Round4(x)) == Round4(x)
  {
    var k := (x * 10000.0 + 0.5).Floor;
    var r := k as real / 10000.0;
    assert r * 10000.0 == k as real;
    assert (k as real + 0.5).Floor == k;
  }

  /** The cost of a sweet is its recipe's exact cost up to the rounding. */
  lemma SweetCostRounding(ref: SweetRef, recipes: seq<Recipe>, ingredients: seq<Ingredient>, show: real -> string)
    requires FindRecipe(recipes, SweetIdOf(ref)).Some?
    ensures var exact := RecipeCost(FindRecipe(recipes, SweetIdOf(ref)).value.ingredients, ingredients, show);
            exact - 0.00005 < CalculateSweetCost(ref, recipes, ingredients, show) <= exact + 0.00005
  {
    Round4Bound(RecipeCost(FindRecipe(recipes, SweetIdOf(ref)).value.ingredients, ingredients, show));
  }

  /** A sweet object costs what its bare id costs. */
  lemma ObjectOrId(sweet: Sweet, recipes: seq<Recipe>, ingredients: seq<Ingredient>, show: real -> string)
    ensures CalculateSweetCost(SweetObject(sweet), recipes, ingredients, show)
            == CalculateSweetCost(BareId(sweet.id), recipes, ingredients, show)
  {
  }

  /** The cost of a recipe is the sum of the costs of its parts. */
  lemma {:induction false} RecipeCostAppend(a: seq<RecipeIngredient>, b: seq<RecipeIngredient>, ingredients: seq<Ingredient>, show: real -> string)
    ensures RecipeCost(a + b, ingredients, show) == RecipeCost(a, ingredients, show) + RecipeCost(b, ingredients, show)
  {
    if b == [] {
      assert a + b == a;
    } else {
      var init := b[..|b| - 1];
      assert (a + b)[..|a + b| - 1] == a + init;
      assert (a + b)[|a + b| - 1] == b[|b| - 1];
      RecipeCostAppend(a, init, ingredients, show);
    }
  }

  /** Lines whose ingredient is missing or has no numeric cost add nothing:
      a recipe made only of such lines costs 0. */
  lemma {:induction false} SkippedLinesCostNothing(lines: seq<RecipeIngredient>, ingredients: seq<Ingredient>, show: real -> string)
    requires forall k :: 0 <= k < |lines| ==>
      var found := FindIngredientByText(ingredients, lines[k].ingredientId, show);
      found.None? || found.value.costPerBaseUnit.None?
    ensures RecipeCost(lines, ingredients, show) == 0.0
  {
    if lines != [] {
      SkippedLinesCostNothing(lines[..|lines| - 1], ingredients, show);
    }
  }

  /** With quantities and unit costs that are not negative, no recipe costs
      less than 0, and adding a line never lowers the cost. */
  lemma {:induction false} RecipeCostNonNegative(lines: seq<RecipeIngredient>, ingredients: seq<Ingredient>, show: real -> string)
    requires forall k :: 0 <= k < |lines| ==> lines[k].quantityInBaseUnit >= 0.0
    requires forall k :: 0 <= k < |ingredients| ==> ingredients[k].costPerBaseUnit.GetOr(0.0) >= 0.0
    ensures RecipeCost(lines, ingredients, show) >= 0.0
    ensures forall k :: 0 <= k < |lines| ==> LineCost(lines[k], ingredients, show) >= 0.0
  {
    forall k | 0 <= k < |lines| ensures LineCost(lines[k], ingredients, show) >= 0.0 {
      var found := FindIngredientByText(ingredients, lines[k].ingredientId, show);
      if found.Some? {
        var j :| 0 <= j < |ingredients| && ingredients[j] == found.value;
      }
    }
    if lines != [] {
      RecipeCostNonNegative(lines[..|lines| - 1], ingredients, show);
    }
  }

  /** The margin is the profit (before the floor at zero) per unit of price,
      in percent; it is positive exactly when the profit is. */
  lemma MarginOfProfit(price: real, cost: real)
    requires price > 0.0
    ensures CalculateProfitMargin(price, cost) * price == (price - cost) * 100.0
    ensures CalculateProfitMargin(price, cost) > 0.0 <==> CalculateProfit(price, cost) > 0.0
    ensures CalculateProfitMargin(price, cost) <= 100.0 <==> cost >= 0.0
    ensures CalculateProfit(price, cost) > 0.0 ==>
            CalculateProfitMargin(price, cost) == CalculateProfit(price, cost) / price * 100.0
  {
    var m := CalculateProfitMargin(price, cost);
    assert m == (price - cost) / price * 100.0;
    assert m * price == (price - cost) * 100.0;
    ProductSign(m, price);
    assert (m - 100.0) * price == -cost * 100.0;
    ProductSign(m - 100.0, price);
  }

  /** A product with a positive factor has the sign of the other factor. */
  lemma ProductSign(x: real, p: real)
    requires p > 0.0
    ensures x * p > 0.0 <==> x > 0.0
    ensures x * p <= 0.0 <==> x <= 0.0
  {
    if x > 0.0 {
      assert x * p > 0.0;
    } else {
      assert (-x) * p >= 0.0;
    }
  }

  /** A price that is not positive has margin 0, whatever the cost, and a
      price equal to the cost has neither profit nor margin. */
  lemma NoMargin(price: real, cost: real)
    ensures price <= 0.0 ==> CalculateProfitMargin(price, cost) == 0.0
    ensures CalculateProfit(price, price) == 0.0 && CalculateProfitMargin(price, price) == 0.0
  {
  }
}
