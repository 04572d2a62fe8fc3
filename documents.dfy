/** The stored documents the front-end services compute with (sweets,
    recipes, ingredients) and the identifiers that link them.

    A number field that is missing or `NaN` is falsy and behaves like 0 in
    every test these services make on it, so it is written 0; a stock that
    may be missing is an `Option`, because a missing stock compares as
    neither less nor greater than a number. */
module Documents {
  import opened Text

  /** A document id as the front end holds it: text, a number, or absent. */
  datatype Id = TextId(s: string) | NumId(n: real) | Undefined | Null

  /** `Boolean(id)`. */
  predicate IdTruthy(id: Id) {
    match id
    case TextId(s) => s != ""
    case NumId(n) => n != 0.0
    case _ => false
  }

  /** `String(id)`, where `show` is the engine's printing of a number. */
  function IdString(id: Id, show: real -> string): string {
    match id
    case TextId(s) => s
    case NumId(n) => show(n)
    case Undefined => "undefined"
    case Null => "null"
  }

  /** A sweet: its `stock` is `None` when the field is missing. */
  datatype Sweet = Sweet(id: Id, name: string, stock: Option<real>)

  /** One line of a recipe: an ingredient and the quantity of it, in the
      ingredient's base unit. */
  datatype RecipeIngredient = RecipeIngredient(ingredientId: Id, quantityInBaseUnit: real)

  /** A recipe carries the id of the sweet it makes. */
  datatype Recipe = Recipe(id: Id, ingredients: seq<RecipeIngredient>)

  /** An ingredient: `costPerBaseUnit` is `None` when it is missing or not a
      number. */
  datatype Ingredient = Ingredient(id: Id, costPerBaseUnit: Option<real>)

  /** `sweets.find(s => s.id === id)`: the first sweet with that id. */
  function FindSweet(sweets: seq<Sweet>, id: Id): (r: Option<Sweet>)
    ensures r.None? <==> forall k :: 0 <= k < |sweets| ==> sweets[k].id != id
    ensures r.Some? ==> r.value in sweets && r.value.id == id
  {
    if sweets == [] then None
    else if sweets[0].id == id then Some(sweets[0])
    else FindSweet(sweets[1..], id)
  }

  /** `recipes.find(r => r.id === id)`. */
  function FindRecipe(recipes: seq<Recipe>, id: Id): (r: Option<Recipe>)
    ensures r.None? <==> forall k :: 0 <= k < |recipes| ==> recipes[k].id != id
    ensures r.Some? ==> r.value in recipes && r.value.id == id
  {
    if recipes == [] then None
    else if recipes[0].id == id then Some(recipes[0])
    else FindRecipe(recipes[1..], id)
  }

  /** `ingredients.find(i => i.id === id)`. */
  function FindIngredient(ingredients: seq<Ingredient>, id: Id): (r: Option<Ingredient>)
    ensures r.None? <==> forall k :: 0 <= k < |ingredients| ==> ingredients[k].id != id
    ensures r.Some? ==> r.value in ingredients && r.value.id == id
  {
    if ingredients == [] then None
    else if ingredients[0].id == id then Some(ingredients[0])
    else FindIngredient(ingredients[1..], id)
  }

  /** `ingredients.find(i => String(i.id) === String(id))`: the ids are
      compared as text, so the number 1 and the text "1" match. */
  function FindIngredientByText(ingredients: seq<Ingredient>, id: Id, show: real -> string): (r: Option<Ingredient>)
    ensures r.None? <==> forall k :: 0 <= k < |ingredients| ==> IdString(ingredients[k].id, show) != IdString(id, show)
    ensures r.Some? ==> r.value in ingredients && IdString(r.value.id, show) == IdString(id, show)
  {
    if ingredients == [] then None
    else if IdString(ingredients[0].id, show) == IdString(id, show) then Some(ingredients[0])
    else FindIngredientByText(ingredients[1..], id, show)
  }

  /** Where every id involved is text, comparing as text is comparing the
      ids, so both searches find the same ingredient. */
  lemma {:induction false} TextIdsFindAlike(ingredients: seq<Ingredient>, s: string, show: real -> string)
    requires forall k :: 0 <= k < |ingredients| ==> ingredients[k].id.TextId?
    ensures FindIngredientByText(ingredients, TextId(s), show) == FindIngredient(ingredients, TextId(s))
  {
    if ingredients != [] {
      TextIdsFindAlike(ingredients[1..], s, show);
    }
  }
}
