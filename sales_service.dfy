/** `salesService` (`src/services/salesService.js`): the validation of a sale
    and of its items against the sweets in stock, the cost of a sold item
    from its recipe, the sale document built from a cart, and the stock
    updates `finalizeSale` issues.

    The remote document service is not modelled: `finalizeSale` records the
    calls it makes, and which of them throw (and with what message) is a
    parameter. The clock and the random sale id are parameters too. */
module SalesService {
  import opened Text
  import opened Documents
  import CostCalculationService
  import PdvPage

  // ------------------------------------------------------------ validation

  /** An item of a sale to validate; a missing or `NaN` number is 0. */
  datatype SaleItem = SaleItem(sweetId: Id, quantity: real, priceAtSale: real)

  /** A sale to validate: `items` is `None` when the field is missing. */
  datatype Sale = Sale(items: Option<seq<SaleItem>>, totalAmount: real, operatorId: Id)

  /** `{isValid: true}` or `{isValid: false, error}`. */
  datatype Validation = Valid | Invalid(error: string)

  const INCOMPLETE_ITEM := "Item de venda incompleto"
  const BAD_QUANTITY := "Quantidade deve ser maior que zero"
  const NEGATIVE_PRICE := "Preço não pode ser negativo"
  const NO_ITEMS := "Venda sem itens"
  const BAD_TOTAL := "Total de venda inválido"
  const NO_OPERATOR := "Operador não identificado"

  function NotFound(sweetId: Id, show: real -> string): string {
    "Produto " + IdString(sweetId, show) + " não encontrado"
  }

  function LowStock(sweet: Sweet, stock: real, quantity: real, show: real -> string): string {
    "Estoque insuficiente de \"" + sweet.name + "\". Disponível: " + show(stock) + ", Solicitado: " + show(quantity)
  }

  /** `validateSaleItem(item)`: an item lacking its sweet id, quantity or
      price (0 counts as lacking) is incomplete; then the quantity must be
      positive and the price not negative. */
  function ValidateSaleItem(item: SaleItem): Validation {
    if !IdTruthy(item.sweetId) || item.quantity == 0.0 || item.priceAtSale == 0.0 then Invalid(INCOMPLETE_ITEM)
    else if item.quantity <= 0.0 then Invalid(BAD_QUANTITY)
    else if item.priceAtSale < 0.0 then Invalid(NEGATIVE_PRICE)
    else Valid
  }

  /** The checks of the loop of `validateSale` on one item: the item itself,
      then its sweet, then the stock (`stock < quantity`, which is false for
      a missing stock). */
  function ItemCheck(item: SaleItem, sweets: seq<Sweet>, show: real -> string): Validation {
    var v := ValidateSaleItem(item);
    if v.Invalid? then v
    else match FindSweet(sweets, item.sweetId)
      case None => Invalid(NotFound(item.sweetId, show))
      case Some(sweet) =>
        if sweet.stock.Some? && sweet.stock.value < item.quantity
        then Invalid(LowStock(sweet, sweet.stock.value, item.quantity, show))
        else Valid
  }

  /** The result of the loop: the first failing item's error. */
  function ItemsCheck(items: seq<SaleItem>, sweets: seq<Sweet>, show: real -> string): Validation {
    if items == [] then Valid
    else
      var v := ItemCheck(items[0], sweets, show);
      if v.Invalid? then v else ItemsCheck(items[1..], sweets, show)
  }

  /** What `validateSale(sale, sweets)` returns. */
  function SaleCheck(sale: Sale, sweets: seq<Sweet>, show: real -> string): Validation {
    if sale.items.None? || sale.items.value == [] then Invalid(NO_ITEMS)
    else
      var v := ItemsCheck(sale.items.value, sweets, show);
      if v.Invalid? then v
      else if sale.totalAmount == 0.0 || sale.totalAmount < 0.0 then Invalid(BAD_TOTAL)
      else if !IdTruthy(sale.operatorId) then Invalid(NO_OPERATOR)
      else Valid
  }

  /** `validateSale(sale, sweets)`: the loop over the items that returns at
      the first failure, then the checks of the total and the operator. */
  method ValidateSale(sale: Sale, sweets: seq<Sweet>, show: real -> string) returns (r: Validation)
    ensures r == SaleCheck(sale, sweets, show)
  {
    if sale.items.None? || |sale.items.value| == 0 {
      return Invalid(NO_ITEMS);
    }
    var items := sale.items.value;
    var i := 0;
    while i < |items|
      invariant 0 <= i <= |items|
      invariant ItemsCheck(items, sweets, show) == ItemsCheck(items[i..], sweets, show)
    {
      var item := items[i];
      assert items[i..][1..] == items[i + 1..];
      var validation := ValidateSaleItem(item);
      if validation.Invalid? {
        return validation;
      }
      var sweet := FindSweet(sweets, item.sweetId);
      if sweet.None? {
        return Invalid(NotFound(item.sweetId, show));
      }
      if sweet.value.stock.Some? && sweet.value.stock.value < item.quantity {
        return Invalid(LowStock(sweet.value, sweet.value.stock.value, item.quantity, show));
      }
      i := i + 1;
    }
    if sale.totalAmount == 0.0 || sale.totalAmount < 0.0 {
      return Invalid(BAD_TOTAL);
    }
    if !IdTruthy(sale.operatorId) {
      return Invalid(NO_OPERATOR);
    }
    return Valid;
  }

  /** An item passes exactly when its sweet id is truthy and its quantity and
      price are positive: a price of 0 is refused, as incomplete. */
  lemma ItemRules(item: SaleItem)
    ensures ValidateSaleItem(item).Valid? <==>
            IdTruthy(item.sweetId) && item.quantity > 0.0 && item.priceAtSale > 0.0
    ensures item.priceAtSale == 0.0 ==> ValidateSaleItem(item) == Invalid(INCOMPLETE_ITEM)
    ensures IdTruthy(item.sweetId) && item.priceAtSale != 0.0 && item.quantity < 0.0 ==>
            ValidateSaleItem(item) == Invalid(BAD_QUANTITY)
    ensures IdTruthy(item.sweetId) && item.quantity > 0.0 && item.priceAtSale < 0.0 ==>
            ValidateSaleItem(item) == Invalid(NEGATIVE_PRICE)
  {
  }

  /** The items pass exactly when each passes; otherwise the error is that
      of the first item that fails. */
  lemma {:induction false} FirstFailingItem(items: seq<SaleItem>, sweets: seq<Sweet>, show: real -> string)
    ensures ItemsCheck(items, sweets, show).Valid? <==>
            forall k :: 0 <= k < |items| ==> ItemCheck(items[k], sweets, show).Valid?
    ensures ItemsCheck(items, sweets, show).Invalid? ==>
            exists k :: 0 <= k < |items| && ItemsCheck(items, sweets, show) == ItemCheck(items[k], sweets, show)
                        && forall j :: 0 <= j < k ==> ItemCheck(items[j], sweets, show).Valid?
  {
    if items != [] {
      var rest := items[1..];
      FirstFailingItem(rest, sweets, show);
      assert forall k :: 0 < k < |items| ==> items[k] == rest[k - 1];
      if ItemCheck(items[0], sweets, show).Valid? && ItemsCheck(rest, sweets, show).Invalid? {
        var k :| 0 <= k < |rest| && ItemsCheck(rest, sweets, show) == ItemCheck(rest[k], sweets, show)
                 && forall j :: 0 <= j < k ==> ItemCheck(rest[j], sweets, show).Valid?;
        assert ItemsCheck(items, sweets, show) == ItemCheck(items[k + 1], sweets, show);
      }
    }
  }

  /** A sale is valid exactly when it has items, every item passes, is a
      known sweet and does not exceed its stock, the total is positive and
      the operator is set. */
  lemma SaleValidIff(sale: Sale, sweets: seq<Sweet>, show: real -> string)
    ensures SaleCheck(sale, sweets, show).Valid? <==>
            && sale.items.Some? && sale.items.value != []
            && (forall k :: 0 <= k < |sale.items.value| ==>
                  var item := sale.items.value[k];
                  var sweet := FindSweet(sweets, item.sweetId);
                  && ValidateSaleItem(item).Valid?
                  && sweet.Some?
                  && !(sweet.value.stock.Some? && sweet.value.stock.value < item.quantity))
            && sale.totalAmount > 0.0
            && IdTruthy(sale.operatorId)
  {
    if sale.items.Some? {
      FirstFailingItem(sale.items.value, sweets, show);
    }
  }

  /** A sweet without a stock field never stops a sale: `undefined < q` is
      false. */
  lemma MissingStockPasses(item: SaleItem, name: string, show: real -> string)
    requires ValidateSaleItem(item).Valid?
    ensures ItemCheck(item, [Sweet(item.sweetId, name, None)], show).Valid?
  {
  }

  // ------------------------------------------------------------ cost of an item

  /** One recipe line in `calculateItemCost`: the ingredient with the same id
      (`===`), its cost read as `costPerBaseUnit || 0`. */
  function ItemLineCost(line: RecipeIngredient, ingredients: seq<Ingredient>): real {
    match FindIngredient(ingredients, line.ingredientId)
    case None => 0.0
    case Some(ingredient) => line.quantityInBaseUnit * ingredient.costPerBaseUnit.GetOr(0.0)
  }

  function ItemRecipeCost(lines: seq<RecipeIngredient>, ingredients: seq<Ingredient>): real {
    if lines == [] then 0.0
    else ItemRecipeCost(lines[..|lines| - 1], ingredients) + ItemLineCost(lines[|lines| - 1], ingredients)
  }

  /** `calculateItemCost(sweetId, recipes, ingredients)`: 0 without a recipe,
      else the unrounded cost of the recipe. */
  function CalculateItemCost(sweetId: Id, recipes: seq<Recipe>, ingredients: seq<Ingredient>): (cost: real)
    ensures FindRecipe(recipes, sweetId).None? ==> cost == 0.0
  {
    match FindRecipe(recipes, sweetId)
    case None => 0.0
    case Some(recipe) => ItemRecipeCost(recipe.ingredients, ingredients)
  }

  /** Where every ingredient id is text, the sale's item cost is the cost of
      the sweet before it is rounded to four decimals: an ingredient without
      a numeric cost adds nothing to either. */
  lemma {:induction false} ItemCostIsSweetCost(lines: seq<RecipeIngredient>, ingredients: seq<Ingredient>, show: real -> string)
    requires forall k :: 0 <= k < |ingredients| ==> ingredients[k].id.TextId?
    requires forall k :: 0 <= k < |lines| ==> lines[k].ingredientId.TextId?
    ensures ItemRecipeCost(lines, ingredients) == CostCalculationService.RecipeCost(lines, ingredients, show)
  {
    if lines != [] {
      var last := lines[|lines| - 1];
      ItemCostIsSweetCost(lines[..|lines| - 1], ingredients, show);
      TextIdsFindAlike(ingredients, last.ingredientId.s, show);
      var found := FindIngredient(ingredients, last.ingredientId);
      if found.Some? {
        var j :| 0 <= j < |ingredients| && ingredients[j] == found.value;
      }
      assert ItemLineCost(last, ingredients) == CostCalculationService.LineCost(last, ingredients, show);
    }
  }

  /** The two services tell ids apart differently: a recipe line that names
      its ingredient by the number 1 finds the ingredient whose id is the
      text "1" when the sweet's cost is computed, and not when a sale's item
      cost is. */
  lemma IdKindsDiverge(show: real -> string)
    requires show(1.0) == "1"
    ensures var lines := [RecipeIngredient(NumId(1.0), 2.0)];
            var ingredients := [Ingredient(TextId("1"), Some(3.0))];
            CostCalculationService.RecipeCost(lines, ingredients, show) == 6.0
            && ItemRecipeCost(lines, ingredients) == 0.0
  {
    var lines := [RecipeIngredient(NumId(1.0), 2.0)];
    assert lines[..0] == [];
  }

  // ------------------------------------------------------------ sale document

  /** A cart line: the sweet's id and price, and the quantity taken. */
  datatype CartItem = CartItem(id: Id, price: real, quantity: real)

  /** An item of the sale document. */
  datatype SaleLine = SaleLine(sweetId: Id, sweetName: string, quantity: real, priceAtSale: real,
                               costAtSale: real, subtotal: real)

  datatype User = User(id: Id, username: string)

  datatype SaleDocument = SaleDocument(
    date: string, timestamp: int, items: seq<SaleLine>,
    totalAmount: real, totalCost: real, totalProfit: real,
    operatorId: Id, operatorName: string, status: string)

  const COMPLETED := "completed"

  /** The sale line for a cart line whose sweet is `sweet`. */
  function SaleLineOf(item: CartItem, sweet: Sweet, recipes: seq<Recipe>, ingredients: seq<Ingredient>): SaleLine {
    SaleLine(item.id, sweet.name, item.quantity, item.price,
             CalculateItemCost(item.id, recipes, ingredients), item.price * item.quantity)
  }

  /** Every cart line names a known sweet. */
  predicate AllKnown(cart: seq<CartItem>, sweets: seq<Sweet>) {
    forall k :: 0 <= k < |cart| ==> FindSweet(sweets, cart[k].id).Some?
  }

  /** `cartItems.map(...)`: one sale line per cart line; `None` where a cart
      line names no known sweet, since reading `sweet.name` then throws. */
  function SaleLines(cart: seq<CartItem>, sweets: seq<Sweet>, recipes: seq<Recipe>, ingredients: seq<Ingredient>)
    : (lines: Option<seq<SaleLine>>)
    ensures lines.Some? <==> AllKnown(cart, sweets)
    ensures lines.Some? ==> |lines.value| == |cart|
    ensures lines.Some? ==> forall k :: 0 <= k < |cart| ==>
      lines.value[k] == SaleLineOf(cart[k], FindSweet(sweets, cart[k].id).value, recipes, ingredients)
  {
    if cart == [] then Some([])
    else
      var sweet := FindSweet(sweets, cart[0].id);
      var rest := SaleLines(cart[1..], sweets, recipes, ingredients);
      assert forall k :: 0 < k < |cart| ==> cart[k] == cart[1..][k - 1];
      if sweet.None? || rest.None? then None
      else Some([SaleLineOf(cart[0], sweet.value, recipes, ingredients)] + rest.value)
  }

  /** `items.reduce((sum, item) => sum + item.subtotal, 0)`. */
  function SumSubtotals(lines: seq<SaleLine>): real {
    if lines == [] then 0.0 else SumSubtotals(lines[..|lines| - 1]) + lines[|lines| - 1].subtotal
  }

  /** `items.reduce((sum, item) => sum + item.costAtSale * item.quantity, 0)`. */
  function SumCosts(lines: seq<SaleLine>): real {
    if lines == [] then 0.0
    else SumCosts(lines[..|lines| - 1]) + lines[|lines| - 1].costAtSale * lines[|lines| - 1].quantity
  }

  /** `createSaleDocument(cartItems, sweets, recipes, ingredients, userData)`
      at the moment whose ISO text is `date` and whose milliseconds are
      `timestamp`; `None` where it throws. */
  function CreateSaleDocument(cart: seq<CartItem>, sweets: seq<Sweet>, recipes: seq<Recipe>,
                              ingredients: seq<Ingredient>, user: User, date: string, timestamp: int)
    : Option<SaleDocument>
  {
    var lines := SaleLines(cart, sweets, recipes, ingredients);
    if lines.None? then None
    else
      var totalAmount := SumSubtotals(lines.value);
      var totalCost := SumCosts(lines.value);
      Some(SaleDocument(date, timestamp, lines.value, totalAmount, totalCost, totalAmount - totalCost,
                        user.id, user.username, COMPLETED))
  }

  /** `Σ price × quantity` over a cart. */
  function CartTotal(cart: seq<CartItem>): real {
    if cart == [] then 0.0 else cart[0].price * cart[0].quantity + CartTotal(cart[1..])
  }

  /** The sum of subtotals of lines built from a cart is the cart's total. */
  lemma {:induction false} SubtotalsOfCart(lines: seq<SaleLine>, cart: seq<CartItem>)
    requires |lines| == |cart|
    requires forall k :: 0 <= k < |cart| ==> lines[k].subtotal == cart[k].price * cart[k].quantity
    ensures SumSubtotals(lines) == CartTotal(cart)
    decreases |cart|
  {
    if cart != [] {
      SubtotalsOfCart(lines[1..], cart[1..]);
      SumSubtotalsCons(lines);
    }
  }

  /** The sum taken from the front. */
  lemma {:induction false} SumSubtotalsCons(lines: seq<SaleLine>)
    requires lines != []
    ensures SumSubtotals(lines) == lines[0].subtotal + SumSubtotals(lines[1..])
  {
    if |lines| > 1 {
      var init := lines[..|lines| - 1];
      SumSubtotalsCons(init);
      assert init[1..] == lines[1..][..|lines[1..]| - 1];
    } else {
      assert lines[..0] == [] && lines[1..] == [];
    }
  }

  /** The document completes the sale of the cart: one line per cart line
      with its sweet's name and the subtotal price × quantity, the total of
      the cart as `totalAmount`, and the profit as total minus cost; it is
      made exactly when every cart line names a known sweet. */
  lemma SaleDocumentOfCart(cart: seq<CartItem>, sweets: seq<Sweet>, recipes: seq<Recipe>,
                           ingredients: seq<Ingredient>, user: User, date: string, timestamp: int)
    ensures var doc := CreateSaleDocument(cart, sweets, recipes, ingredients, user, date, timestamp);
            doc.Some? <==> forall k :: 0 <= k < |cart| ==> FindSweet(sweets, cart[k].id).Some?
    ensures var doc := CreateSaleDocument(cart, sweets, recipes, ingredients, user, date, timestamp);
            doc.Some? ==>
              && |doc.value.items| == |cart|
              && (forall k :: 0 <= k < |cart| ==>
                    doc.value.items[k].subtotal == cart[k].price * cart[k].quantity && doc.value.items[k].sweetId == cart[k].id)
              && doc.value.totalAmount == CartTotal(cart)
              && doc.value.totalProfit == doc.value.totalAmount - doc.value.totalCost
              && doc.value.status == COMPLETED
              && doc.value.operatorId == user.id && doc.value.date == date
  {
    var lines := SaleLines(cart, sweets, recipes, ingredients);
    if lines.Some? {
      SubtotalsOfCart(lines.value, cart);
    }
  }

  /** The cart of the point-of-sale page, as `createSaleDocument` reads it. */
  function CartItemsOf(cart: seq<PdvPage.Line>): (items: seq<CartItem>)
    ensures |items| == |cart|
    ensures forall k :: 0 <= k < |cart| ==>
      items[k] == CartItem(TextId(cart[k].sweet.id), cart[k].sweet.price, cart[k].quantity as real)
  {
    if cart == [] then []
    else [CartItem(TextId(cart[0].sweet.id), cart[0].sweet.price, cart[0].quantity as real)] + CartItemsOf(cart[1..])
  }

  /** The total of the document made from the page's cart is the order total
      the page shows. */
  lemma {:induction false} DocumentTotalIsOrderTotal(cart: seq<PdvPage.Line>)
    ensures CartTotal(CartItemsOf(cart)) == PdvPage.Total(cart)
  {
    if cart != [] {
      DocumentTotalIsOrderTotal(cart[1..]);
      assert CartItemsOf(cart)[1..] == CartItemsOf(cart[1..]);
    }
  }

  // ------------------------------------------------------------ finalizeSale

  /** A call to the remote document service. */
  datatype Call =
    | AddSale(document: SaleDocument, userId: Id)
    | UpdateStock(sweetId: Id, stock: Option<real>, userId: Id)

  /** The outcome: `{success: true, saleId}`, or the error thrown. */
  datatype Outcome = Success(saleId: string) | Failure(message: string)

  const FAILURE_PREFIX := "Falha ao processar venda: "

  /** `Math.max(0, stock - quantity)`; a missing stock makes `NaN`, written
      `None`. */
  function NewStock(stock: Option<real>, quantity: real): (r: Option<real>)
    ensures r.Some? <==> stock.Some?
    ensures r.Some? ==> r.value >= 0.0 && r.value >= stock.value - quantity
    ensures r.Some? ==> r.value == 0.0 || r.value == stock.value - quantity
  {
    if stock.None? then None
    else if 0.0 >= stock.value - quantity then Some(0.0)
    else Some(stock.value - quantity)
  }

  /** The stock updates for the cart lines, in order, skipping lines whose
      sweet is unknown; each starts from the stock in `sweets`. */
  function StockUpdates(cart: seq<CartItem>, sweets: seq<Sweet>, userId: Id): seq<Call> {
    if cart == [] then []
    else
      var item := cart[|cart| - 1];
      var sweet := FindSweet(sweets, item.id);
      StockUpdates(cart[..|cart| - 1], sweets, userId)
      + (if sweet.None? then [] else [UpdateStock(item.id, NewStock(sweet.value.stock, item.quantity), userId)])
  }

  /** The calls `finalizeSale` plans: the sale document, then the updates. */
  function Plan(doc: SaleDocument, cart: seq<CartItem>, sweets: seq<Sweet>, userId: Id): seq<Call> {
    [AddSale(doc, userId)] + StockUpdates(cart, sweets, userId)
  }

  /** The first call that throws among the first `n`, if any. */
  function FirstFailure(n: nat, fails: nat -> Option<string>): (k: Option<nat>)
    ensures k.Some? ==> k.value < n && fails(k.value).Some? && forall j :: 0 <= j < k.value ==> fails(j).None?
    ensures k.None? ==> forall j :: 0 <= j < n ==> fails(j).None?
  {
    if n == 0 then None
    else
      var before := FirstFailure(n - 1, fails);
      if before.Some? then before
      else if fails(n - 1).Some? then Some(n - 1)
      else None
  }

  /** What `finalizeSale` does with its plan: the calls it makes and its
      outcome. */
  function Finalize(plan: seq<Call>, fails: nat -> Option<string>, saleId: string): (seq<Call>, Outcome) {
    match FirstFailure(|plan|, fails)
    case None => (plan, Success(saleId))
    case Some(k) => (plan[..k + 1], Failure(FAILURE_PREFIX + fails(k).value))
  }

  /** `finalizeSale(saleDocument, cartItems, sweets, userData)` with the sale
      id `saleId`: save the document, then update the stock of each cart
      line whose sweet is known, stopping at the first call that throws. */
  method FinalizeSale(doc: SaleDocument, cart: seq<CartItem>, sweets: seq<Sweet>, user: User,
                      saleId: string, fails: nat -> Option<string>)
    returns (calls: seq<Call>, outcome: Outcome)
    ensures (calls, outcome) == Finalize(Plan(doc, cart, sweets, user.id), fails, saleId)
  {
    calls := [AddSale(doc, user.id)];
    if fails(0).Some? {
      FailureAt(doc, cart, 0, sweets, user.id, fails);
      return calls, Failure(FAILURE_PREFIX + fails(0).value);
    }
    var i := 0;
    while i < |cart|
      invariant 0 <= i <= |cart|
      invariant calls == Plan(doc, cart[..i], sweets, user.id)
      invariant FirstFailure(|calls|, fails).None?
    {
      var item := cart[i];
      assert cart[..i + 1][..i] == cart[..i];
      var sweet := FindSweet(sweets, item.id);
      if sweet.Some? {
        calls := calls + [UpdateStock(item.id, NewStock(sweet.value.stock, item.quantity), user.id)];
        assert calls == Plan(doc, cart[..i + 1], sweets, user.id);
        if fails(|calls| - 1).Some? {
          assert FirstFailure(|calls|, fails) == Some(|calls| - 1);
          FailureAt(doc, cart, i + 1, sweets, user.id, fails);
          return calls, Failure(FAILURE_PREFIX + fails(|calls| - 1).value);
        }
      }
      i := i + 1;
    }
    assert cart[..i] == cart;
    return calls, Success(saleId);
  }

  /** When the last call planned for the first `i` cart lines is the first
      to throw, `finalizeSale` stops right after it. */
  lemma FailureAt(doc: SaleDocument, cart: seq<CartItem>, i: nat, sweets: seq<Sweet>, userId: Id,
                  fails: nat -> Option<string>)
    requires i <= |cart|
    requires var made := Plan(doc, cart[..i], sweets, userId);
             FirstFailure(|made|, fails) == Some(|made| - 1)
    ensures var made := Plan(doc, cart[..i], sweets, userId);
            forall saleId :: Finalize(Plan(doc, cart, sweets, userId), fails, saleId)
                             == (made, Failure(FAILURE_PREFIX + fails(|made| - 1).value))
  {
    var made := Plan(doc, cart[..i], sweets, userId);
    var plan := Plan(doc, cart, sweets, userId);
    StockUpdatesPrefix(cart, i, sweets, userId);
    assert plan[..|made|] == made;
    FirstFailureExtends(|made|, |plan|, fails);
  }

  /** The first failure among fewer calls is the first among more. */
  lemma {:induction false} FirstFailureExtends(n: nat, m: nat, fails: nat -> Option<string>)
    requires n <= m && FirstFailure(n, fails).Some?
    ensures FirstFailure(m, fails) == FirstFailure(n, fails)
    decreases m - n
  {
    if n < m {
      FirstFailureExtends(n, m - 1, fails);
    }
  }

  /** The updates of a prefix of the cart are a prefix of the cart's. */
  lemma {:induction false} StockUpdatesPrefix(cart: seq<CartItem>, i: nat, sweets: seq<Sweet>, userId: Id)
    requires i <= |cart|
    ensures var all := StockUpdates(cart, sweets, userId);
            var some := StockUpdates(cart[..i], sweets, userId);
            |some| <= |all| && all[..|some|] == some
    decreases |cart| - i
  {
    if i < |cart| {
      StockUpdatesPrefix(cart, i + 1, sweets, userId);
      assert cart[..i + 1][..i] == cart[..i];
    } else {
      assert cart[..i] == cart;
    }
  }

  /** The sale succeeds exactly when no call throws, and then every known
      sweet of the cart gets its new stock; a failure reports the first
      thrown message, after the calls before it went through. */
  lemma FinalizeOutcome(plan: seq<Call>, fails: nat -> Option<string>, saleId: string)
    ensures Finalize(plan, fails, saleId).1.Success? <==> forall j :: 0 <= j < |plan| ==> fails(j).None?
    ensures Finalize(plan, fails, saleId).1.Success? ==> Finalize(plan, fails, saleId).0 == plan
    ensures var (calls, outcome) := Finalize(plan, fails, saleId);
            outcome.Failure? ==>
              && calls != [] && calls == plan[..|calls|]
              && fails(|calls| - 1).Some? && outcome.message == FAILURE_PREFIX + fails(|calls| - 1).value
              && forall j :: 0 <= j < |calls| - 1 ==> fails(j).None?
  {
  }

  /** No stock update ever writes a negative stock, and a known sweet with a
      stock gets `max(0, stock − quantity)`. */
  lemma {:induction false} StockNeverNegative(cart: seq<CartItem>, sweets: seq<Sweet>, userId: Id)
    ensures forall c :: c in StockUpdates(cart, sweets, userId) ==>
              c.UpdateStock? && (c.stock.Some? ==> c.stock.value >= 0.0)
    ensures |StockUpdates(cart, sweets, userId)| <= |cart|
    ensures (forall k :: 0 <= k < |cart| ==> FindSweet(sweets, cart[k].id).Some?) ==>
              |StockUpdates(cart, sweets, userId)| == |cart|
  {
    if cart != [] {
      var init := cart[..|cart| - 1];
      StockNeverNegative(init, sweets, userId);
      assert forall k :: 0 <= k < |init| ==> init[k] == cart[k];
    }
  }
}
