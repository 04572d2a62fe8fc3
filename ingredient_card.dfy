/** The display logic of the ingredient card: the expiry colour against
    today's date and the stock text in the ingredient's display unit. */
module IngredientCard {
  import opened Text
  import opened JsValue
  import opened CardFormat

  /** `getExpiryStatusClass(dateString)`. `daysUntil` is what the clock and
      the engine's date parsing give for `Math.ceil` of the time from
      today's local midnight to the date's local midnight, in days; `None`
      stands for an invalid date. */
  function ExpiryStatusClass(dateString: string, daysUntil: Option<int>): string {
    if dateString == "" then ExpiryClass(NoDate) else ExpiryClass(ExpiryOfDays(daysUntil))
  }

  /** No date is gray; a past date is red; today up to a week ahead is
      yellow; later, or an unparsable date, is green. */
  lemma ExpiryStatusBands(dateString: string, daysUntil: Option<int>)
    ensures dateString == "" ==> ExpiryStatusClass(dateString, daysUntil) == "text-gray-500"
    ensures dateString != "" ==>
      && (ExpiryStatusClass(dateString, daysUntil) == "text-red-600 font-bold" <==> daysUntil.Some? && daysUntil.value < 0)
      && (ExpiryStatusClass(dateString, daysUntil) == "text-yellow-600 font-semibold"
          <==> daysUntil.Some? && 0 <= daysUntil.value <= 7)
      && (ExpiryStatusClass(dateString, daysUntil) == "text-green-600" <==> daysUntil.None? || daysUntil.value > 7)
  {
    if dateString != "" {
      ExpiryClassInjective(ExpiryOfDays(daysUntil), Expired);
      ExpiryClassInjective(ExpiryOfDays(daysUntil), Soon);
      ExpiryClassInjective(ExpiryOfDays(daysUntil), Fresh);
    }
  }

  // ------------------------------------------------------------ stock

  /** `a / b` for numbers, where a zero divisor is left as `NaN` (the
      infinities are not modelled). */
  function Quotient(a: Value, b: Value): (q: Value)
    ensures q.Num? || q.NaN?
  {
    if a.Num? && b.Num? && b.n != 0.0 then Num(a.n / b.n) else NaN
  }

  predicate IsIntegral(r: real) {
    r == r.Floor as real
  }

  /** `formatStockForDisplay(stockInBaseUnit, displayUnit, displayUnitFactor)`.
      Without a factor the stock and unit are shown as given, with `0` and
      `'un'` for falsy ones. With one, the stock is divided by it, a whole
      quotient shown as a number and any other as `toFixed(2)` (the
      parameter `fixed2`), and the unit gets `(s)` unless the shown
      quantity reads back as 1. */
  function FormatStock(stock: Value, unit: Value, factor: Value, rt: Runtime, fixed2: real -> string): string {
    if !Truthy(factor) then
      ToStr(Or(stock, Num(0.0)), rt) + " " + ToStr(Or(unit, Str("un")), rt)
    else
      var q := Quotient(ToNumber(stock, rt), ToNumber(factor, rt));
      var shown := if q.Num? && IsIntegral(q.n) then q else Str(if q.Num? then fixed2(q.n) else "NaN");
      var text := ToStr(shown, rt);
      var unitText := if rt.parseFloat(text) != Num(1.0) then ToStr(unit, rt) + "(s)" else ToStr(unit, rt);
      text + " " + unitText
  }

  /** A missing stock and unit with no factor show as `0 un`; a stock of 3
      with no factor shows as `3 kg`, not pluralised. */
  lemma StockWithoutFactor(rt: Runtime)
    requires rt.stringOfNumber(0.0) == "0" && rt.stringOfNumber(3.0) == "3"
    ensures FormatStock(Undefined, Undefined, Num(0.0), rt, _ => "") == "0 un"
    ensures FormatStock(Num(3.0), Str("kg"), Undefined, rt, _ => "") == "3 kg"
  {
  }

  /** With a factor and a whole quotient that the engine reads back, `(s)`
      is appended exactly when the quotient is not 1. */
  lemma StockPluralUnlessOne(stock: Value, unit: Value, factor: Value, rt: Runtime, fixed2: real -> string)
    requires Truthy(factor)
    requires var q := Quotient(ToNumber(stock, rt), ToNumber(factor, rt));
      q.Num? && IsIntegral(q.n) && rt.parseFloat(rt.stringOfNumber(q.n)) == Num(q.n)
    ensures var q := Quotient(ToNumber(stock, rt), ToNumber(factor, rt));
      FormatStock(stock, unit, factor, rt, fixed2)
        == rt.stringOfNumber(q.n) + " " + ToStr(unit, rt) + (if q.n != 1.0 then "(s)" else "")
  {
  }

  /** With a factor the unit gets no `'un'` default: a missing unit shows as
      `undefined`. */
  lemma StockUnitWithoutDefault(rt: Runtime)
    requires rt.stringOfNumber(2.0) == "2" && rt.parseFloat("2") == Num(2.0)
    ensures FormatStock(Num(2.0), Undefined, Num(1.0), rt, _ => "") == "2 undefined(s)"
  {
    assert Quotient(Num(2.0), Num(1.0)) == Num(2.0);
    assert IsIntegral(2.0);
  }
}
