/** The request validation of the `/finish` sale route: `safe_decimal` and
    the chain of guards `finish_sale` runs on the JSON body before it builds
    the receipt. Python's `str()` of a non-string value is the parameter
    `render`, and `Decimal(text)` is the parameter `decimalOf` (`None` where
    it raises `InvalidOperation`; `NaN`, `sNaN` and `Infinity` are among the
    texts it accepts). */
module SalesRoute {
  import opened Text
  import opened PyJson

  datatype Reply = Reply(status: int, msg: string)

  const EMPTY_BODY := Reply(400, "Corpo da requisicao vazio")
  const MISSING_FIELDS := Reply(400, "Campos obrigatorios ausentes")
  const BAD_PAYMENT := Reply(400, "Metodo de pagamento invalido")
  const NO_ITEMS := Reply(400, "Itens obrigatorios")
  const NEGATIVE := Reply(400, "Valores nao podem ser negativos")
  const DISCOUNT_OVER_100 := Reply(400, "Percentual de desconto nao pode exceder 100%")
  const TOTAL_NOT_POSITIVE := Reply(400, "Total deve ser maior que zero")
  const INTERNAL_ERROR := Reply(500, "Erro interno do servidor")

  const NAME_LIMIT: int := 100

  /** `str(v)`: a string is itself; anything else is rendered. */
  function PyStr(v: Json, render: Json -> string): string {
    if v.Str? then v.s else render(v)
  }

  /** `safe_decimal(value, default)`: the default for `None` and for anything
      whose `str()` is not a decimal numeral (booleans, lists and dicts
      among them), and otherwise the number `Decimal(str(value))` denotes,
      not-a-number and the infinities included. */
  function SafeDecimal(value: Json, default: Num, decimalOf: string -> Option<Num>): (d: Num)
    ensures value.Null? || value.Bool? || value.List? || value.Dict? ==> d == default
    ensures value.Int? ==> d == Finite(value.i as real)
    ensures value.Float? ==> d == value.f
    ensures value.Str? ==> d == decimalOf(value.s).GetOr(default)
  {
    match value
    case Null => default
    case Bool(_) => default
    case Int(i) => Finite(i as real)
    case Float(x) => x
    case Str(s) => decimalOf(s).GetOr(default)
    case List(_) => default
    case Dict(_) => default
  }

  /** How `str()` and `Decimal()` treat the values `json.loads` yields:
      `str(True)`, `str([...])` and `str({...})` are no decimal numerals,
      while the `str()` of an integer or a float reads back as that number. */
  ghost predicate PythonText(render: Json -> string, decimalOf: string -> Option<Num>) {
    && (forall b: bool :: decimalOf(render(Bool(b))).None?)
    && (forall i: int :: decimalOf(render(Int(i))) == Some(Finite(i as real)))
    && (forall x: Num :: decimalOf(render(Float(x))) == Some(x))
    && (forall e: seq<Json> :: decimalOf(render(List(e))).None?)
    && (forall m: map<string, Json> :: decimalOf(render(Dict(m))).None?)
  }

  /** `safe_decimal` is `Decimal(str(value))`, with the default for `None`
      and wherever the conversion raises. */
  lemma SafeDecimalIsDecimalOfStr(value: Json, default: Num, render: Json -> string, decimalOf: string -> Option<Num>)
    requires PythonText(render, decimalOf)
    ensures SafeDecimal(value, default, decimalOf)
         == if value.Null? then default else decimalOf(PyStr(value, render)).GetOr(default)
  {
    match value
    case Null =>
    case Bool(b) => assert decimalOf(render(Bool(b))).None?;
    case Int(i) => assert decimalOf(render(Int(i))) == Some(Finite(i as real));
    case Float(x) => assert decimalOf(render(Float(x))) == Some(x);
    case Str(_) =>
    case List(e) => assert decimalOf(render(List(e))).None?;
    case Dict(m) => assert decimalOf(render(Dict(m))).None?;
  }

  /** Python's `x < c` on a decimal: `None` for a not-a-number, where the
      comparison raises `InvalidOperation`. */
  function Less(x: Num, c: real): Option<bool> {
    match x
    case NaN => None
    case Inf(neg) => Some(neg)
    case Finite(r) => Some(r < c)
  }

  /** Python's `x > c` on a decimal. */
  function Greater(x: Num, c: real): Option<bool> {
    match x
    case NaN => None
    case Inf(neg) => Some(!neg)
    case Finite(r) => Some(r > c)
  }

  /** Python's `x <= c` on a decimal. */
  function AtMost(x: Num, c: real): Option<bool> {
    match x
    case NaN => None
    case Inf(neg) => Some(neg)
    case Finite(r) => Some(r <= c)
  }

  /** `xs[0] < 0 or xs[1] < 0 or ...`, evaluated left to right: `None`
      where a comparison raises before one of them holds. */
  function AnyNegative(xs: seq<Num>): Option<bool> {
    if xs == [] then Some(false)
    else
      match Less(xs[0], 0.0)
      case None => None
      case Some(true) => Some(true)
      case Some(false) => AnyNegative(xs[1..])
  }

  /** Every one of `xs` compares as not negative. */
  predicate NoneNegative(xs: seq<Num>) {
    forall k :: 0 <= k < |xs| ==> Less(xs[k], 0.0) == Some(false)
  }

  /** The first of `xs` that does not compare as not negative is at `k`
      and is `bad` (negative, or raising). */
  predicate FirstOther(xs: seq<Num>, k: int, bad: Option<bool>) {
    0 <= k < |xs| && Less(xs[k], 0.0) == bad && NoneNegative(xs[..k])
  }

  /** The `or` chain is negative exactly when a negative value comes before
      any not-a-number, raises exactly when a not-a-number comes before any
      negative value, and is false exactly when every value is not negative. */
  lemma {:induction false} AnyNegativeCases(xs: seq<Num>)
    ensures AnyNegative(xs) == Some(false) <==> NoneNegative(xs)
    ensures AnyNegative(xs) == Some(true) <==> exists k :: FirstOther(xs, k, Some(true))
    ensures AnyNegative(xs).None? <==> exists k :: FirstOther(xs, k, None)
  {
    if xs != [] {
      AnyNegativeCases(xs[1..]);
      assert xs[..0] == [];
      forall k | 0 < k <= |xs| ensures NoneNegative(xs[..k]) <==> Less(xs[0], 0.0) == Some(false) && NoneNegative(xs[1..][..k - 1]) {
        assert xs[..k] == [xs[0]] + xs[1..][..k - 1];
      }
      if Less(xs[0], 0.0) == Some(false) {
        forall k, bad | FirstOther(xs[1..], k, bad) ensures FirstOther(xs, k + 1, bad) { }
        forall k, bad | FirstOther(xs, k, bad) && bad != Some(false) ensures FirstOther(xs[1..], k - 1, bad) { }
      } else {
        assert FirstOther(xs, 0, Less(xs[0], 0.0));
        forall k | 0 < k <= |xs| ensures !NoneNegative(xs[..k]) {
          assert xs[..k][0] == xs[0];
        }
      }
    }
  }

  /** `d.get(key, default)` on a dict. */
  function Get(fields: map<string, Json>, key: string, default: Json): Json {
    if key in fields then fields[key] else default
  }

  /** `safe_decimal(data.get(key, 0))`. */
  function Amount(f: map<string, Json>, key: string, decimalOf: string -> Option<Num>): Num {
    SafeDecimal(Get(f, key, Int(0)), Finite(0.0), decimalOf)
  }

  /** The four amounts the negativity check compares, in its order. */
  function Amounts(f: map<string, Json>, decimalOf: string -> Option<Num>): (xs: seq<Num>)
    ensures |xs| == 4
  {
    [Amount(f, "subtotal", decimalOf), Amount(f, "itemDiscountsTotal", decimalOf),
     Amount(f, "globalDiscountPercent", decimalOf), Amount(f, "globalDiscountAmount", decimalOf)]
  }

  datatype PaymentMethod = Pix | Dinheiro

  /** `MetodoPagamento[str(v).upper()]`: a member name, or `None` where the
      lookup raises `KeyError`. */
  function PaymentMethodOf(v: Json, render: Json -> string): (m: Option<PaymentMethod>)
    ensures m == Some(Pix) <==> UpperEquals(PyStr(v, render), "PIX")
    ensures m == Some(Dinheiro) <==> UpperEquals(PyStr(v, render), "DINHEIRO")
  {
    var s := PyStr(v, render);
    if UpperEquals(s, "PIX") then Some(Pix)
    else if UpperEquals(s, "DINHEIRO") then Some(Dinheiro)
    else None
  }

  /** The float sum of two numbers: a not-a-number absorbs everything, and
      infinities of opposite signs give a not-a-number. */
  function NumAdd(a: Num, b: Num): Num {
    match (a, b)
    case (NaN, _) => NaN
    case (_, NaN) => NaN
    case (Inf(n), Inf(m)) => if n == m then Inf(n) else NaN
    case (Inf(n), Finite(_)) => Inf(n)
    case (Finite(_), Inf(m)) => Inf(m)
    case (Finite(x), Finite(y)) => Finite(x + y)
  }

  /** What a quantity contributes to a Python sum: numbers and booleans; any
      other value raises `TypeError`. */
  function Addend(v: Json): Option<Num> {
    match v
    case Int(i) => Some(Finite(i as real))
    case Bool(b) => Some(Finite(if b then 1.0 else 0.0))
    case Float(x) => Some(x)
    case _ => None
  }

  /** The receipt quantity `sum(item.get('quantity', 0) for item in items)`,
      added from the left: `None` where the generator raises, on an item
      that is not a dict or a quantity that cannot be added to a number. */
  function QuantitySum(items: seq<Json>): (q: Option<Num>)
    ensures q.Some? <==> forall k :: 0 <= k < |items| ==> items[k].Dict? && Addend(Get(items[k].fields, "quantity", Int(0))).Some?
  {
    if items == [] then Some(Finite(0.0))
    else
      var last := items[|items| - 1];
      match QuantitySum(items[..|items| - 1])
      case None => None
      case Some(sum) =>
        if !last.Dict? then None
        else
          match Addend(Get(last.fields, "quantity", Int(0)))
          case None => None
          case Some(x) => Some(NumAdd(sum, x))
  }

  function SumInts(qs: seq<int>): int {
    if qs == [] then 0 else SumInts(qs[..|qs| - 1]) + qs[|qs| - 1]
  }

  /** With integer quantities (a missing one counting as 0) the receipt
      quantity is their sum. */
  lemma {:induction false} QuantitySumAllInts(items: seq<Json>, qs: seq<int>)
    requires |qs| == |items|
    requires forall k :: 0 <= k < |items| ==> items[k].Dict?
    requires forall k :: 0 <= k < |items| ==>
      Get(items[k].fields, "quantity", Int(0)) == Int(qs[k])
    ensures QuantitySum(items) == Some(Finite(SumInts(qs) as real))
  {
    if items != [] {
      var n := |items| - 1;
      QuantitySumAllInts(items[..n], qs[..n]);
    }
  }

  /** A quantity that is not a number poisons the whole sum. */
  lemma {:induction false} QuantitySumNaN(items: seq<Json>, k: int)
    requires 0 <= k < |items| && items[k].Dict? && Get(items[k].fields, "quantity", Int(0)) == Float(NaN)
    requires QuantitySum(items).Some?
    ensures QuantitySum(items) == Some(NaN)
  {
    var n := |items| - 1;
    if k < n {
      QuantitySumNaN(items[..n], k);
    }
  }

  /** The fields a request that passes every check carries into the receipt. */
  datatype SaleRequest = SaleRequest(
    paymentType: PaymentMethod, items: seq<Json>,
    subtotal: Num, itemDiscountsTotal: Num, globalDiscountPercent: Num,
    globalDiscountAmount: Num, totalAmount: Num,
    payerName: string, receiverName: string, description: string, qtd: Num)

  datatype Check = Rejected(reply: Reply) | Passed(request: SaleRequest)

  /** Outcome of `[f for f in required_fields if f not in data]`. */
  datatype Presence = AllPresent | SomeMissing | PresenceTypeError

  /** Whether `payer`, `receiver` and `payment_type` are all `in` the body,
      or the type error `in` raises on the first of them. */
  function MissingRequired(data: Json): (p: Presence)
    ensures p == PresenceTypeError <==> StrIn("payer", data) == MembershipTypeError
    ensures p == AllPresent <==> StrIn("payer", data) == Member && StrIn("receiver", data) == Member
                                 && StrIn("payment_type", data) == Member
    ensures data.Dict? ==> (p == AllPresent <==> "payer" in data.fields && "receiver" in data.fields
                                                 && "payment_type" in data.fields)
  {
    var required := ["payer", "receiver", "payment_type"];
    if StrIn(required[0], data) == MembershipTypeError then PresenceTypeError
    else if StrIn(required[0], data) == NotMember || StrIn(required[1], data) == NotMember
         || StrIn(required[2], data) == NotMember then SomeMissing
    else AllPresent
  }

  /** `str(data.get(who, {}).get('nome', default))[:100]`, or `None` where the
      party is not a dict and `.get` raises. */
  function PartyName(fields: map<string, Json>, who: string, default: string, render: Json -> string): Option<string> {
    var party := Get(fields, who, Dict(map[]));
    if !party.Dict? then None
    else Some(Take(PyStr(Get(party.fields, "nome", Str(default)), render), NAME_LIMIT))
  }

  /** `str(data.get('description', 'Venda'))[:100]`. */
  function Description(fields: map<string, Json>, render: Json -> string): string {
    Take(PyStr(Get(fields, "description", Str("Venda")), render), NAME_LIMIT)
  }

  /** The request a body that passes every check carries: its payment type
      and items, its five amounts read by `safe_decimal`, the names and
      description cut to 100 characters and the summed quantity. */
  function RequestOf(f: map<string, Json>, payment: PaymentMethod, items: seq<Json>,
                     render: Json -> string, decimalOf: string -> Option<Num>): SaleRequest
    requires PartyName(f, "payer", "Cliente", render).Some? && PartyName(f, "receiver", "Sweet Home", render).Some?
    requires QuantitySum(items).Some?
  {
    SaleRequest(payment, items,
      Amount(f, "subtotal", decimalOf), Amount(f, "itemDiscountsTotal", decimalOf),
      Amount(f, "globalDiscountPercent", decimalOf), Amount(f, "globalDiscountAmount", decimalOf),
      Amount(f, "totalAmount", decimalOf),
      PartyName(f, "payer", "Cliente", render).value, PartyName(f, "receiver", "Sweet Home", render).value,
      Description(f, render), QuantitySum(items).value)
  }

  /** The body checks of `finish_sale`, in source order. */
  function CheckSaleRequest(data: Json, render: Json -> string, decimalOf: string -> Option<Num>): (c: Check)
    ensures !Truthy(data) ==> c == Rejected(EMPTY_BODY)
    ensures data.Dict? && data.fields != map[]
            && !("payer" in data.fields && "receiver" in data.fields && "payment_type" in data.fields)
            ==> c == Rejected(MISSING_FIELDS)
    ensures c.Passed? ==> data.Dict? && "payer" in data.fields && "receiver" in data.fields
                          && "payment_type" in data.fields
    ensures c.Passed? ==> PaymentMethodOf(data.fields["payment_type"], render) == Some(c.request.paymentType)
    ensures c.Passed? ==> c.request.items != [] && Get(data.fields, "items", List([])) == List(c.request.items)
    ensures c.Passed? ==> NoneNegative(Amounts(data.fields, decimalOf))
                          && Greater(c.request.globalDiscountPercent, 100.0) == Some(false)
                          && AtMost(c.request.totalAmount, 0.0) == Some(false)
    ensures c.Passed? ==> && PartyName(data.fields, "payer", "Cliente", render).Some?
                          && PartyName(data.fields, "receiver", "Sweet Home", render).Some?
                          && QuantitySum(c.request.items).Some?
    ensures c.Passed? ==> c.request == RequestOf(data.fields, c.request.paymentType, c.request.items, render, decimalOf)
    ensures c.Passed? ==> |c.request.payerName| <= NAME_LIMIT && |c.request.receiverName| <= NAME_LIMIT
                          && |c.request.description| <= NAME_LIMIT
    ensures c.Rejected? ==> c.reply.status in {400, 500}
  {
    if !Truthy(data) then Rejected(EMPTY_BODY)
    else
      match MissingRequired(data)
      case PresenceTypeError => Rejected(INTERNAL_ERROR)
      case SomeMissing => Rejected(MISSING_FIELDS)
      case AllPresent =>
        if !data.Dict? then Rejected(INTERNAL_ERROR)
        else
          var f := data.fields;
          match PaymentMethodOf(Get(f, "payment_type", Str("PIX")), render)
          case None => Rejected(BAD_PAYMENT)
          case Some(payment) =>
            var items := Get(f, "items", List([]));
            if !items.List? || items.elems == [] then Rejected(NO_ITEMS)
            else CheckSaleAmounts(f, payment, items.elems, render, decimalOf)
  }

  /** The checks of `finish_sale` after the payment method and the items:
      the amounts, then the names and the quantity total. A comparison that
      raises (a not-a-number amount) ends in the 500 of the `except`
      clause. */
  function CheckSaleAmounts(f: map<string, Json>, payment: PaymentMethod, items: seq<Json>,
                            render: Json -> string, decimalOf: string -> Option<Num>): (c: Check)
    ensures c.Passed? <==> && NoneNegative(Amounts(f, decimalOf))
                           && Greater(Amount(f, "globalDiscountPercent", decimalOf), 100.0) == Some(false)
                           && AtMost(Amount(f, "totalAmount", decimalOf), 0.0) == Some(false)
                           && PartyName(f, "payer", "Cliente", render).Some?
                           && PartyName(f, "receiver", "Sweet Home", render).Some?
                           && QuantitySum(items).Some?
    ensures c.Passed? ==> c.request == RequestOf(f, payment, items, render, decimalOf)
    ensures c.Passed? ==> |c.request.payerName| <= NAME_LIMIT && |c.request.receiverName| <= NAME_LIMIT
                          && |c.request.description| <= NAME_LIMIT
    ensures c.Rejected? ==> c.reply.status in {400, 500}
  {
    AnyNegativeCases(Amounts(f, decimalOf));
    match AnyNegative(Amounts(f, decimalOf))
    case None => Rejected(INTERNAL_ERROR)
    case Some(true) => Rejected(NEGATIVE)
    case Some(false) =>
      match Greater(Amount(f, "globalDiscountPercent", decimalOf), 100.0)
      case None => Rejected(INTERNAL_ERROR)
      case Some(true) => Rejected(DISCOUNT_OVER_100)
      case Some(false) =>
        match AtMost(Amount(f, "totalAmount", decimalOf), 0.0)
        case None => Rejected(INTERNAL_ERROR)
        case Some(true) => Rejected(TOTAL_NOT_POSITIVE)
        case Some(false) =>
          match PartyName(f, "payer", "Cliente", render)
          case None => Rejected(INTERNAL_ERROR)
          case Some(_) =>
            match PartyName(f, "receiver", "Sweet Home", render)
            case None => Rejected(INTERNAL_ERROR)
            case Some(_) =>
              match QuantitySum(items)
              case None => Rejected(INTERNAL_ERROR)
              case Some(_) => Passed(RequestOf(f, payment, items, render, decimalOf))
  }

  /** The reply of `finish_sale` up to the receipt: a rejection, or, for a
      request that passes, the 500 of the `except` clause, because the
      `Comprovante` constructor is called with keyword arguments (`items`,
      `subtotal`, ...) the dataclass does not declare and raises `TypeError`. */
  function FinishSale(data: Json, render: Json -> string, decimalOf: string -> Option<Num>): (r: Reply)
    ensures r.status in {400, 500}
    ensures r.status == 400 <==> CheckSaleRequest(data, render, decimalOf).Rejected?
                                 && CheckSaleRequest(data, render, decimalOf).reply.status == 400
  {
    match CheckSaleRequest(data, render, decimalOf)
    case Rejected(reply) => reply
    case Passed(_) => INTERNAL_ERROR
  }

  /** The body reaches the amount checks: every required field, a known
      payment type and a non-empty item list. */
  predicate ReachesAmounts(f: map<string, Json>, render: Json -> string) {
    && "payer" in f && "receiver" in f && "payment_type" in f
    && PaymentMethodOf(f["payment_type"], render).Some?
    && Get(f, "items", List([])).List? && Get(f, "items", List([])).elems != []
  }

  /** The checks run in order, each whatever the later fields hold: the
      payment type, the items, the first of the four amounts that is
      negative or not a number, the percent over 100, then the total. */
  lemma ChecksInOrder(f: map<string, Json>, render: Json -> string, decimalOf: string -> Option<Num>)
    requires "payer" in f && "receiver" in f && "payment_type" in f
    ensures PaymentMethodOf(f["payment_type"], render).None?
            ==> CheckSaleRequest(Dict(f), render, decimalOf) == Rejected(BAD_PAYMENT)
    ensures PaymentMethodOf(f["payment_type"], render).Some?
            && !(Get(f, "items", List([])).List? && Get(f, "items", List([])).elems != [])
            ==> CheckSaleRequest(Dict(f), render, decimalOf) == Rejected(NO_ITEMS)
    ensures ReachesAmounts(f, render) && (exists k :: FirstOther(Amounts(f, decimalOf), k, Some(true)))
            ==> CheckSaleRequest(Dict(f), render, decimalOf) == Rejected(NEGATIVE)
    ensures ReachesAmounts(f, render) && (exists k :: FirstOther(Amounts(f, decimalOf), k, None))
            ==> CheckSaleRequest(Dict(f), render, decimalOf) == Rejected(INTERNAL_ERROR)
    ensures ReachesAmounts(f, render) && NoneNegative(Amounts(f, decimalOf))
            && Greater(Amount(f, "globalDiscountPercent", decimalOf), 100.0) == Some(true)
            ==> CheckSaleRequest(Dict(f), render, decimalOf) == Rejected(DISCOUNT_OVER_100)
    ensures ReachesAmounts(f, render) && NoneNegative(Amounts(f, decimalOf))
            && Greater(Amount(f, "globalDiscountPercent", decimalOf), 100.0) == Some(false)
            && AtMost(Amount(f, "totalAmount", decimalOf), 0.0) == Some(true)
            ==> CheckSaleRequest(Dict(f), render, decimalOf) == Rejected(TOTAL_NOT_POSITIVE)
    ensures ReachesAmounts(f, render) && NoneNegative(Amounts(f, decimalOf))
            && Greater(Amount(f, "globalDiscountPercent", decimalOf), 100.0) == Some(false)
            && Amount(f, "totalAmount", decimalOf).NaN?
            ==> CheckSaleRequest(Dict(f), render, decimalOf) == Rejected(INTERNAL_ERROR)
  {
    assert f != map[] by { assert "payer" in f; }
    assert MissingRequired(Dict(f)) == AllPresent;
    AnyNegativeCases(Amounts(f, decimalOf));
    var percent := Amount(f, "globalDiscountPercent", decimalOf);
    if NoneNegative(Amounts(f, decimalOf)) {
      assert Less(Amounts(f, decimalOf)[2], 0.0) == Some(false);
      assert Greater(percent, 100.0).Some?;
    }
  }

  /** A not-a-number amount is a server error: the request
      `{"payer": {}, "receiver": {}, "payment_type": "PIX", "items": [{}],
      "subtotal": "NaN", "totalAmount": 0}` gets the 500 reply, because
      `Decimal("NaN") < 0` raises. */
  lemma NaNSubtotalIsServerError(render: Json -> string, decimalOf: string -> Option<Num>)
    requires decimalOf("NaN") == Some(NaN)
    ensures var body := Dict(map["payer" := Dict(map[]), "receiver" := Dict(map[]), "payment_type" := Str("PIX"),
                                 "items" := List([Dict(map[])]), "subtotal" := Str("NaN"), "totalAmount" := Int(0)]);
      FinishSale(body, render, decimalOf) == INTERNAL_ERROR
  {
    var f := map["payer" := Dict(map[]), "receiver" := Dict(map[]), "payment_type" := Str("PIX"),
                 "items" := List([Dict(map[])]), "subtotal" := Str("NaN"), "totalAmount" := Int(0)];
    assert UpperEquals("PIX", "PIX");
    assert Amount(f, "subtotal", decimalOf) == NaN;
    assert FirstOther(Amounts(f, decimalOf), 0, None);
    ChecksInOrder(f, render, decimalOf);
  }

  /** `payment_type` is accepted in any letter case: `"pix"` and `"Dinheiro"`
      name members; `"credito"` does not. */
  lemma PaymentTypeAnyCase(render: Json -> string)
    ensures PaymentMethodOf(Str("pix"), render) == Some(Pix)
    ensures PaymentMethodOf(Str("Dinheiro"), render) == Some(Dinheiro)
    ensures PaymentMethodOf(Str("credito"), render).None?
  {
    assert UpperEquals("pix", "PIX");
    assert UpperEquals("Dinheiro", "DINHEIRO");
  }

  /** A payer or receiver that is absent or a dict without `nome` is named
      `"Cliente"` or `"Sweet Home"`; one that is not a dict raises; a
      missing description reads `"Venda"`. */
  lemma NameDefaults(f: map<string, Json>, render: Json -> string)
    ensures "payer" !in f || (f["payer"].Dict? && "nome" !in f["payer"].fields)
            ==> PartyName(f, "payer", "Cliente", render) == Some("Cliente")
    ensures "receiver" !in f || (f["receiver"].Dict? && "nome" !in f["receiver"].fields)
            ==> PartyName(f, "receiver", "Sweet Home", render) == Some("Sweet Home")
    ensures "payer" in f && !f["payer"].Dict? ==> PartyName(f, "payer", "Cliente", render).None?
    ensures "description" !in f ==> Description(f, render) == "Venda"
  {
  }
}
