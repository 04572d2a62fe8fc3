/** `reportsService` (`src/services/reportsService.js`): sales grouped by
    day, week or month with their totals, the profit margin of each period,
    the best-selling products and the sweets whose stock is low.

    Dates are read through a `Calendar`: the instant a date text denotes
    (`None` for an invalid date, which compares as `NaN`) and the ISO date of
    the start of its week (`None` where that date cannot be printed, which
    throws). Amounts are exact reals. A sale's amount that is missing or
    `NaN` is 0, as `Number(x || 0)` reads it, and missing `items` are `[]`. */
module ReportsService {
  import opened Text
  import opened Documents
  import CostCalculationService

  datatype SoldItem = SoldItem(sweetId: Id, quantity: real)

  datatype Sale = Sale(date: string, totalAmount: real, totalCost: real, totalProfit: real, items: seq<SoldItem>)

  datatype Calendar = Calendar(time: string -> Option<int>, weekStart: string -> Option<string>)

  /** `new Date(a) > new Date(b)`: false when either date is invalid. */
  predicate Later(a: string, b: string, cal: Calendar) {
    cal.time(a).Some? && cal.time(b).Some? && cal.time(a).value > cal.time(b).value
  }

  /** The date filter: a bound that is the empty text (or absent) does not
      filter; a sale is dropped when it is before the start or after the
      end. */
  predicate InRange(sale: Sale, startDate: string, endDate: string, cal: Calendar) {
    !(startDate != "" && Later(startDate, sale.date, cal)) && !(endDate != "" && Later(sale.date, endDate, cal))
  }

  /** `(sales || []).filter(...)` with the date filter. */
  function Filtered(sales: seq<Sale>, startDate: string, endDate: string, cal: Calendar): (r: seq<Sale>)
    ensures |r| <= |sales|
    ensures forall s :: s in r <==> s in sales && InRange(s, startDate, endDate, cal)
  {
    if sales == [] then []
    else (if InRange(sales[0], startDate, endDate, cal) then [sales[0]] else [])
         + Filtered(sales[1..], startDate, endDate, cal)
  }

  // ------------------------------------------------------------ salesByPeriod

  datatype PeriodType = Dia | Semana | Mes | Other

  /** The group key of a sale: a period text, `undefined` for an unknown
      period type, or a throw when the start of the week cannot be printed. */
  datatype GroupKey = Period(p: string) | NoPeriod | Throws

  function KeyOf(sale: Sale, periodType: PeriodType, cal: Calendar): GroupKey {
    match periodType
    case Dia => Period(sale.date)
    case Semana => if cal.weekStart(sale.date).Some? then Period(cal.weekStart(sale.date).value) else Throws
    case Mes => Period(Take(sale.date, 7))
    case Other => NoPeriod
  }

  /** The property name a key becomes in `grouped`. */
  function PropertyName(key: GroupKey): string {
    if key.Period? then key.p else "undefined"
  }

  /** The `periodo` a group records: its key, or `undefined`. */
  function Periodo(key: GroupKey): Option<string> {
    if key.Period? then Some(key.p) else None
  }

  /** One entry of `grouped`. */
  datatype Summary = Summary(periodo: Option<string>, vendas: nat, total: real, custo: real, lucro: real)

  /** `grouped`: its property names in insertion order, and the entries. */
  datatype Groups = Groups(order: seq<string>, table: map<string, Summary>)

  /** The names in order are exactly the entries, each once. */
  predicate WellFormed(g: Groups) {
    && (forall j :: 0 <= j < |g.order| ==> g.order[j] in g.table)
    && (forall k :: k in g.table ==> k in g.order)
    && (forall i, j :: 0 <= i < j < |g.order| ==> g.order[i] != g.order[j])
  }

  /** The body of the `forEach`: create the sale's group if it is new, then
      add the sale to it. */
  function AddSale(g: Groups, sale: Sale, key: GroupKey): Groups {
    var name := PropertyName(key);
    var s := if name in g.table then g.table[name] else Summary(Periodo(key), 0, 0.0, 0.0, 0.0);
    Groups(if name in g.table then g.order else g.order + [name],
           g.table[name := Summary(s.periodo, s.vendas + 1, s.total + sale.totalAmount,
                                   s.custo + sale.totalCost, s.lucro + sale.totalProfit)])
  }

  /** `grouped` after the `forEach` over `sales`. */
  function Grouped(sales: seq<Sale>, periodType: PeriodType, cal: Calendar): (g: Groups)
    ensures WellFormed(g)
  {
    if sales == [] then Groups([], map[])
    else
      var last := sales[|sales| - 1];
      AddSale(Grouped(sales[..|sales| - 1], periodType, cal), last, KeyOf(last, periodType, cal))
  }

  /** `Object.values(grouped)`. */
  function Values(g: Groups): (vs: seq<Summary>)
    requires WellFormed(g)
    ensures |vs| == |g.order|
  {
    seq(|g.order|, j requires 0 <= j < |g.order| && WellFormed(g) => g.table[g.order[j]])
  }

  /** Whether some sale's key throws. */
  predicate AnyThrows(sales: seq<Sale>, periodType: PeriodType, cal: Calendar) {
    exists k :: 0 <= k < |sales| && KeyOf(sales[k], periodType, cal).Throws?
  }

  /** What `salesByPeriod(sales, periodType, startDate, endDate)` returns:
      `[]` where it throws. */
  function SalesByPeriodSpec(sales: seq<Sale>, periodType: PeriodType, startDate: string, endDate: string, cal: Calendar)
    : seq<Summary>
  {
    var filtered := Filtered(sales, startDate, endDate, cal);
    if AnyThrows(filtered, periodType, cal) then [] else Values(Grouped(filtered, periodType, cal))
  }

  /** `salesByPeriod(sales, periodType, startDate, endDate)`: filter, then
      fill `grouped` one sale at a time. */
  method SalesByPeriod(sales: seq<Sale>, periodType: PeriodType, startDate: string, endDate: string, cal: Calendar)
    returns (periods: seq<Summary>)
    ensures periods == SalesByPeriodSpec(sales, periodType, startDate, endDate, cal)
  {
    var filtered := Filtered(sales, startDate, endDate, cal);
    var order: seq<string> := [];
    var table: map<string, Summary> := map[];
    var i := 0;
    while i < |filtered|
      invariant 0 <= i <= |filtered|
      invariant Groups(order, table) == Grouped(filtered[..i], periodType, cal)
      invariant !AnyThrows(filtered[..i], periodType, cal)
    {
      var sale := filtered[i];
      var key := KeyOf(sale, periodType, cal);
      if key.Throws? {
        assert AnyThrows(filtered, periodType, cal);
        return [];
      }
      order, table := AddToGroup(order, table, sale, key);
      GroupedStep(filtered, i, periodType, cal);
      AnyThrowsStep(filtered, i, periodType, cal);
      i := i + 1;
    }
    assert filtered[..i] == filtered;
    periods := Values(Groups(order, table));
  }

  /** The body of the `forEach`: create the sale's group when its name is
      new, then add the sale to it. */
  method AddToGroup(order: seq<string>, table: map<string, Summary>, sale: Sale, key: GroupKey)
    returns (order': seq<string>, table': map<string, Summary>)
    ensures Groups(order', table') == AddSale(Groups(order, table), sale, key)
  {
    order', table' := order, table;
    var name := PropertyName(key);
    if name !in table' {
      table' := table'[name := Summary(Periodo(key), 0, 0.0, 0.0, 0.0)];
      order' := order' + [name];
    }
    var s := table'[name];
    table' := table'[name := Summary(s.periodo, s.vendas + 1, s.total + sale.totalAmount,
                                     s.custo + sale.totalCost, s.lucro + sale.totalProfit)];
  }

  /** One more sale grouped. */
  lemma GroupedStep(sales: seq<Sale>, i: nat, periodType: PeriodType, cal: Calendar)
    requires i < |sales|
    ensures Grouped(sales[..i + 1], periodType, cal)
            == AddSale(Grouped(sales[..i], periodType, cal), sales[i], KeyOf(sales[i], periodType, cal))
  {
    var s := sales[..i + 1];
    assert s[..|s| - 1] == sales[..i];
    assert s[|s| - 1] == sales[i];
    GroupedSnoc(s, periodType, cal);
  }

  /** One more sale checked for a throwing key. */
  lemma AnyThrowsStep(sales: seq<Sale>, i: nat, periodType: PeriodType, cal: Calendar)
    requires i < |sales|
    ensures AnyThrows(sales[..i + 1], periodType, cal)
            <==> AnyThrows(sales[..i], periodType, cal) || KeyOf(sales[i], periodType, cal).Throws?
  {
    var s := sales[..i + 1];
    if AnyThrows(s, periodType, cal) {
      var k :| 0 <= k < |s| && KeyOf(s[k], periodType, cal).Throws?;
      if k < i {
        assert sales[..i][k] == s[k];
      }
    }
    if AnyThrows(sales[..i], periodType, cal) {
      var k :| 0 <= k < i && KeyOf(sales[..i][k], periodType, cal).Throws?;
      assert s[k] == sales[..i][k];
    }
  }

  lemma GroupedSnoc(sales: seq<Sale>, periodType: PeriodType, cal: Calendar)
    requires sales != []
    ensures Grouped(sales, periodType, cal)
            == AddSale(Grouped(sales[..|sales| - 1], periodType, cal), sales[|sales| - 1],
                       KeyOf(sales[|sales| - 1], periodType, cal))
  {
  }

  /** The sales that fall in the group named `name`. */
  function InGroup(sales: seq<Sale>, name: string, periodType: PeriodType, cal: Calendar): (r: seq<Sale>)
    ensures |r| <= |sales|
  {
    if sales == [] then []
    else
      var last := sales[|sales| - 1];
      InGroup(sales[..|sales| - 1], name, periodType, cal)
      + (if PropertyName(KeyOf(last, periodType, cal)) == name then [last] else [])
  }

  function SumAmount(sales: seq<Sale>): real {
    if sales == [] then 0.0 else SumAmount(sales[..|sales| - 1]) + sales[|sales| - 1].totalAmount
  }

  function SumCost(sales: seq<Sale>): real {
    if sales == [] then 0.0 else SumCost(sales[..|sales| - 1]) + sales[|sales| - 1].totalCost
  }

  function SumProfit(sales: seq<Sale>): real {
    if sales == [] then 0.0 else SumProfit(sales[..|sales| - 1]) + sales[|sales| - 1].totalProfit
  }

  /** Each group holds the count and the sums of exactly the sales whose key
      names it, and its `periodo` is that key (or `undefined`); a name is a
      group exactly when some sale has it. */
  lemma GroupIsItsSales(sales: seq<Sale>, periodType: PeriodType, cal: Calendar)
    ensures var g := Grouped(sales, periodType, cal);
            forall name :: name in g.table ==>
              var members := InGroup(sales, name, periodType, cal);
              && g.table[name].vendas == |members|
              && g.table[name].total == SumAmount(members)
              && g.table[name].custo == SumCost(members)
              && g.table[name].lucro == SumProfit(members)
    ensures var g := Grouped(sales, periodType, cal);
            forall name :: name in g.table <==> InGroup(sales, name, periodType, cal) != []
  {
    forall name {
      GroupEntry(sales, name, periodType, cal);
    }
  }

  /** The entry named `name` in `g` exists exactly when `members` is not
      empty, and holds their count and sums. */
  predicate EntryMatches(g: Groups, name: string, members: seq<Sale>) {
    && (name in g.table <==> members != [])
    && (name in g.table ==>
          && g.table[name].vendas == |members|
          && g.table[name].total == SumAmount(members)
          && g.table[name].custo == SumCost(members)
          && g.table[name].lucro == SumProfit(members))
  }

  /** The entry named `name` after grouping `sales`. */
  lemma {:induction false} GroupEntry(sales: seq<Sale>, name: string, periodType: PeriodType, cal: Calendar)
    ensures EntryMatches(Grouped(sales, periodType, cal), name, InGroup(sales, name, periodType, cal))
  {
    if sales != [] {
      var init := sales[..|sales| - 1];
      var last := sales[|sales| - 1];
      GroupEntry(init, name, periodType, cal);
      GroupedSnoc(sales, periodType, cal);
      EntryStep(Grouped(init, periodType, cal), InGroup(init, name, periodType, cal), last,
                KeyOf(last, periodType, cal), name);
    }
  }

  /** Adding a sale keeps an entry matched with its members, the sale joining
      the members of its own group. */
  lemma EntryStep(g: Groups, members: seq<Sale>, sale: Sale, key: GroupKey, name: string)
    requires EntryMatches(g, name, members)
    ensures EntryMatches(AddSale(g, sale, key), name,
                         members + (if PropertyName(key) == name then [sale] else []))
  {
    AddSaleEntry(g, sale, key, name);
    if PropertyName(key) == name {
      var m := members + [sale];
      assert m[..|m| - 1] == members;
      if name !in g.table {
        assert members == [];
      }
    } else {
      assert members + [] == members;
    }
  }

  /** What adding a sale does to the entry named `name`: the sale's own
      group gains the sale, every other entry is left as it was. */
  lemma AddSaleEntry(g: Groups, sale: Sale, key: GroupKey, name: string)
    ensures AddSale(g, sale, key).order
            == if PropertyName(key) in g.table then g.order else g.order + [PropertyName(key)]
    ensures name in AddSale(g, sale, key).table <==> name in g.table || name == PropertyName(key)
    ensures name != PropertyName(key) && name in g.table ==> AddSale(g, sale, key).table[name] == g.table[name]
    ensures name == PropertyName(key) ==>
              var e := AddSale(g, sale, key).table[name];
              && e.vendas == (if name in g.table then g.table[name].vendas else 0) + 1
              && e.total == (if name in g.table then g.table[name].total else 0.0) + sale.totalAmount
              && e.custo == (if name in g.table then g.table[name].custo else 0.0) + sale.totalCost
              && e.lucro == (if name in g.table then g.table[name].lucro else 0.0) + sale.totalProfit
  {
  }

  /** Each group records as `periodo` the key that names it: the date for
      `dia`, its first seven characters for `mes`, and `undefined` for an
      unknown period type. */
  lemma PeriodoOfGroup(sales: seq<Sale>, periodType: PeriodType, cal: Calendar)
    ensures var g := Grouped(sales, periodType, cal);
            forall name :: name in g.table ==>
              exists k :: 0 <= k < |sales| && PropertyName(KeyOf(sales[k], periodType, cal)) == name
                          && g.table[name].periodo == Periodo(KeyOf(sales[k], periodType, cal))
  {
    forall name | name in Grouped(sales, periodType, cal).table
      ensures exists k :: 0 <= k < |sales| && PropertyName(KeyOf(sales[k], periodType, cal)) == name
                          && Grouped(sales, periodType, cal).table[name].periodo == Periodo(KeyOf(sales[k], periodType, cal))
    {
      var k := PeriodoWitness(sales, name, periodType, cal);
    }
  }

  /** The sale that created the group named `name`. */
  lemma {:induction false} PeriodoWitness(sales: seq<Sale>, name: string, periodType: PeriodType, cal: Calendar)
    returns (k: nat)
    requires name in Grouped(sales, periodType, cal).table
    ensures k < |sales| && PropertyName(KeyOf(sales[k], periodType, cal)) == name
    ensures Grouped(sales, periodType, cal).table[name].periodo == Periodo(KeyOf(sales[k], periodType, cal))
  {
    assert sales != [];
    var init := sales[..|sales| - 1];
    if name in Grouped(init, periodType, cal).table {
      k := PeriodoWitness(init, name, periodType, cal);
      assert sales[k] == init[k];
    } else {
      k := |sales| - 1;
    }
  }

  /** The keys for each period type. */
  lemma KeysOfPeriods(sale: Sale, cal: Calendar)
    ensures KeyOf(sale, Dia, cal) == Period(sale.date)
    ensures KeyOf(sale, Mes, cal) == Period(Take(sale.date, 7)) && |Take(sale.date, 7)| <= 7
    ensures KeyOf(sale, Other, cal) == NoPeriod && PropertyName(NoPeriod) == "undefined"
    ensures KeyOf(sale, Semana, cal).Throws? <==> cal.weekStart(sale.date).None?
  {
  }

  function SumVendas(vs: seq<Summary>): nat {
    if vs == [] then 0 else SumVendas(vs[..|vs| - 1]) + vs[|vs| - 1].vendas
  }

  /** Summed over the periods, `vendas` counts every sale once. */
  lemma {:induction false} VendasCountSales(sales: seq<Sale>, periodType: PeriodType, cal: Calendar)
    ensures SumVendas(Values(Grouped(sales, periodType, cal))) == |sales|
  {
    if sales != [] {
      VendasCountSales(sales[..|sales| - 1], periodType, cal);
      VendasStep(sales, periodType, cal);
    }
  }

  /** One more sale adds one to the summed `vendas`. */
  lemma VendasStep(sales: seq<Sale>, periodType: PeriodType, cal: Calendar)
    requires sales != []
    ensures SumVendas(Values(Grouped(sales, periodType, cal)))
            == SumVendas(Values(Grouped(sales[..|sales| - 1], periodType, cal))) + 1
  {
    var last := sales[|sales| - 1];
    var key := KeyOf(last, periodType, cal);
    var g := Grouped(sales[..|sales| - 1], periodType, cal);
    assert Grouped(sales, periodType, cal) == AddSale(g, last, key);
    if PropertyName(key) in g.table {
      VendasIntoGroup(g, last, key);
    } else {
      VendasNewGroup(g, last, key);
    }
  }

  /** A sale added to an existing group adds one to that group. */
  lemma VendasIntoGroup(g: Groups, sale: Sale, key: GroupKey)
    requires WellFormed(g) && WellFormed(AddSale(g, sale, key)) && PropertyName(key) in g.table
    ensures SumVendas(Values(AddSale(g, sale, key))) == SumVendas(Values(g)) + 1
  {
    var name := PropertyName(key);
    var vs, vs' := Values(g), Values(AddSale(g, sale, key));
    AddSaleEntry(g, sale, key, name);
    var j :| 0 <= j < |g.order| && g.order[j] == name;
    forall i | 0 <= i < |vs| && i != j ensures vs'[i] == vs[i] {
      AddSaleEntry(g, sale, key, g.order[i]);
    }
    assert vs' == vs[j := vs'[j]];
    SumVendasUpdate(vs, j, vs'[j]);
  }

  /** A sale that opens a new group adds a group of one sale at the end. */
  lemma VendasNewGroup(g: Groups, sale: Sale, key: GroupKey)
    requires WellFormed(g) && WellFormed(AddSale(g, sale, key)) && PropertyName(key) !in g.table
    ensures SumVendas(Values(AddSale(g, sale, key))) == SumVendas(Values(g)) + 1
  {
    var name := PropertyName(key);
    var vs, vs' := Values(g), Values(AddSale(g, sale, key));
    AddSaleEntry(g, sale, key, name);
    forall i | 0 <= i < |vs| ensures vs'[i] == vs[i] {
      AddSaleEntry(g, sale, key, g.order[i]);
    }
    assert vs'[..|vs|] == vs;
  }

  /** Replacing one summary changes the sum by the difference. */
  lemma {:induction false} SumVendasUpdate(vs: seq<Summary>, j: nat, v: Summary)
    requires j < |vs|
    ensures SumVendas(vs[j := v]) + vs[j].vendas == SumVendas(vs) + v.vendas
  {
    var n := |vs| - 1;
    if j < n {
      SumVendasUpdate(vs[..n], j, v);
      assert vs[j := v][..n] == vs[..n][j := v];
    } else {
      assert vs[j := v][..n] == vs[..n];
    }
  }

  /** The periods are distinct, and every sale's period is among them. */
  lemma EverySaleHasItsPeriod(sales: seq<Sale>, periodType: PeriodType, cal: Calendar, k: nat)
    requires k < |sales|
    ensures var g := Grouped(sales, periodType, cal);
            PropertyName(KeyOf(sales[k], periodType, cal)) in g.order
  {
    var name := PropertyName(KeyOf(sales[k], periodType, cal));
    GroupIsItsSales(sales, periodType, cal);
    InGroupHas(sales, k, periodType, cal);
  }

  /** A sale is in the group its key names. */
  lemma {:induction false} InGroupHas(sales: seq<Sale>, k: nat, periodType: PeriodType, cal: Calendar)
    requires k < |sales|
    ensures sales[k] in InGroup(sales, PropertyName(KeyOf(sales[k], periodType, cal)), periodType, cal)
  {
    var n := |sales| - 1;
    if k < n {
      InGroupHas(sales[..n], k, periodType, cal);
      assert sales[..n][k] == sales[k];
    }
  }

  /** Outside the throwing case the report holds every filtered sale: a sale
      dated before a non-empty start bound or after a non-empty end bound is
      left out, the others are counted. */
  lemma ReportCountsFiltered(sales: seq<Sale>, periodType: PeriodType, startDate: string, endDate: string, cal: Calendar)
    requires !AnyThrows(Filtered(sales, startDate, endDate, cal), periodType, cal)
    ensures SumVendas(SalesByPeriodSpec(sales, periodType, startDate, endDate, cal))
            == |Filtered(sales, startDate, endDate, cal)|
    ensures startDate == "" && endDate == "" ==> Filtered(sales, startDate, endDate, cal) == sales
  {
    VendasCountSales(Filtered(sales, startDate, endDate, cal), periodType, cal);
    if startDate == "" && endDate == "" {
      NoBoundsKeepAll(sales, cal);
    }
  }

  lemma {:induction false} NoBoundsKeepAll(sales: seq<Sale>, cal: Calendar)
    ensures Filtered(sales, "", "", cal) == sales
  {
    if sales != [] {
      NoBoundsKeepAll(sales[1..], cal);
    }
  }

  // ------------------------------------------------------------ profitMarginByPeriod

  /** `{...period, receita, margem}`. */
  datatype PeriodMargin = PeriodMargin(period: Summary, receita: real, margem: real)

  function MarginOf(period: Summary): PeriodMargin {
    PeriodMargin(period, period.total, if period.total > 0.0 then period.lucro / period.total * 100.0 else 0.0)
  }

  function Margins(periods: seq<Summary>): (ms: seq<PeriodMargin>)
    ensures |ms| == |periods|
    ensures forall j :: 0 <= j < |periods| ==> ms[j] == MarginOf(periods[j])
  {
    seq(|periods|, j requires 0 <= j < |periods| => MarginOf(periods[j]))
  }

  /** `profitMarginByPeriod(sales, periodType, startDate, endDate)`. */
  method ProfitMarginByPeriod(sales: seq<Sale>, periodType: PeriodType, startDate: string, endDate: string, cal: Calendar)
    returns (margins: seq<PeriodMargin>)
    ensures margins == Margins(SalesByPeriodSpec(sales, periodType, startDate, endDate, cal))
  {
    var periods := SalesByPeriod(sales, periodType, startDate, endDate, cal);
    margins := Margins(periods);
  }

  /** The margins keep the periods and their order; the revenue is the
      period's total; the margin is 0 for a total that is not positive. */
  lemma MarginsOfPeriods(periods: seq<Summary>)
    ensures |Margins(periods)| == |periods|
    ensures forall j :: 0 <= j < |periods| ==>
      var m := Margins(periods)[j];
      && m.period == periods[j] && m.receita == periods[j].total
      && (periods[j].total <= 0.0 ==> m.margem == 0.0)
      && (periods[j].total > 0.0 ==> m.margem * periods[j].total == periods[j].lucro * 100.0)
  {
  }

  /** Where every sale's profit is its total minus its cost, as the sale
      documents record it, each period's margin is the margin of its total
      over its cost as the cost service computes it. */
  lemma MarginIsCostServiceMargin(sales: seq<Sale>, periodType: PeriodType, cal: Calendar)
    requires forall k :: 0 <= k < |sales| ==> sales[k].totalProfit == sales[k].totalAmount - sales[k].totalCost
    ensures var g := Grouped(sales, periodType, cal);
            forall name :: name in g.table ==>
              && g.table[name].lucro == g.table[name].total - g.table[name].custo
              && MarginOf(g.table[name]).margem
                 == CostCalculationService.CalculateProfitMargin(g.table[name].total, g.table[name].custo)
  {
    var g := Grouped(sales, periodType, cal);
    forall name | name in g.table
      ensures && g.table[name].lucro == g.table[name].total - g.table[name].custo
              && MarginOf(g.table[name]).margem
                 == CostCalculationService.CalculateProfitMargin(g.table[name].total, g.table[name].custo)
    {
      GroupProfit(sales, name, periodType, cal);
      MarginOfSummary(g.table[name]);
    }
  }

  /** A summary whose profit is its total minus its cost has the cost
      service's margin. */
  lemma MarginOfSummary(e: Summary)
    requires e.lucro == e.total - e.custo
    ensures MarginOf(e).margem == CostCalculationService.CalculateProfitMargin(e.total, e.custo)
  {
  }

  /** The profit of one group is its total minus its cost. */
  lemma {:induction false} GroupProfit(sales: seq<Sale>, name: string, periodType: PeriodType, cal: Calendar)
    requires forall k :: 0 <= k < |sales| ==> sales[k].totalProfit == sales[k].totalAmount - sales[k].totalCost
    ensures var g := Grouped(sales, periodType, cal);
            name in g.table ==> g.table[name].lucro == g.table[name].total - g.table[name].custo
  {
    if sales != [] {
      var init := sales[..|sales| - 1];
      assert forall k :: 0 <= k < |init| ==> init[k] == sales[k];
      GroupProfit(init, name, periodType, cal);
    }
  }

  // ------------------------------------------------------------ sorting

  predicate SortedBy<T>(s: seq<T>, key: T -> real) {
    forall i, j :: 0 <= i < j < |s| ==> key(s[i]) <= key(s[j])
  }

  /** Insert before the first element whose key is not smaller. */
  function Insert<T>(x: T, s: seq<T>, key: T -> real): (r: seq<T>)
    ensures multiset(r) == multiset(s) + multiset{x}
    ensures forall y :: y in r ==> y == x || y in s
  {
    if s == [] then [x]
    else if key(x) <= key(s[0]) then [x] + s
    else
      var rest := Insert(x, s[1..], key);
      assert s == [s[0]] + s[1..];
      [s[0]] + rest
  }

  /** Inserting into a sorted sequence keeps it sorted. */
  lemma {:induction false} InsertSorted<T>(x: T, s: seq<T>, key: T -> real)
    requires SortedBy(s, key)
    ensures SortedBy(Insert(x, s, key), key)
  {
    if s != [] && key(x) > key(s[0]) {
      var rest := Insert(x, s[1..], key);
      InsertSorted(x, s[1..], key);
      forall y | y in rest ensures key(s[0]) <= key(y) {
        if y != x {
          var k :| 0 <= k < |s[1..]| && s[1..][k] == y;
          assert s[k + 1] == y;
        }
      }
      ConsSorted(s[0], rest, key);
    }
  }

  /** A head no larger than anything after it, on a sorted tail. */
  lemma ConsSorted<T>(h: T, rest: seq<T>, key: T -> real)
    requires SortedBy(rest, key)
    requires forall y :: y in rest ==> key(h) <= key(y)
    ensures SortedBy([h] + rest, key)
  {
    var r := [h] + rest;
    forall i, j | 0 <= i < j < |r| ensures key(r[i]) <= key(r[j]) {
      if i == 0 {
        assert r[j] in rest;
      } else {
        assert r[i] == rest[i - 1] && r[j] == rest[j - 1];
      }
    }
  }

  /** `Array.prototype.sort` with a comparator that orders by `key`
      ascending: a stable insertion sort. */
  function SortBy<T>(s: seq<T>, key: T -> real): (r: seq<T>)
    ensures multiset(r) == multiset(s)
    ensures SortedBy(r, key)
  {
    if s == [] then []
    else
      assert s == [s[0]] + s[1..];
      InsertSorted(s[0], SortBy(s[1..], key), key);
      Insert(s[0], SortBy(s[1..], key), key)
  }

  /** `s.slice(0, limit)`: a negative limit counts from the end. */
  function Slice0<T>(s: seq<T>, limit: int): (r: seq<T>)
    ensures limit >= 0 ==> |r| == Min(limit, |s|)
    ensures limit < 0 ==> |r| == Max(0, |s| + limit)
    ensures r == s[..|r|]
  {
    if limit >= 0 then s[..Min(limit, |s|)] else s[..Max(0, |s| + limit)]
  }

  // ------------------------------------------------------------ topSellingProducts

  datatype Product = Product(sweetId: Id, nome: string, quantidade: real)

  /** `productSales`: its property names in insertion order, and the
      entries. */
  datatype Products = Products(order: seq<string>, table: map<string, Product>)

  predicate ProductsWellFormed(p: Products) {
    && (forall j :: 0 <= j < |p.order| ==> p.order[j] in p.table)
    && (forall k :: k in p.table ==> k in p.order)
    && (forall i, j :: 0 <= i < j < |p.order| ==> p.order[i] != p.order[j])
  }

  const UNKNOWN_PRODUCT := "Produto Desconhecido"

  /** `sweet?.name || 'Produto Desconhecido'`. */
  function NameOf(sweets: seq<Sweet>, id: Id): string {
    var sweet := FindSweet(sweets, id);
    if sweet.None? || sweet.value.name == "" then UNKNOWN_PRODUCT else sweet.value.name
  }

  /** The inner `forEach` body: create the product's entry (keyed by
      `String(sweetId)`) if it is new, then add the quantity. */
  function AddItem(p: Products, item: SoldItem, sweets: seq<Sweet>, show: real -> string): Products {
    var name := IdString(item.sweetId, show);
    var e := if name in p.table then p.table[name] else Product(item.sweetId, NameOf(sweets, item.sweetId), 0.0);
    Products(if name in p.table then p.order else p.order + [name],
             p.table[name := e.(quantidade := e.quantidade + item.quantity)])
  }

  /** The items of the sales, sale after sale. */
  function AllItems(sales: seq<Sale>): seq<SoldItem> {
    if sales == [] then [] else AllItems(sales[..|sales| - 1]) + sales[|sales| - 1].items
  }

  /** `productSales` after the `forEach` over `items`. */
  function Tally(items: seq<SoldItem>, sweets: seq<Sweet>, show: real -> string): (p: Products)
    ensures ProductsWellFormed(p)
  {
    if items == [] then Products([], map[])
    else AddItem(Tally(items[..|items| - 1], sweets, show), items[|items| - 1], sweets, show)
  }

  function ProductValues(p: Products): (vs: seq<Product>)
    requires ProductsWellFormed(p)
    ensures |vs| == |p.order|
    ensures forall j :: 0 <= j < |vs| ==> vs[j] == p.table[p.order[j]]
  {
    seq(|p.order|, j requires 0 <= j < |p.order| && ProductsWellFormed(p) => p.table[p.order[j]])
  }

  /** The sort key: `b.quantidade - a.quantidade` puts larger quantities
      first. */
  function ByQuantity(p: Product): real { -p.quantidade }

  /** What `topSellingProducts(sales, sweets, limit, startDate, endDate)`
      returns. */
  function TopSellingSpec(sales: seq<Sale>, sweets: seq<Sweet>, limit: int, startDate: string, endDate: string,
                          cal: Calendar, show: real -> string): seq<Product>
  {
    var filtered := Filtered(sales, startDate, endDate, cal);
    Slice0(SortBy(ProductValues(Tally(AllItems(filtered), sweets, show)), ByQuantity), limit)
  }

  /** `topSellingProducts(...)`: the two nested `forEach` loops fill
      `productSales`; then sort and slice. */
  method TopSellingProducts(sales: seq<Sale>, sweets: seq<Sweet>, limit: int, startDate: string, endDate: string,
                            cal: Calendar, show: real -> string)
    returns (top: seq<Product>)
    ensures top == TopSellingSpec(sales, sweets, limit, startDate, endDate, cal, show)
  {
    var filtered := Filtered(sales, startDate, endDate, cal);
    var order: seq<string> := [];
    var table: map<string, Product> := map[];
    var i := 0;
    while i < |filtered|
      invariant 0 <= i <= |filtered|
      invariant Products(order, table) == Tally(AllItems(filtered[..i]), sweets, show)
    {
      var items := filtered[i].items;
      var j := 0;
      assert AllItems(filtered[..i]) + items[..0] == AllItems(filtered[..i]);
      while j < |items|
        invariant 0 <= j <= |items|
        invariant Products(order, table) == Tally(AllItems(filtered[..i]) + items[..j], sweets, show)
      {
        order, table := AddToProducts(order, table, items[j], sweets, show);
        TallyStep(AllItems(filtered[..i]), items, j, sweets, show);
        j := j + 1;
      }
      AllItemsStep(filtered, i);
      assert items[..j] == items;
      i := i + 1;
    }
    assert filtered[..i] == filtered;
    top := Slice0(SortBy(ProductValues(Products(order, table)), ByQuantity), limit);
  }

  /** The inner `forEach` body: create the product's entry when its key is
      new, then add the item's quantity to it. */
  method AddToProducts(order: seq<string>, table: map<string, Product>, item: SoldItem, sweets: seq<Sweet>,
                       show: real -> string)
    returns (order': seq<string>, table': map<string, Product>)
    ensures Products(order', table') == AddItem(Products(order, table), item, sweets, show)
  {
    order', table' := order, table;
    var name := IdString(item.sweetId, show);
    if name !in table' {
      table' := table'[name := Product(item.sweetId, NameOf(sweets, item.sweetId), 0.0)];
      order' := order' + [name];
    }
    table' := table'[name := table'[name].(quantidade := table'[name].quantidade + item.quantity)];
  }

  /** One more item tallied. */
  lemma TallyStep(prefix: seq<SoldItem>, items: seq<SoldItem>, j: nat, sweets: seq<Sweet>, show: real -> string)
    requires j < |items|
    ensures Tally(prefix + items[..j + 1], sweets, show)
            == AddItem(Tally(prefix + items[..j], sweets, show), items[j], sweets, show)
  {
    var s := prefix + items[..j + 1];
    assert s[..|s| - 1] == prefix + items[..j];
    assert s[|s| - 1] == items[j];
    TallySnoc(s, sweets, show);
  }

  lemma TallySnoc(s: seq<SoldItem>, sweets: seq<Sweet>, show: real -> string)
    requires s != []
    ensures Tally(s, sweets, show) == AddItem(Tally(s[..|s| - 1], sweets, show), s[|s| - 1], sweets, show)
  {
  }

  /** One more sale's items. */
  lemma AllItemsStep(sales: seq<Sale>, i: nat)
    requires i < |sales|
    ensures AllItems(sales[..i + 1]) == AllItems(sales[..i]) + sales[i].items
  {
    assert sales[..i + 1][..i] == sales[..i];
  }

  function SumQuantity(items: seq<SoldItem>, name: string, show: real -> string): real {
    if items == [] then 0.0
    else
      var last := items[|items| - 1];
      SumQuantity(items[..|items| - 1], name, show) + (if IdString(last.sweetId, show) == name then last.quantity else 0.0)
  }

  /** Each product's quantity is the sum of the quantities of the items
      whose id reads as its key, and its name is that of the sweet with the
      first such item's id, or `Produto Desconhecido` when there is none. */
  lemma TallyIsItsItems(items: seq<SoldItem>, sweets: seq<Sweet>, show: real -> string)
    ensures var p := Tally(items, sweets, show);
            forall name :: name in p.table ==>
              && p.table[name].quantidade == SumQuantity(items, name, show)
              && IdString(p.table[name].sweetId, show) == name
              && p.table[name].nome == NameOf(sweets, p.table[name].sweetId)
              && (FindSweet(sweets, p.table[name].sweetId).None? ==> p.table[name].nome == UNKNOWN_PRODUCT)
    ensures var p := Tally(items, sweets, show);
            forall k :: 0 <= k < |items| ==> IdString(items[k].sweetId, show) in p.table
  {
    var p := Tally(items, sweets, show);
    forall name | name in p.table
      ensures && p.table[name].quantidade == SumQuantity(items, name, show)
              && IdString(p.table[name].sweetId, show) == name
              && p.table[name].nome == NameOf(sweets, p.table[name].sweetId)
    {
      TallyEntry(items, name, sweets, show);
    }
    forall k | 0 <= k < |items| {
      TallyHas(items, k, sweets, show);
    }
  }

  /** The entry keyed `name`, if any, is the product of the items with that
      key. */
  predicate ProductMatches(p: Products, name: string, items: seq<SoldItem>, sweets: seq<Sweet>, show: real -> string) {
    && (name !in p.table ==> SumQuantity(items, name, show) == 0.0)
    && (name in p.table ==>
          && p.table[name].quantidade == SumQuantity(items, name, show)
          && IdString(p.table[name].sweetId, show) == name
          && p.table[name].nome == NameOf(sweets, p.table[name].sweetId))
  }

  lemma {:induction false} TallyEntry(items: seq<SoldItem>, name: string, sweets: seq<Sweet>, show: real -> string)
    ensures ProductMatches(Tally(items, sweets, show), name, items, sweets, show)
  {
    if items != [] {
      var init := items[..|items| - 1];
      TallyEntry(init, name, sweets, show);
      TallySnoc(items, sweets, show);
      assert items == init + [items[|items| - 1]];
      ProductStep(Tally(init, sweets, show), init, items[|items| - 1], name, sweets, show);
    }
  }

  /** Adding an item keeps an entry matched with the items. */
  lemma ProductStep(p: Products, items: seq<SoldItem>, item: SoldItem, name: string, sweets: seq<Sweet>,
                    show: real -> string)
    requires ProductMatches(p, name, items, sweets, show)
    ensures ProductMatches(AddItem(p, item, sweets, show), name, items + [item], sweets, show)
  {
    AddItemEntry(p, item, name, sweets, show);
    var s := items + [item];
    assert s[..|s| - 1] == items;
  }

  /** Every item's key has an entry. */
  lemma {:induction false} TallyHas(items: seq<SoldItem>, k: nat, sweets: seq<Sweet>, show: real -> string)
    requires k < |items|
    ensures IdString(items[k].sweetId, show) in Tally(items, sweets, show).table
  {
    var n := |items| - 1;
    var name := IdString(items[k].sweetId, show);
    if k < n {
      TallyHas(items[..n], k, sweets, show);
      assert items[..n][k] == items[k];
    }
    var before := Tally(items[..n], sweets, show);
    AddItemKeys(before, items[n], name, sweets, show);
    assert name in AddItem(before, items[n], sweets, show).table;
    TallySnoc(items, sweets, show);
  }

  /** Adding an item adds its key and keeps the others. */
  lemma AddItemKeys(p: Products, item: SoldItem, name: string, sweets: seq<Sweet>, show: real -> string)
    ensures name in AddItem(p, item, sweets, show).table <==> name in p.table || name == IdString(item.sweetId, show)
  {
  }

  /** What adding an item does to the entry keyed `name`: the item's own
      entry gains its quantity, every other entry is left as it was. */
  lemma AddItemEntry(p: Products, item: SoldItem, name: string, sweets: seq<Sweet>, show: real -> string)
    ensures name in AddItem(p, item, sweets, show).table <==> name in p.table || name == IdString(item.sweetId, show)
    ensures name != IdString(item.sweetId, show) && name in p.table ==>
              AddItem(p, item, sweets, show).table[name] == p.table[name]
    ensures name == IdString(item.sweetId, show) ==>
              var e := AddItem(p, item, sweets, show).table[name];
              && e.quantidade == (if name in p.table then p.table[name].quantidade else 0.0) + item.quantity
              && e.sweetId == (if name in p.table then p.table[name].sweetId else item.sweetId)
              && e.nome == (if name in p.table then p.table[name].nome else NameOf(sweets, item.sweetId))
  {
  }

  /** The result is ordered by quantity, largest first, has at most `limit`
      entries (for a limit that is not negative), and is a prefix of a
      reordering of all the products sold. */
  lemma TopSellingShape(sales: seq<Sale>, sweets: seq<Sweet>, limit: int, startDate: string, endDate: string,
                        cal: Calendar, show: real -> string)
    ensures var top := TopSellingSpec(sales, sweets, limit, startDate, endDate, cal, show);
            forall i, j :: 0 <= i < j < |top| ==> top[i].quantidade >= top[j].quantidade
    ensures limit >= 0 ==> |TopSellingSpec(sales, sweets, limit, startDate, endDate, cal, show)| <= limit
    ensures var all := ProductValues(Tally(AllItems(Filtered(sales, startDate, endDate, cal)), sweets, show));
            var sorted := SortBy(all, ByQuantity);
            && multiset(sorted) == multiset(all)
            && TopSellingSpec(sales, sweets, limit, startDate, endDate, cal, show) == sorted[..|TopSellingSpec(sales, sweets, limit, startDate, endDate, cal, show)|]
  {
    var all := ProductValues(Tally(AllItems(Filtered(sales, startDate, endDate, cal)), sweets, show));
    var sorted := SortBy(all, ByQuantity);
    var top := Slice0(sorted, limit);
    forall i, j | 0 <= i < j < |top| ensures top[i].quantidade >= top[j].quantidade {
      assert top[i] == sorted[i] && top[j] == sorted[j];
      assert ByQuantity(sorted[i]) <= ByQuantity(sorted[j]);
    }
  }

  // ------------------------------------------------------------ lowStockAlerts

  datatype Alert = Alert(id: Id, nome: string, estoque: Option<real>)

  /** `Number(sweet.stock || 0) <= threshold`. */
  predicate IsLow(sweet: Sweet, threshold: real) {
    sweet.stock.GetOr(0.0) <= threshold
  }

  function AlertOf(sweet: Sweet): Alert {
    Alert(sweet.id, sweet.name, sweet.stock)
  }

  /** The filter and the map. */
  function LowAlerts(sweets: seq<Sweet>, threshold: real): (r: seq<Alert>)
    ensures |r| <= |sweets|
  {
    if sweets == [] then []
    else (if IsLow(sweets[0], threshold) then [AlertOf(sweets[0])] else []) + LowAlerts(sweets[1..], threshold)
  }

  /** The sort key: `a.estoque - b.estoque` ascending, a missing stock read
      as 0. */
  function ByStock(a: Alert): real { a.estoque.GetOr(0.0) }

  /** `lowStockAlerts(sweets, threshold)`. */
  function LowStockAlerts(sweets: seq<Sweet>, threshold: real): (alerts: seq<Alert>)
    ensures SortedBy(alerts, ByStock)
    ensures multiset(alerts) == multiset(LowAlerts(sweets, threshold))
  {
    SortBy(LowAlerts(sweets, threshold), ByStock)
  }

  /** A sweet has an alert exactly when its stock (0 when missing) is at
      most the threshold; the alerts come in increasing stock. */
  lemma {:induction false} AlertsAreLowSweets(sweets: seq<Sweet>, threshold: real)
    ensures forall s :: s in sweets && IsLow(s, threshold) ==> AlertOf(s) in LowStockAlerts(sweets, threshold)
    ensures forall a :: a in LowStockAlerts(sweets, threshold) ==>
              exists s :: s in sweets && IsLow(s, threshold) && a == AlertOf(s)
    ensures forall a :: a in LowStockAlerts(sweets, threshold) ==> a.estoque.GetOr(0.0) <= threshold
  {
    LowAlertsMembers(sweets, threshold);
    var alerts := LowStockAlerts(sweets, threshold);
    assert forall a :: a in alerts <==> a in multiset(alerts);
    assert forall a :: a in LowAlerts(sweets, threshold) <==> a in multiset(LowAlerts(sweets, threshold));
  }

  lemma {:induction false} LowAlertsMembers(sweets: seq<Sweet>, threshold: real)
    ensures forall s :: s in sweets && IsLow(s, threshold) ==> AlertOf(s) in LowAlerts(sweets, threshold)
    ensures forall a :: a in LowAlerts(sweets, threshold) ==>
              exists s :: s in sweets && IsLow(s, threshold) && a == AlertOf(s)
  {
    if sweets != [] {
      LowAlertsMembers(sweets[1..], threshold);
      assert forall s :: s in sweets ==> s == sweets[0] || s in sweets[1..];
    }
  }
}
