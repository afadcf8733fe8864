/**
 * The money reports: the summary report (inventory_ui.py:1181-1195) and the
 * profit/loss report (inventory_ui.py:1240-1296). Both are running totals over
 * the ledger in insertion order; missing fields count as 0.
 */
module Reports {
  import opened Common
  import opened Sums
  import opened Ledger
  import opened Stock

  datatype Summary = Summary(totalSales: real, totalDiscount: real, totalRevenue: real, numSales: nat)

  /**
   * What the summary report shows for a ledger: one sale per row, and when every
   * row satisfies the pricing identities, revenue is sales less discounts.
   */
  function SummaryOf(h: seq<SaleRecord>): (s: Summary)
    ensures s.numSales == |h|
    ensures h == [] ==> s.totalSales == 0.0 && s.totalDiscount == 0.0 && s.totalRevenue == 0.0
    ensures (forall i :: 0 <= i < |h| ==> Consistent(h[i])) ==> s.totalRevenue == s.totalSales - s.totalDiscount
  {
    RevenueIsSalesLessDiscount(h);
    Summary(Sum(h, TotalSaleOf), Sum(h, DiscountPriceOf), Sum(h, FinalTotalOf), |h|)
  }

  /** The summary report's loop. */
  method SummaryReport(h: seq<SaleRecord>) returns (s: Summary)
    ensures s == SummaryOf(h)
  {
    var totalSales, totalDiscount, totalRevenue := 0.0, 0.0, 0.0;
    var numSales: nat := 0;
    for i := 0 to |h|
      invariant totalSales == Sum(h[..i], TotalSaleOf)
      invariant totalDiscount == Sum(h[..i], DiscountPriceOf)
      invariant totalRevenue == Sum(h[..i], FinalTotalOf)
      invariant numSales == i
    {
      SumPrefixStep(h, i, TotalSaleOf);
      SumPrefixStep(h, i, DiscountPriceOf);
      SumPrefixStep(h, i, FinalTotalOf);
      totalSales := totalSales + h[i].totalSale.GetOr(0.0);
      totalDiscount := totalDiscount + h[i].discountPrice.GetOr(0.0);
      totalRevenue := totalRevenue + h[i].finalTotal.GetOr(0.0);
      numSales := numSales + 1;
    }
    assert h[..|h|] == h;
    s := Summary(totalSales, totalDiscount, totalRevenue, numSales);
  }

  /** Appending a row adds its amounts to the three totals and one to the count. */
  lemma SummaryAfterAppend(h: seq<SaleRecord>, r: SaleRecord)
    ensures SummaryOf(h + [r]) == Summary(
              SummaryOf(h).totalSales + TotalSaleOf(r),
              SummaryOf(h).totalDiscount + DiscountPriceOf(r),
              SummaryOf(h).totalRevenue + FinalTotalOf(r),
              SummaryOf(h).numSales + 1)
  {
    SumAppend(h, [r], TotalSaleOf);
    SumAppend(h, [r], DiscountPriceOf);
    SumAppend(h, [r], FinalTotalOf);
    assert [r][..0] == [];
  }

  /** When every row satisfies the pricing identities, the final totals sum to the sales less the discounts. */
  lemma {:induction false} RevenueIsSalesLessDiscount(h: seq<SaleRecord>)
    ensures (forall i :: 0 <= i < |h| ==> Consistent(h[i])) ==>
      Sum(h, FinalTotalOf) == Sum(h, TotalSaleOf) - Sum(h, DiscountPriceOf)
    decreases |h|
  {
    if |h| > 0 && forall i :: 0 <= i < |h| ==> Consistent(h[i]) {
      RevenueIsSalesLessDiscount(h[..|h| - 1]);
      ConsistentTotals(h[|h| - 1]);
    }
  }

  /** The position of the last item named `name`, or -1 when none is. */
  function LastIndexByName(inv: seq<Item>, name: string): (i: int)
    ensures -1 <= i < |inv|
    ensures i >= 0 ==> inv[i].name == name
    ensures forall j :: i < j < |inv| ==> inv[j].name != name
    decreases |inv|
  {
    if |inv| == 0 then -1
    else if inv[|inv| - 1].name == name then |inv| - 1
    else LastIndexByName(inv[..|inv| - 1], name)
  }

  /**
   * The name -> cost price dictionary built from the stock list
   * (inventory_ui.py:1245-1246): for a duplicated name the last item wins.
   */
  function CostPriceMap(inv: seq<Item>): (m: map<string, real>)
    ensures forall k :: k in m <==> LastIndexByName(inv, k) >= 0
    ensures forall k :: k in m ==> m[k] == inv[LastIndexByName(inv, k)].costPrice
    decreases |inv|
  {
    if |inv| == 0 then map[]
    else
      var n := |inv| - 1;
      CostPriceMap(inv[..n])[inv[n].name := inv[n].costPrice]
  }

  /** The dictionary lookup with a default: the name's entry, or 0 when the name has none. */
  function CostLookup(m: map<string, real>, name: string): (c: real)
    ensures name in m ==> c == m[name]
    ensures name !in m ==> c == 0.0
  {
    if name in m then m[name] else 0.0
  }

  datatype ProfitLossRow = ProfitLossRow(
    itemName: string, quantity: real, costPrice: real, finalTotal: real, profit: real, loss: real)

  function ProfitOf(row: ProfitLossRow): real { row.profit }
  function LossOf(row: ProfitLossRow): real { row.loss }

  /**
   * The current cost price of the row's item name: 0 when the name is missing
   * (a NULL name is a key of no item) or no item has it.
   */
  function CostPriceOf(r: SaleRecord, m: map<string, real>): real {
    match r.itemName
    case Some(name) => CostLookup(m, name)
    case None => 0.0
  }

  /**
   * The cost price a ledger row is charged in the report is that of the LAST
   * stock item bearing the row's item name, or 0 when the row has no name or
   * no item bears it.
   */
  lemma CostPriceFromStock(r: SaleRecord, inv: seq<Item>)
    ensures var i := if r.itemName.Some? then LastIndexByName(inv, r.itemName.value) else -1;
      CostPriceOf(r, CostPriceMap(inv)) == if i >= 0 then inv[i].costPrice else 0.0
  {
  }

  /** What the sale cost at the current cost price of the item's name. */
  function CostTotalOf(r: SaleRecord, m: map<string, real>): real {
    LineTotal(QuantitySoldOf(r), CostPriceOf(r, m))
  }

  /**
   * One row of the profit/loss report. The cost price is the CURRENT one of the
   * item's name (0 when no item has it), not the snapshot kept in the row.
   */
  function ProfitLossRowOf(r: SaleRecord, m: map<string, real>): (row: ProfitLossRow)
    ensures row.itemName == ItemNameOf(r) && row.quantity == QuantitySoldOf(r) as real
    ensures row.costPrice == CostPriceOf(r, m) && row.finalTotal == FinalTotalOf(r)
    ensures row.profit >= 0.0 && row.loss >= 0.0
    ensures row.profit == 0.0 || row.loss == 0.0
    ensures row.profit - row.loss == FinalTotalOf(r) - CostTotalOf(r, m)
  {
    var name := ItemNameOf(r);
    var qty := QuantitySoldOf(r) as real;
    var finalTotal := FinalTotalOf(r);
    var costPrice := CostPriceOf(r, m);
    var costTotal := CostTotalOf(r, m);
    if finalTotal > costTotal then ProfitLossRow(name, qty, costPrice, finalTotal, finalTotal - costTotal, 0.0)
    else if finalTotal < costTotal then ProfitLossRow(name, qty, costPrice, finalTotal, 0.0, costTotal - finalTotal)
    else ProfitLossRow(name, qty, costPrice, finalTotal, 0.0, 0.0)
  }

  function ProfitLossRows(h: seq<SaleRecord>, m: map<string, real>): (rows: seq<ProfitLossRow>)
    ensures |rows| == |h|
  {
    seq(|h|, i requires 0 <= i < |h| => ProfitLossRowOf(h[i], m))
  }

  /** The profit/loss report's loop: one row per ledger row, and the running totals. */
  method ProfitLossReport(h: seq<SaleRecord>, inv: seq<Item>)
    returns (rows: seq<ProfitLossRow>, totalProfit: real, totalLoss: real)
    ensures rows == ProfitLossRows(h, CostPriceMap(inv))
    ensures totalProfit == Sum(rows, ProfitOf) && totalLoss == Sum(rows, LossOf)
  {
    var costPriceMap := CostPriceMap(inv);
    rows := [];
    totalProfit, totalLoss := 0.0, 0.0;
    for i := 0 to |h|
      invariant |rows| == i
      invariant forall j :: 0 <= j < i ==> rows[j] == ProfitLossRowOf(h[j], costPriceMap)
      invariant totalProfit == Sum(rows, ProfitOf) && totalLoss == Sum(rows, LossOf)
    {
      var name := h[i].itemName.GetOr("");
      var qty := h[i].quantitySold.GetOr(0) as real;
      var finalTotal := h[i].finalTotal.GetOr(0.0);
      var costPrice := 0.0;
      if h[i].itemName.Some? && h[i].itemName.value in costPriceMap {
        costPrice := costPriceMap[h[i].itemName.value];
      }
      var costTotal := LineTotal(h[i].quantitySold.GetOr(0), costPrice);
      var profit, loss := 0.0, 0.0;
      if finalTotal > costTotal {
        profit := finalTotal - costTotal;
        totalProfit := totalProfit + profit;
      } else if finalTotal < costTotal {
        loss := costTotal - finalTotal;
        totalLoss := totalLoss + loss;
      }
      var row := ProfitLossRow(name, qty, costPrice, finalTotal, profit, loss);
      assert row == ProfitLossRowOf(h[i], costPriceMap) by {
        assert name == ItemNameOf(h[i]) && qty == QuantitySoldOf(h[i]) as real && finalTotal == FinalTotalOf(h[i]);
        assert costPrice == CostPriceOf(h[i], costPriceMap);
        assert costTotal == CostTotalOf(h[i], costPriceMap);
      }
      assert Sum(rows + [row], ProfitOf) == Sum(rows, ProfitOf) + profit
          && Sum(rows + [row], LossOf) == Sum(rows, LossOf) + loss by {
        SumSnoc(rows, row, ProfitOf);
        SumSnoc(rows, row, LossOf);
      }
      rows := rows + [row];
    }
  }

  /**
   * Over the whole report, total profit less total loss is the revenue less
   * what the goods sold cost at current cost prices.
   */
  lemma ProfitLossNet(h: seq<SaleRecord>, m: map<string, real>)
    ensures Sum(ProfitLossRows(h, m), ProfitOf) - Sum(ProfitLossRows(h, m), LossOf)
         == Sum(h, FinalTotalOf) - Sum(h, r => CostTotalOf(r, m))
  {
    var rows := ProfitLossRows(h, m);
    var net := (row: ProfitLossRow) => row.profit - row.loss;
    var cost := (r: SaleRecord) => CostTotalOf(r, m);
    var margin := (r: SaleRecord) => FinalTotalOf(r) - CostTotalOf(r, m);
    SumDifference(rows, ProfitOf, LossOf, net);
    SumPointwise(rows, net, h, margin);
    SumDifference(h, FinalTotalOf, cost, margin);
  }
}
