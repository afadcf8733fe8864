/**
 * The stock list of the GUI (`self.inventory`, loaded from the `inventory`
 * table): lookup by display name, the grand total shown under the list and in
 * the stock report, and the search filter.
 */
module Stock {
  import opened Common
  import opened Sums

  datatype Item = Item(id: int, name: string, quantity: int, price: real, costPrice: real)

  /**
   * The position of the first item named `name`, or `|inv|` when none is.
   * Duplicate names are allowed; the first one wins.
   */
  function FirstIndexByName(inv: seq<Item>, name: string): (i: nat)
    ensures i <= |inv|
    ensures i < |inv| ==> inv[i].name == name
    ensures forall j :: 0 <= j < i ==> inv[j].name != name
    decreases |inv|
  {
    if |inv| == 0 then 0
    else if inv[0].name == name then 0
    else 1 + FirstIndexByName(inv[1..], name)
  }

  /** The scan of the sale dialog for the item to sell (inventory_ui.py:535-539). */
  method FindByName(inv: seq<Item>, name: string) returns (i: nat)
    ensures i == FirstIndexByName(inv, name)
  {
    i := 0;
    while i < |inv|
      invariant i <= |inv|
      invariant forall j :: 0 <= j < i ==> inv[j].name != name
    {
      if inv[i].name == name {
        return;
      }
      i := i + 1;
    }
  }

  /** The value of an item's stock at its selling price. */
  function StockValue(it: Item): real {
    LineTotal(it.quantity, it.price)
  }

  /**
   * The grand total of the stock list (inventory_ui.py:345): the sum of quantity
   * times price, never negative while no quantity or price is.
   */
  function GrandTotal(inv: seq<Item>): (r: real)
    ensures inv == [] ==> r == 0.0
    ensures (forall i :: 0 <= i < |inv| ==> inv[i].quantity >= 0 && inv[i].price >= 0.0) ==> r >= 0.0
  {
    SumNonNegative(inv, StockValue);
    Sum(inv, StockValue)
  }

  /** The running total of the stock report (inventory_ui.py:971-975). */
  method StockReportTotal(inv: seq<Item>) returns (total: real)
    ensures total == GrandTotal(inv)
  {
    total := 0.0;
    var i := 0;
    while i < |inv|
      invariant i <= |inv|
      invariant total == Sum(inv[..i], StockValue)
    {
      SumPrefixStep(inv, i, StockValue);
      total := total + inv[i].quantity as real * inv[i].price;
      i := i + 1;
    }
    assert inv[..i] == inv;
  }

  /** The stock list after `qty` units of item `i` are taken out. */
  function Decremented(inv: seq<Item>, i: nat, qty: int): (r: seq<Item>)
    requires i < |inv|
    ensures |r| == |inv|
    ensures r[i] == inv[i].(quantity := inv[i].quantity - qty)
    ensures forall j :: 0 <= j < |inv| && j != i ==> r[j] == inv[j]
  {
    inv[i := inv[i].(quantity := inv[i].quantity - qty)]
  }

  /** Taking `qty` units out of one item lowers the grand total by their value at that item's price. */
  lemma GrandTotalAfterDecrement(inv: seq<Item>, i: nat, qty: int)
    requires i < |inv|
    ensures GrandTotal(Decremented(inv, i, qty)) == GrandTotal(inv) - LineTotal(qty, inv[i].price)
  {
    SumUpdate(inv, i, inv[i].(quantity := inv[i].quantity - qty), StockValue);
  }

  /** ASCII lower-casing, as `str.lower` acts on the letters A-Z. */
  function LowerChar(c: char): char {
    if 'A' <= c <= 'Z' then (c as int - 'A' as int + 'a' as int) as char else c
  }

  function Lower(s: string): (r: string)
    ensures |r| == |s|
    ensures forall i :: 0 <= i < |s| ==> r[i] == LowerChar(s[i])
  {
    seq(|s|, i requires 0 <= i < |s| => LowerChar(s[i]))
  }

  /** `q` occurs in `s` starting at position `k`. */
  predicate OccursAt(s: string, q: string, k: nat) {
    k + |q| <= |s| && s[k..k + |q|] == q
  }

  /** `q in s` on strings: `q` occurs in `s` as a contiguous piece. */
  predicate Contains(s: string, q: string) {
    exists k: nat :: k <= |s| && OccursAt(s, q, k)
  }

  /** The search box's test for one item (inventory_ui.py:324). */
  predicate MatchesQuery(it: Item, query: string) {
    Contains(Lower(it.name), Lower(query))
  }

  /** The items whose lower-cased name contains `q`, in stock-list order. */
  function FilterByName(inv: seq<Item>, q: string): (r: seq<Item>)
    ensures |r| <= |inv|
    ensures forall it :: it in r <==> it in inv && Contains(Lower(it.name), q)
    decreases |inv|
  {
    if |inv| == 0 then []
    else if Contains(Lower(inv[0].name), q) then [inv[0]] + FilterByName(inv[1..], q)
    else FilterByName(inv[1..], q)
  }

  /**
   * The search filter (inventory_ui.py:319-324): an empty query keeps the whole
   * list, otherwise the items whose name contains the query, ignoring case.
   */
  function Search(inv: seq<Item>, query: string): (r: seq<Item>)
    ensures query == "" ==> r == inv
    ensures |r| <= |inv|
    ensures forall it :: it in r <==> it in inv && MatchesQuery(it, query)
  {
    if query == "" then
      assert forall it: Item :: MatchesQuery(it, query) by {
        forall it: Item ensures OccursAt(Lower(it.name), Lower(query), 0) { }
      }
      inv
    else FilterByName(inv, Lower(query))
  }

  /** Every item that passed the filter passes it again, so filtering twice changes nothing. */
  lemma {:induction false} FilterByNameIdempotent(inv: seq<Item>, q: string)
    ensures FilterByName(FilterByName(inv, q), q) == FilterByName(inv, q)
    decreases |inv|
  {
    if |inv| > 0 {
      FilterByNameIdempotent(inv[1..], q);
      if Contains(Lower(inv[0].name), q) {
        var rest := FilterByName(inv[1..], q);
        assert ([inv[0]] + rest)[1..] == rest;
      }
    }
  }

  /**
   * The filter keeps the list's order: filtering a concatenation is
   * concatenating the filtered parts.
   */
  lemma {:induction false} FilterByNameAppend(a: seq<Item>, b: seq<Item>, q: string)
    ensures FilterByName(a + b, q) == FilterByName(a, q) + FilterByName(b, q)
    decreases |a|
  {
    if |a| > 0 {
      assert (a + b)[0] == a[0];
      assert (a + b)[1..] == a[1..] + b;
      FilterByNameAppend(a[1..], b, q);
    } else {
      assert a + b == b;
    }
  }

  /**
   * The search keeps the list's order: searching a concatenation is
   * concatenating the searched parts. With the membership facts of `Search`
   * (a one-item list yields itself or nothing), this fixes the result exactly.
   */
  lemma SearchAppend(a: seq<Item>, b: seq<Item>, query: string)
    ensures Search(a + b, query) == Search(a, query) + Search(b, query)
  {
    if query != "" {
      FilterByNameAppend(a, b, Lower(query));
    }
  }

  /** Searching the result of a search with the same query returns it unchanged. */
  lemma SearchIdempotent(inv: seq<Item>, query: string)
    ensures Search(Search(inv, query), query) == Search(inv, query)
  {
    if query != "" {
      FilterByNameIdempotent(inv, Lower(query));
    }
  }
}
