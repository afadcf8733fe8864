/**
 * Customer views derived from the ledger: the customer report
 * (inventory_ui.py:1123-1131), the customer list (inventory_ui.py:871-880) and
 * the name lookup that autofills the sale dialog (inventory_ui.py:183-189).
 * Customers are keyed by the exact pair (name, contact); a missing field reads
 * as "".
 */
module Customers {
  import opened Common
  import opened Sums
  import opened Ledger

  /** The keys of the ledger's rows, each once, in order of first appearance. */
  function DistinctKeys(h: seq<SaleRecord>): (ks: seq<CustomerKey>)
    ensures forall i, j :: 0 <= i < j < |ks| ==> ks[i] != ks[j]
    ensures forall k :: k in ks <==> exists q :: 0 <= q < |h| && KeyOf(h[q]) == k
    decreases |h|
  {
    if |h| == 0 then []
    else
      var n := |h| - 1;
      var ks := DistinctKeys(h[..n]);
      assert forall q :: 0 <= q < n ==> h[..n][q] == h[q];
      if KeyOf(h[n]) in ks then ks else ks + [KeyOf(h[n])]
  }

  /** How many rows carry the key `k`. */
  function CountKey(h: seq<SaleRecord>, k: CustomerKey): (c: nat)
    ensures c <= |h|
    decreases |h|
  {
    if |h| == 0 then 0
    else
      var n := |h| - 1;
      CountKey(h[..n], k) + (if KeyOf(h[n]) == k then 1 else 0)
  }

  /** A key has no purchases exactly when no row carries it. */
  lemma {:induction false} CountKeyZero(h: seq<SaleRecord>, k: CustomerKey)
    ensures CountKey(h, k) == 0 <==> forall q :: 0 <= q < |h| ==> KeyOf(h[q]) != k
    decreases |h|
  {
    if |h| > 0 {
      var n := |h| - 1;
      CountKeyZero(h[..n], k);
      assert forall q :: 0 <= q < n ==> h[..n][q] == h[q];
    }
  }

  /**
   * When every row of `oldKey` is re-keyed to `newKey` and no other row changes
   * key, the new key's count absorbs the old key's, which drops to 0.
   */
  lemma {:induction false} CountKeyRekeyed(h: seq<SaleRecord>, h': seq<SaleRecord>, oldKey: CustomerKey, newKey: CustomerKey)
    requires |h'| == |h| && oldKey != newKey
    requires forall j :: 0 <= j < |h| ==> KeyOf(h'[j]) == (if KeyOf(h[j]) == oldKey then newKey else KeyOf(h[j]))
    ensures CountKey(h', newKey) == CountKey(h, newKey) + CountKey(h, oldKey)
    ensures CountKey(h', oldKey) == 0
    decreases |h|
  {
    if |h| > 0 {
      var n := |h| - 1;
      var p, p' := h[..n], h'[..n];
      CountKeyRekeyed(p, p', oldKey, newKey);
      var c, c' := if KeyOf(h[n]) == oldKey then 1 else 0, if KeyOf(h[n]) == newKey then 1 else 0;
      assert CountKey(h, oldKey) == CountKey(p, oldKey) + c;
      assert CountKey(h, newKey) == CountKey(p, newKey) + c';
      assert CountKey(h', oldKey) == CountKey(p', oldKey) + (if KeyOf(h'[n]) == oldKey then 1 else 0);
      assert CountKey(h', newKey) == CountKey(p', newKey) + (if KeyOf(h'[n]) == newKey then 1 else 0);
    }
  }

  /** The final totals of the rows that carry the key `k`, summed. */
  function SpentBy(h: seq<SaleRecord>, k: CustomerKey): (s: real)
    ensures (forall q :: 0 <= q < |h| ==> KeyOf(h[q]) != k) ==> s == 0.0
    decreases |h|
  {
    if |h| == 0 then 0.0
    else
      var n := |h| - 1;
      assert forall q :: 0 <= q < n ==> h[..n][q] == h[q];
      SpentBy(h[..n], k) + (if KeyOf(h[n]) == k then FinalTotalOf(h[n]) else 0.0)
  }

  datatype CustomerStats = CustomerStats(purchases: nat, spent: real)

  /**
   * The customer report's loop: the dictionary of per-customer purchase counts
   * and spending, with its keys in insertion order.
   */
  method CustomerReport(h: seq<SaleRecord>) returns (keys: seq<CustomerKey>, stats: map<CustomerKey, CustomerStats>)
    ensures keys == DistinctKeys(h)
    ensures forall k :: k in stats <==> k in keys
    ensures forall k :: k in stats ==> stats[k] == CustomerStats(CountKey(h, k), SpentBy(h, k))
  {
    keys, stats := [], map[];
    for i := 0 to |h|
      invariant keys == DistinctKeys(h[..i])
      invariant forall k :: k in stats <==> k in keys
      invariant forall k :: k in stats ==> stats[k] == CustomerStats(CountKey(h[..i], k), SpentBy(h[..i], k))
    {
      assert h[..i + 1][..i] == h[..i];
      var key := (h[i].customerName.GetOr(""), h[i].contactNumber.GetOr(""));
      if key !in stats {
        CountKeyZero(h[..i], key);
        stats := stats[key := CustomerStats(0, 0.0)];
        keys := keys + [key];
      }
      stats := stats[key := CustomerStats(stats[key].purchases + 1, stats[key].spent + h[i].finalTotal.GetOr(0.0))];
    }
    assert h[..|h|] == h;
  }

  /** The purchase counts of the keys in `ks`, summed. */
  function SumCounts(ks: seq<CustomerKey>, h: seq<SaleRecord>): int
    decreases |ks|
  {
    if |ks| == 0 then 0 else SumCounts(ks[..|ks| - 1], h) + CountKey(h, ks[|ks| - 1])
  }

  /** One more row adds one purchase to the counts of distinct keys exactly when its key is among them. */
  lemma {:induction false} SumCountsAfterAppend(ks: seq<CustomerKey>, h: seq<SaleRecord>, e: SaleRecord)
    requires forall i, j :: 0 <= i < j < |ks| ==> ks[i] != ks[j]
    ensures SumCounts(ks, h + [e]) == SumCounts(ks, h) + (if KeyOf(e) in ks then 1 else 0)
    decreases |ks|
  {
    if |ks| > 0 {
      var n := |ks| - 1;
      SumCountsAfterAppend(ks[..n], h, e);
      assert (h + [e])[..|h|] == h;
      assert KeyOf(e) in ks <==> KeyOf(e) in ks[..n] || KeyOf(e) == ks[n] by {
        assert ks == ks[..n] + [ks[n]];
      }
    }
  }

  /** In the customer report, the purchase counts of all customers add up to the number of ledger rows. */
  lemma {:induction false} PurchasesCoverLedger(h: seq<SaleRecord>)
    ensures SumCounts(DistinctKeys(h), h) == |h|
    decreases |h|
  {
    if |h| > 0 {
      var n := |h| - 1;
      var p, e := h[..n], h[n];
      assert h == p + [e];
      var ks := DistinctKeys(p);
      PurchasesCoverLedger(p);
      SumCountsAfterAppend(ks, p, e);
      if KeyOf(e) !in ks {
        assert (ks + [KeyOf(e)])[..|ks|] == ks;
        CountKeyZero(p, KeyOf(e));
      }
    }
  }

  /** The spending of the keys in `ks`, summed. */
  function SumSpent(ks: seq<CustomerKey>, h: seq<SaleRecord>): real
    decreases |ks|
  {
    if |ks| == 0 then 0.0 else SumSpent(ks[..|ks| - 1], h) + SpentBy(h, ks[|ks| - 1])
  }

  lemma {:induction false} SumSpentAfterAppend(ks: seq<CustomerKey>, h: seq<SaleRecord>, e: SaleRecord)
    requires forall i, j :: 0 <= i < j < |ks| ==> ks[i] != ks[j]
    ensures SumSpent(ks, h + [e]) == SumSpent(ks, h) + (if KeyOf(e) in ks then FinalTotalOf(e) else 0.0)
    decreases |ks|
  {
    if |ks| > 0 {
      var n := |ks| - 1;
      SumSpentAfterAppend(ks[..n], h, e);
      assert (h + [e])[..|h|] == h;
      assert KeyOf(e) in ks <==> KeyOf(e) in ks[..n] || KeyOf(e) == ks[n] by {
        assert ks == ks[..n] + [ks[n]];
      }
    }
  }

  /** In the customer report, the spending of all customers adds up to the ledger's revenue. */
  lemma {:induction false} SpendingCoversRevenue(h: seq<SaleRecord>)
    ensures SumSpent(DistinctKeys(h), h) == Sum(h, FinalTotalOf)
    decreases |h|
  {
    if |h| > 0 {
      var n := |h| - 1;
      var p, e := h[..n], h[n];
      var ks, k := DistinctKeys(p), KeyOf(e);
      SpendingCoversRevenue(p);
      assert Sum(h, FinalTotalOf) == Sum(p, FinalTotalOf) + FinalTotalOf(e);
      assert SumSpent(ks, h) == SumSpent(ks, p) + (if k in ks then FinalTotalOf(e) else 0.0) by {
        assert h == p + [e];
        SumSpentAfterAppend(ks, p, e);
      }
      if k !in ks {
        assert DistinctKeys(h) == ks + [k];
        assert SpentBy(h, k) == FinalTotalOf(e) by {
          assert SpentBy(p, k) == 0.0;
        }
        assert (ks + [k])[..|ks|] == ks;
      }
    }
  }

  /** The customer list only shows customers with both a name and a contact. */
  predicate IsComplete(k: CustomerKey) {
    k.0 != "" && k.1 != ""
  }

  /** The customer list: complete keys, each once, in order of first appearance. */
  function CustomerListOf(h: seq<SaleRecord>): (cs: seq<CustomerKey>)
    ensures forall i, j :: 0 <= i < j < |cs| ==> cs[i] != cs[j]
    ensures forall k :: k in cs <==> IsComplete(k) && exists q :: 0 <= q < |h| && KeyOf(h[q]) == k
    decreases |h|
  {
    if |h| == 0 then []
    else
      var n := |h| - 1;
      var cs := CustomerListOf(h[..n]);
      assert forall q :: 0 <= q < n ==> h[..n][q] == h[q];
      var k := KeyOf(h[n]);
      if IsComplete(k) && k !in cs then cs + [k] else cs
  }

  /** The customer list's loop (a dictionary used as an ordered set). */
  method CustomerList(h: seq<SaleRecord>) returns (cs: seq<CustomerKey>)
    ensures cs == CustomerListOf(h)
  {
    cs := [];
    var seen: set<CustomerKey> := {};
    for i := 0 to |h|
      invariant cs == CustomerListOf(h[..i])
      invariant forall k :: k in seen <==> k in cs
    {
      assert h[..i + 1][..i] == h[..i];
      var key := (h[i].customerName.GetOr(""), h[i].contactNumber.GetOr(""));
      if key.0 != "" && key.1 != "" {
        if key !in seen {
          cs := cs + [key];
        }
        seen := seen + {key};
      }
    }
    assert h[..|h|] == h;
  }

  /** Some row before position `q` carries the key `k`. */
  predicate SeenBefore(h: seq<SaleRecord>, q: int, k: CustomerKey) {
    exists p :: 0 <= p < q && p < |h| && KeyOf(h[p]) == k
  }

  /** Every row of a key listed later in `cs` is preceded by a row of each key listed earlier. */
  predicate InFirstAppearanceOrder(h: seq<SaleRecord>, cs: seq<CustomerKey>) {
    forall i, j, q :: 0 <= i < j < |cs| && 0 <= q < |h| && KeyOf(h[q]) == cs[j] ==> SeenBefore(h, q, cs[i])
  }

  /**
   * The customer list is in order of first appearance: every row of a customer
   * listed later is preceded by a row of each customer listed earlier.
   */
  lemma {:induction false} CustomerListFirstAppearance(h: seq<SaleRecord>)
    ensures InFirstAppearanceOrder(h, CustomerListOf(h))
    decreases |h|
  {
    if |h| > 0 {
      var n := |h| - 1;
      var pre := h[..n];
      CustomerListFirstAppearance(pre);
      var cs0 := CustomerListOf(pre);
      var cs := CustomerListOf(h);
      assert forall q :: 0 <= q < n ==> pre[q] == h[q];
      forall i, j, q | 0 <= i < j < |cs| && 0 <= q < |h| && KeyOf(h[q]) == cs[j]
        ensures SeenBefore(h, q, cs[i])
      {
        if j < |cs0| {
          assert cs[i] == cs0[i] && cs[j] == cs0[j];
          if q < n {
            assert KeyOf(pre[q]) == cs0[j];
            assert SeenBefore(pre, q, cs0[i]);
            var p :| 0 <= p < q && p < |pre| && KeyOf(pre[p]) == cs0[i];
            assert KeyOf(h[p]) == cs[i];
          } else {
            assert cs0[j] in cs0;
            var q0 :| 0 <= q0 < n && KeyOf(pre[q0]) == cs0[j];
            assert SeenBefore(pre, q0, cs0[i]);
            var p :| 0 <= p < q0 && p < |pre| && KeyOf(pre[p]) == cs0[i];
            assert KeyOf(h[p]) == cs[i];
          }
        } else {
          // cs[j] is the key of the last row, new to the list
          assert cs == cs0 + [KeyOf(h[n])] && j == |cs0|;
          assert q == n;
          assert cs0[i] in cs0;
          var p :| 0 <= p < n && KeyOf(pre[p]) == cs0[i];
          assert KeyOf(h[p]) == cs[i];
        }
      }
    }
  }

  /**
   * The customer report's keys are in order of first appearance: every row of a
   * customer listed later is preceded by a row of each customer listed earlier.
   */
  lemma {:induction false} DistinctKeysFirstAppearance(h: seq<SaleRecord>)
    ensures InFirstAppearanceOrder(h, DistinctKeys(h))
    decreases |h|
  {
    if |h| > 0 {
      var n := |h| - 1;
      var pre := h[..n];
      DistinctKeysFirstAppearance(pre);
      var ks0 := DistinctKeys(pre);
      var ks := DistinctKeys(h);
      assert forall q :: 0 <= q < n ==> pre[q] == h[q];
      forall i, j, q | 0 <= i < j < |ks| && 0 <= q < |h| && KeyOf(h[q]) == ks[j]
        ensures SeenBefore(h, q, ks[i])
      {
        if j < |ks0| {
          assert ks[i] == ks0[i] && ks[j] == ks0[j];
          if q < n {
            assert KeyOf(pre[q]) == ks0[j];
            assert SeenBefore(pre, q, ks0[i]);
            var p :| 0 <= p < q && p < |pre| && KeyOf(pre[p]) == ks0[i];
            assert KeyOf(h[p]) == ks[i];
          } else {
            assert ks0[j] in ks0;
            var q0 :| 0 <= q0 < n && KeyOf(pre[q0]) == ks0[j];
            assert SeenBefore(pre, q0, ks0[i]);
            var p :| 0 <= p < q0 && p < |pre| && KeyOf(pre[p]) == ks0[i];
            assert KeyOf(h[p]) == ks[i];
          }
        } else {
          // ks[j] is the key of the last row, new to the report
          assert ks == ks0 + [KeyOf(h[n])] && j == |ks0|;
          assert q == n;
          assert ks0[i] in ks0;
          var p :| 0 <= p < n && KeyOf(pre[p]) == ks0[i];
          assert KeyOf(h[p]) == ks[i];
        }
      }
    }
  }

  /** The keys that the customer list would show, in the order given. */
  function CompleteOnly(ks: seq<CustomerKey>): (r: seq<CustomerKey>)
    decreases |ks|
  {
    if |ks| == 0 then []
    else if IsComplete(ks[|ks| - 1]) then CompleteOnly(ks[..|ks| - 1]) + [ks[|ks| - 1]]
    else CompleteOnly(ks[..|ks| - 1])
  }

  lemma {:induction false} CompleteOnlyMembers(ks: seq<CustomerKey>)
    ensures forall k :: k in CompleteOnly(ks) <==> k in ks && IsComplete(k)
    decreases |ks|
  {
    if |ks| > 0 {
      CompleteOnlyMembers(ks[..|ks| - 1]);
      assert ks == ks[..|ks| - 1] + [ks[|ks| - 1]];
    }
  }

  /** The customer list is the customer report's key list without the incomplete keys. */
  lemma {:induction false} CustomerListIsCompleteReportKeys(h: seq<SaleRecord>)
    ensures CustomerListOf(h) == CompleteOnly(DistinctKeys(h))
    decreases |h|
  {
    if |h| > 0 {
      var n := |h| - 1;
      var pre := h[..n];
      CustomerListIsCompleteReportKeys(pre);
      var ks := DistinctKeys(pre);
      var k := KeyOf(h[n]);
      CompleteOnlyMembers(ks);
      if k !in ks {
        assert (ks + [k])[..|ks|] == ks;
      }
    }
  }

  /** The row stores exactly this contact (a missing contact matches none). */
  predicate HasContact(r: SaleRecord, contact: string) {
    r.contactNumber == Some(contact)
  }

  /**
   * The customer name of the most recent row with this contact, or "" when no
   * row has it (inventory_ui.py:183-189); a missing name reads as "".
   */
  function LatestCustomerName(h: seq<SaleRecord>, contact: string): (name: string)
    ensures (forall q :: 0 <= q < |h| ==> !HasContact(h[q], contact)) ==> name == ""
    ensures forall q :: 0 <= q < |h| && HasContact(h[q], contact)
                        && (forall q' :: q < q' < |h| ==> !HasContact(h[q'], contact))
                        ==> name == CustomerNameOf(h[q])
    decreases |h|
  {
    if |h| == 0 then ""
    else
      var n := |h| - 1;
      assert forall q :: 0 <= q < n ==> h[..n][q] == h[q];
      if HasContact(h[n], contact) then CustomerNameOf(h[n])
      else LatestCustomerName(h[..n], contact)
  }
}
