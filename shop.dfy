/**
 * The sale transaction and the customer-identity correction of the GUI
 * (`InventoryApp.sell_item`'s submit, inventory_ui.py:509-572, and
 * `customer_list`'s save_edit, inventory_ui.py:921-946), together with the
 * add-user submit (inventory_ui.py:762-773).
 *
 * Each operation has a pure step function that says what it does to the stock
 * list, the ledger and the user list, and a method of `InventoryApp` that does
 * it in place and is proved to agree with the step function.
 */
module Shop {
  import opened Common
  import opened Sums
  import opened Validation
  import opened Ledger
  import opened Stock
  import opened Users
  import opened Reports
  import opened Customers

  /** The sale dialog's fields, already parsed, and the clock reading. */
  datatype SaleRequest = SaleRequest(
    itemName: string, quantity: int, price: real, discountPercent: real,
    customerName: string, contact: string, timestamp: string)

  datatype SaleOutcome =
    | Sold(record: SaleRecord)
    | IdentityRejected(error: IdentityError)
    | ItemNotFound
    | NonPositiveQuantity
    | InsufficientStock
    | DiscountOutOfRange

  /** What a sale attempt returns and the stock list and ledger it leaves behind. */
  datatype SaleResult = SaleResult(outcome: SaleOutcome, inventory: seq<Item>, history: seq<SaleRecord>)

  predicate DiscountInRange(pct: real) {
    0.0 <= pct <= 100.0
  }

  /**
   * Every check that precedes the stock update passes: a valid identity, an
   * item with the requested name, and a quantity in 1..stock of the first such
   * item.
   */
  predicate SaleAdmissible(inv: seq<Item>, req: SaleRequest) {
    && ValidCustomerName(req.customerName) && ValidContact(req.contact)
    && var i := FirstIndexByName(inv, req.itemName);
       i < |inv| && 0 < req.quantity <= inv[i].quantity
  }

  /** The ledger row written for a sale of `item` (inventory_ui.py:556-567). */
  function NewSaleRecord(item: Item, req: SaleRequest): (r: SaleRecord)
    ensures Consistent(r)
  {
    var totalSale := LineTotal(req.quantity, req.price);
    var discount := DiscountAmount(totalSale, req.discountPercent);
    SaleRecord(
      itemName := Some(item.name), quantitySold := Some(req.quantity), price := Some(req.price),
      totalSale := Some(totalSale), discount := None, discountPercent := Some(req.discountPercent),
      discountPrice := Some(discount), finalTotal := Some(totalSale - discount),
      timestamp := Some(req.timestamp), customerName := Some(req.customerName),
      contactNumber := Some(req.contact), costPrice := Some(item.costPrice))
  }

  /** `rec` records the sale `req` of `item`: its inputs, the item's cost price then, and consistent pricing. */
  predicate RecordsSale(rec: SaleRecord, item: Item, req: SaleRequest) {
    && rec.itemName == Some(item.name) && rec.quantitySold == Some(req.quantity)
    && rec.price == Some(req.price) && rec.discountPercent == Some(req.discountPercent)
    && rec.timestamp == Some(req.timestamp)
    && rec.customerName == Some(req.customerName) && rec.contactNumber == Some(req.contact)
    && rec.costPrice == Some(item.costPrice)
    && Consistent(rec)
  }

  /**
   * The sale as the source performs it. The discount is checked only AFTER the
   * stock decrement has been committed (inventory_ui.py:549-560), so a sale
   * rejected for its discount still removes the stock and records nothing.
   * See CheckedSaleStep for the intended order.
   */
  function SaleStep(inv: seq<Item>, hist: seq<SaleRecord>, req: SaleRequest): (r: SaleResult)
    ensures r.outcome.Sold? <==> SaleAdmissible(inv, req) && DiscountInRange(req.discountPercent)
    ensures r.outcome.IdentityRejected? <==> !(ValidCustomerName(req.customerName) && ValidContact(req.contact))
    ensures r.outcome.IdentityRejected? ==> CheckIdentity(req.customerName, req.contact) == Some(r.outcome.error)
    ensures r.outcome == ItemNotFound <==>
              ValidCustomerName(req.customerName) && ValidContact(req.contact)
              && forall j :: 0 <= j < |inv| ==> inv[j].name != req.itemName
    ensures r.outcome == DiscountOutOfRange <==> SaleAdmissible(inv, req) && !DiscountInRange(req.discountPercent)
    ensures SaleAdmissible(inv, req) ==>
              var i := FirstIndexByName(inv, req.itemName);
              r.inventory == Decremented(inv, i, req.quantity) && r.inventory[i].quantity >= 0
    ensures !SaleAdmissible(inv, req) ==> r.inventory == inv
    ensures r.outcome.Sold? ==>
              r.history == hist + [r.outcome.record]
              && RecordsSale(r.outcome.record, inv[FirstIndexByName(inv, req.itemName)], req)
    ensures !r.outcome.Sold? ==> r.history == hist
  {
    var idError := CheckIdentity(req.customerName, req.contact);
    if idError.Some? then SaleResult(IdentityRejected(idError.value), inv, hist)
    else
      var i := FirstIndexByName(inv, req.itemName);
      if i == |inv| then SaleResult(ItemNotFound, inv, hist)
      else if req.quantity <= 0 then SaleResult(NonPositiveQuantity, inv, hist)
      else if req.quantity > inv[i].quantity then SaleResult(InsufficientStock, inv, hist)
      else
        var inv' := Decremented(inv, i, req.quantity);
        if !DiscountInRange(req.discountPercent) then SaleResult(DiscountOutOfRange, inv', hist)
        else
          var rec := NewSaleRecord(inv'[i], req);
          SaleResult(Sold(rec), inv', hist + [rec])
  }

  /**
   * The checks before the stock update, each with the condition that triggers
   * it; a request rejected by any of them changes neither the stock list nor
   * the ledger.
   */
  lemma EarlyRejectionChangesNothing(inv: seq<Item>, hist: seq<SaleRecord>, req: SaleRequest)
    ensures var r := SaleStep(inv, hist, req);
      var i := FirstIndexByName(inv, req.itemName);
      var identityOk := ValidCustomerName(req.customerName) && ValidContact(req.contact);
      && (r.outcome == NonPositiveQuantity <==> identityOk && i < |inv| && req.quantity <= 0)
      && (r.outcome == InsufficientStock <==> identityOk && i < |inv| && 0 < req.quantity && inv[i].quantity < req.quantity)
      && (r.outcome.IdentityRejected? || r.outcome in {ItemNotFound, NonPositiveQuantity, InsufficientStock}
          <==> !SaleAdmissible(inv, req))
      && (!SaleAdmissible(inv, req) ==> r.inventory == inv && r.history == hist)
  {
  }

  /**
   * All or nothing, for a discount in [0, 100]: either the sale completes with
   * exactly one new ledger row, or neither the stock list nor the ledger changes.
   */
  lemma SaleAllOrNothing(inv: seq<Item>, hist: seq<SaleRecord>, req: SaleRequest)
    requires DiscountInRange(req.discountPercent)
    ensures var r := SaleStep(inv, hist, req);
      (r.outcome.Sold? && |r.history| == |hist| + 1) || (r.inventory == inv && r.history == hist)
  {
  }

  /** An out-of-range discount on an otherwise admissible sale loses stock without a ledger row. */
  lemma DiscountRejectionKeepsDecrement(inv: seq<Item>, hist: seq<SaleRecord>, req: SaleRequest)
    requires SaleAdmissible(inv, req) && !DiscountInRange(req.discountPercent)
    ensures var r := SaleStep(inv, hist, req);
      r.outcome == DiscountOutOfRange && r.history == hist
      && GrandTotal(r.inventory) == GrandTotal(inv) - LineTotal(req.quantity, inv[FirstIndexByName(inv, req.itemName)].price)
      && r.inventory != inv
  {
    var i := FirstIndexByName(inv, req.itemName);
    SaleLowersGrandTotal(inv, hist, req);
    assert SaleStep(inv, hist, req).inventory[i].quantity != inv[i].quantity;
  }

  /** A concrete instance: ten shirts in stock, three sold at a 150% discount. */
  lemma DiscountRejectionExample()
    ensures var inv := [Item(1, "Shirt", 10, 200.0, 120.0)];
      var req := SaleRequest("Shirt", 3, 200.0, 150.0, "Asha", "9876543210", "2025-01-01 10:00:00");
      SaleStep(inv, [], req) == SaleResult(DiscountOutOfRange, [Item(1, "Shirt", 7, 200.0, 120.0)], [])
  {
    var req := SaleRequest("Shirt", 3, 200.0, 150.0, "Asha", "9876543210", "2025-01-01 10:00:00");
    assert ValidCustomerName(req.customerName) by {
      assert forall i :: 0 <= i < 4 ==> IsNameChar(req.customerName[i]);
    }
    assert ValidContact(req.contact) by {
      assert forall i :: 0 <= i < 10 ==> IsDigit(req.contact[i]);
    }
  }

  /**
   * The sale with the discount checked before the stock is touched, so that a
   * rejected request changes nothing: every rejection leaves the stock list and
   * the ledger as they were.
   */
  function CheckedSaleStep(inv: seq<Item>, hist: seq<SaleRecord>, req: SaleRequest): (r: SaleResult)
    ensures !r.outcome.Sold? ==> r.inventory == inv && r.history == hist
    ensures r.outcome == SaleStep(inv, hist, req).outcome
    ensures DiscountInRange(req.discountPercent) ==> r == SaleStep(inv, hist, req)
  {
    var idError := CheckIdentity(req.customerName, req.contact);
    if idError.Some? then SaleResult(IdentityRejected(idError.value), inv, hist)
    else
      var i := FirstIndexByName(inv, req.itemName);
      if i == |inv| then SaleResult(ItemNotFound, inv, hist)
      else if req.quantity <= 0 then SaleResult(NonPositiveQuantity, inv, hist)
      else if req.quantity > inv[i].quantity then SaleResult(InsufficientStock, inv, hist)
      else if !DiscountInRange(req.discountPercent) then SaleResult(DiscountOutOfRange, inv, hist)
      else
        var inv' := Decremented(inv, i, req.quantity);
        var rec := NewSaleRecord(inv'[i], req);
        SaleResult(Sold(rec), inv', hist + [rec])
  }

  /** A completed sale adds its row's amounts to the summary report and one to the count. */
  lemma SaleUpdatesSummary(inv: seq<Item>, hist: seq<SaleRecord>, req: SaleRequest)
    requires SaleStep(inv, hist, req).outcome.Sold?
    ensures var rec := SaleStep(inv, hist, req).outcome.record;
      var total := LineTotal(req.quantity, req.price);
      var discount := DiscountAmount(total, req.discountPercent);
      SummaryOf(SaleStep(inv, hist, req).history) == Summary(
        SummaryOf(hist).totalSales + total,
        SummaryOf(hist).totalDiscount + discount,
        SummaryOf(hist).totalRevenue + (total - discount),
        |hist| + 1)
  {
    var r := SaleStep(inv, hist, req);
    SummaryAfterAppend(hist, r.outcome.record);
  }

  /**
   * Once the checks before the stock update pass, the stock list's grand total
   * drops by the units sold at the item's list price, whether or not the sale
   * then completes.
   */
  lemma SaleLowersGrandTotal(inv: seq<Item>, hist: seq<SaleRecord>, req: SaleRequest)
    requires SaleAdmissible(inv, req)
    ensures var i := FirstIndexByName(inv, req.itemName);
      i < |inv| && GrandTotal(SaleStep(inv, hist, req).inventory) == GrandTotal(inv) - LineTotal(req.quantity, inv[i].price)
  {
    var i := FirstIndexByName(inv, req.itemName);
    assert SaleStep(inv, hist, req).inventory == Decremented(inv, i, req.quantity);
    GrandTotalAfterDecrement(inv, i, req.quantity);
  }

  /** Sales keep every ledger row consistent when every row was consistent before. */
  lemma SaleKeepsLedgerConsistent(inv: seq<Item>, hist: seq<SaleRecord>, req: SaleRequest)
    requires forall j :: 0 <= j < |hist| ==> Consistent(hist[j])
    ensures var h := SaleStep(inv, hist, req).history;
      forall j :: 0 <= j < |h| ==> Consistent(h[j])
  {
    var r := SaleStep(inv, hist, req);
    if r.outcome.Sold? {
      assert forall j :: 0 <= j < |hist| ==> r.history[j] == hist[j];
    }
  }

  /** No sale makes a non-negative stock list negative. */
  lemma SaleKeepsStockNonNegative(inv: seq<Item>, hist: seq<SaleRecord>, req: SaleRequest)
    requires forall j :: 0 <= j < |inv| ==> inv[j].quantity >= 0
    ensures var s := SaleStep(inv, hist, req).inventory;
      forall j :: 0 <= j < |s| ==> s[j].quantity >= 0
  {
  }

  /** After a sale, the autofill for the sale's contact offers the sale's customer name. */
  lemma SaleFeedsAutofill(inv: seq<Item>, hist: seq<SaleRecord>, req: SaleRequest)
    requires SaleStep(inv, hist, req).outcome.Sold?
    ensures LatestCustomerName(SaleStep(inv, hist, req).history, req.contact) == req.customerName
  {
    var h := SaleStep(inv, hist, req).history;
    assert HasContact(h[|h| - 1], req.contact);
  }

  datatype CorrectionOutcome = CorrectionRejected(error: IdentityError) | Corrected(updated: bool)

  /** The row's stored customer is (name, contact); a missing field equals no string. */
  predicate HasIdentity(r: SaleRecord, name: string, contact: string) {
    r.customerName == Some(name) && r.contactNumber == Some(contact)
  }

  /** One row after the correction: rewritten when it belongs to the old customer, otherwise as it was. */
  function Relabel(r: SaleRecord, oldName: string, oldContact: string, newName: string, newContact: string)
    : (r': SaleRecord)
    ensures r'.(customerName := r.customerName, contactNumber := r.contactNumber) == r
    ensures HasIdentity(r, oldName, oldContact) ==> HasIdentity(r', newName, newContact)
    ensures !HasIdentity(r, oldName, oldContact) ==> r' == r
  {
    if HasIdentity(r, oldName, oldContact) then r.(customerName := Some(newName), contactNumber := Some(newContact))
    else r
  }

  function RelabelAll(h: seq<SaleRecord>, oldName: string, oldContact: string, newName: string, newContact: string)
    : (r: seq<SaleRecord>)
    ensures |r| == |h|
    ensures forall j :: 0 <= j < |h| ==> r[j] == Relabel(h[j], oldName, oldContact, newName, newContact)
  {
    seq(|h|, j requires 0 <= j < |h| => Relabel(h[j], oldName, oldContact, newName, newContact))
  }

  /**
   * The customer correction: the new identity must pass the sale's checks;
   * then every row of the old customer is rewritten in place, and `updated`
   * says whether any row was.
   */
  function CorrectionStep(h: seq<SaleRecord>, oldName: string, oldContact: string, newName: string, newContact: string)
    : (r: (CorrectionOutcome, seq<SaleRecord>))
    ensures r.0.CorrectionRejected? <==> !(ValidCustomerName(newName) && ValidContact(newContact))
    ensures r.0.CorrectionRejected? ==> CheckIdentity(newName, newContact) == Some(r.0.error)
    ensures r.0.CorrectionRejected? ==> r.1 == h
    ensures r.0.Corrected? ==> (r.0.updated <==> exists j :: 0 <= j < |h| && HasIdentity(h[j], oldName, oldContact))
    ensures r.0.Corrected? ==> r.1 == RelabelAll(h, oldName, oldContact, newName, newContact)
    ensures r.0 == Corrected(false) ==> r.1 == h
  {
    var idError := CheckIdentity(newName, newContact);
    if idError.Some? then (CorrectionRejected(idError.value), h)
    else
      var h' := RelabelAll(h, oldName, oldContact, newName, newContact);
      (Corrected(exists j :: 0 <= j < |h| && HasIdentity(h[j], oldName, oldContact)), h')
  }

  /** A correction changes no amount, so the summary report is the same before and after. */
  lemma CorrectionKeepsSummary(h: seq<SaleRecord>, oldName: string, oldContact: string, newName: string, newContact: string)
    ensures SummaryOf(CorrectionStep(h, oldName, oldContact, newName, newContact).1) == SummaryOf(h)
  {
    var h' := CorrectionStep(h, oldName, oldContact, newName, newContact).1;
    assert |h'| == |h|;
    SumPointwise(h', TotalSaleOf, h, TotalSaleOf);
    SumPointwise(h', DiscountPriceOf, h, DiscountPriceOf);
    SumPointwise(h', FinalTotalOf, h, FinalTotalOf);
  }

  /** For a complete old pair, relabelling moves a row from the old key to the new one and leaves other keys alone. */
  lemma RelabelKey(e: SaleRecord, oldName: string, oldContact: string, newName: string, newContact: string)
    requires IsComplete((oldName, oldContact))
    ensures KeyOf(Relabel(e, oldName, oldContact, newName, newContact))
         == if KeyOf(e) == (oldName, oldContact) then (newName, newContact) else KeyOf(e)
  {
  }

  /**
   * In the customer report, a correction of a listed customer (both parts
   * non-empty) to a different identity moves all of the old customer's
   * purchases to the new one and leaves the old one none.
   */
  lemma CorrectionMovesPurchases(h: seq<SaleRecord>, oldName: string, oldContact: string, newName: string, newContact: string)
    requires (oldName, oldContact) != (newName, newContact)
    requires IsComplete((oldName, oldContact))
    requires ValidCustomerName(newName) && ValidContact(newContact)
    ensures var h' := CorrectionStep(h, oldName, oldContact, newName, newContact).1;
      && CountKey(h', (newName, newContact)) == CountKey(h, (newName, newContact)) + CountKey(h, (oldName, oldContact))
      && CountKey(h', (oldName, oldContact)) == 0
  {
    var h' := CorrectionStep(h, oldName, oldContact, newName, newContact).1;
    forall j | 0 <= j < |h|
      ensures KeyOf(h'[j]) == if KeyOf(h[j]) == (oldName, oldContact) then (newName, newContact) else KeyOf(h[j])
    {
      RelabelKey(h[j], oldName, oldContact, newName, newContact);
    }
    CountKeyRekeyed(h, h', (oldName, oldContact), (newName, newContact));
  }

  /**
   * The application state the core works on: the stock list, the ledger (the
   * `sell_history` table) and the user list.
   */
  class InventoryApp {
    var inventory: seq<Item>
    var history: seq<SaleRecord>
    var users: seq<User>

    constructor (inventory: seq<Item>, history: seq<SaleRecord>, users: seq<User>)
      ensures this.inventory == inventory && this.history == history && this.users == users
    {
      this.inventory := inventory;
      this.history := history;
      this.users := users;
    }

    /** The sale dialog's submit, in the source's order of checks and updates. */
    method Sell(req: SaleRequest) returns (outcome: SaleOutcome)
      modifies this`inventory, this`history
      ensures SaleResult(outcome, inventory, history) == SaleStep(old(inventory), old(history), req)
    {
      if req.customerName == "" {
        return IdentityRejected(EmptyName);
      }
      if exists k :: 0 <= k < |req.customerName| && !IsNameChar(req.customerName[k]) {
        return IdentityRejected(NameNotAlphabetic);
      }
      if req.contact == "" {
        return IdentityRejected(EmptyContact);
      }
      if |req.contact| != 10 || exists k :: 0 <= k < |req.contact| && !IsDigit(req.contact[k]) {
        return IdentityRejected(ContactNotTenDigits);
      }
      var i := FindByName(inventory, req.itemName);
      if i == |inventory| {
        return ItemNotFound;
      }
      if req.quantity <= 0 {
        return NonPositiveQuantity;
      }
      if req.quantity > inventory[i].quantity {
        return InsufficientStock;
      }
      // The decrement is committed here, before the discount is looked at.
      inventory := inventory[i := inventory[i].(quantity := inventory[i].quantity - req.quantity)];
      var totalSale := LineTotal(req.quantity, req.price);
      if req.discountPercent < 0.0 || req.discountPercent > 100.0 {
        assert CheckIdentity(req.customerName, req.contact).None?;
        return DiscountOutOfRange;
      }
      var discount := DiscountAmount(totalSale, req.discountPercent);
      var finalTotal := totalSale - discount;
      var item := inventory[i];
      var rec := SaleRecord(
        itemName := Some(item.name), quantitySold := Some(req.quantity), price := Some(req.price),
        totalSale := Some(totalSale), discount := None, discountPercent := Some(req.discountPercent),
        discountPrice := Some(discount), finalTotal := Some(finalTotal),
        timestamp := Some(req.timestamp), customerName := Some(req.customerName),
        contactNumber := Some(req.contact), costPrice := Some(item.costPrice));
      assert CheckIdentity(req.customerName, req.contact).None?;
      history := history + [rec];
      outcome := Sold(rec);
    }

    /** The customer correction's save, rewriting matching rows one at a time. */
    method CorrectCustomer(oldName: string, oldContact: string, newName: string, newContact: string)
      returns (outcome: CorrectionOutcome)
      modifies this`history
      ensures (outcome, history) == CorrectionStep(old(history), oldName, oldContact, newName, newContact)
    {
      var idError := CheckIdentity(newName, newContact);
      if idError.Some? {
        return CorrectionRejected(idError.value);
      }
      var updated := false;
      var i := 0;
      while i < |history|
        invariant i <= |history| == |old(history)|
        invariant forall j :: 0 <= j < i ==> history[j] == Relabel(old(history)[j], oldName, oldContact, newName, newContact)
        invariant forall j :: i <= j < |history| ==> history[j] == old(history)[j]
        invariant updated <==> exists j :: 0 <= j < i && HasIdentity(old(history)[j], oldName, oldContact)
      {
        var entry := history[i];
        if entry.customerName == Some(oldName) && entry.contactNumber == Some(oldContact) {
          history := history[i := entry.(customerName := Some(newName), contactNumber := Some(newContact))];
          updated := true;
        }
        i := i + 1;
      }
      assert history == RelabelAll(old(history), oldName, oldContact, newName, newContact);
      outcome := Corrected(updated);
    }

    /** The add-user dialog's submit. */
    method AddUser(username: string, password: string, role: string) returns (outcome: AddUserOutcome)
      modifies this`users
      ensures (outcome, users) == AddUserStep(old(users), username, password, role)
    {
      if username == "" || password == "" {
        return MissingCredentials;
      }
      var existing := FindUserByUsername(users, username);
      if existing.Some? {
        return UsernameTaken;
      }
      var id := NextUserId(users);
      users := users + [User(id, username, password, role)];
      outcome := Added(id);
    }
  }
}
