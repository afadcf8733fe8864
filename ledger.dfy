/**
 * The sale-history ledger: one row of the `sell_history` table per completed
 * sale, in insertion order. Every column is optional because rows written by
 * older versions may lack a value; the reports read a missing money or
 * quantity field as 0 and a missing text field as "".
 */
module Ledger {
  import opened Common

  datatype SaleRecord = SaleRecord(
    itemName: Option<string>,
    quantitySold: Option<int>,
    price: Option<real>,
    totalSale: Option<real>,
    discount: Option<real>,          // a legacy column the sale path never writes
    discountPercent: Option<real>,
    discountPrice: Option<real>,     // the discount as an amount of money
    finalTotal: Option<real>,
    timestamp: Option<string>,
    customerName: Option<string>,
    contactNumber: Option<string>,
    costPrice: Option<real>          // the item's cost price when it was sold
  )

  /** A customer as the reports key them: the pair (name, contact). */
  type CustomerKey = (string, string)

  function ItemNameOf(r: SaleRecord): string { r.itemName.GetOr("") }
  function QuantitySoldOf(r: SaleRecord): int { r.quantitySold.GetOr(0) }
  function TotalSaleOf(r: SaleRecord): real { r.totalSale.GetOr(0.0) }
  function DiscountPriceOf(r: SaleRecord): real { r.discountPrice.GetOr(0.0) }
  function FinalTotalOf(r: SaleRecord): real { r.finalTotal.GetOr(0.0) }
  function CustomerNameOf(r: SaleRecord): string { r.customerName.GetOr("") }
  function ContactOf(r: SaleRecord): string { r.contactNumber.GetOr("") }
  function KeyOf(r: SaleRecord): CustomerKey { (CustomerNameOf(r), ContactOf(r)) }

  /** A discount of `percent` percent on `total`. */
  function DiscountAmount(total: real, percent: real): real {
    (percent / 100.0) * total
  }

  /**
   * The pricing identities every sale row must satisfy: the total is quantity
   * times unit price, the discount amount is that percentage of the total, and
   * the final total is the total less the discount.
   */
  predicate Consistent(r: SaleRecord) {
    && r.quantitySold.Some? && r.price.Some? && r.discountPercent.Some?
    && r.totalSale == Some(LineTotal(r.quantitySold.value, r.price.value))
    && r.discountPrice == Some(DiscountAmount(r.totalSale.value, r.discountPercent.value))
    && r.finalTotal == Some(r.totalSale.value - r.discountPrice.value)
  }

  /** A consistent row's final total is its total less its discount, whatever the defaults. */
  lemma ConsistentTotals(r: SaleRecord)
    requires Consistent(r)
    ensures FinalTotalOf(r) == TotalSaleOf(r) - DiscountPriceOf(r)
  {
  }
}
