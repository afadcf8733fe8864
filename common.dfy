/** Values shared by every part of the model. */
module Common {

  /** A field that a legacy ledger row may lack (a NULL column or a missing key). */
  datatype Option<T> = None | Some(value: T) {
    /** The stored value, or `default` when the field is absent. */
    function GetOr(default: T): T {
      match this
      case Some(v) => v
      case None => default
    }
  }

  /**
   * The value of `quantity` units at `price` each: a sale line's total and an
   * item's stock value are both this product.
   */
  function LineTotal(quantity: int, price: real): real {
    quantity as real * price
  }
}
