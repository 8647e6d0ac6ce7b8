/** The data model of one checkout: the request as the pipeline sees it once
    its four fields have been extracted, the line items, the errors the
    pipeline can raise and the order summary it returns.
 */
module OrderTypes {
  import opened Wrappers

  /** One line item. A field is `None` when its key is missing from the
      item's mapping. */
  datatype Item = Item(price: Option<int>, qty: Option<int>)

  /** The untyped `items` field: missing (or `None`), exactly a list, or
      some other value (a tuple, a set, a string, ...). */
  datatype ItemsShape = Absent | AList(items: seq<Item>) | OtherShape

  /** The four fields of a checkout request, `None` when absent. */
  datatype Request = Request(
    userId: Option<string>,
    items: ItemsShape,
    coupon: Option<string>,
    currency: Option<string>)

  /** Why a single line item was rejected, in the order it is checked. */
  datatype ItemFault = MissingPriceOrQty | NonPositivePrice | NonPositiveQty

  /** Every error the pipeline raises. The source raises a `ValueError` whose
      message names the case; each message is one kind here. */
  datatype ErrorKind =
    | MissingUserId
    | MissingItems
    | NotAList
    | EmptyItems
    | InvalidItem(fault: ItemFault)
    | UnknownCoupon

  /** The order summary returned on success. */
  datatype Summary = Summary(
    orderId: string,
    userId: string,
    currency: string,
    subtotal: int,
    discount: int,
    tax: int,
    total: int,
    itemsCount: nat)

  /** Both keys of an item are present (the subtotal reads both). */
  predicate HasPriceAndQty(item: Item) {
    item.price.Some? && item.qty.Some?
  }

  /** An item the validator accepts: both keys present, both positive. */
  predicate ValidItem(item: Item) {
    HasPriceAndQty(item) && item.price.value > 0 && item.qty.value > 0
  }

  predicate AllValid(items: seq<Item>) {
    forall i :: 0 <= i < |items| ==> ValidItem(items[i])
  }
}
