/** Worked checkouts: concrete requests and the summaries or errors the
    pipeline gives for them. */
module Scenarios {
  import opened Wrappers
  import opened OrderTypes
  import opened Checkout

  function OneItem(price: int, qty: int, coupon: Option<string>): (req: Request) {
    Request(Some("u1"), AList([Item(Some(price), Some(qty))]), coupon, None)
  }

  /** The pieces of a one-item checkout, unfolded once. */
  lemma OneItemUnfolds(price: int, qty: int, coupon: Option<string>)
    requires price > 0 && qty > 0
    ensures Pricing.Sum(OneItem(price, qty, coupon).items.items) == price * qty
    ensures OrderIds.OrderId("u1", 1) == "u1-1-X"
  {
  }

  /** No coupon: 100 plus 21 tax. */
  lemma NoCouponScenario()
    ensures ProcessCheckout(OneItem(100, 1, None))
      == Ok(Summary("u1-1-X", "u1", "USD", 100, 0, 21, 121, 1))
  {
    OneItemUnfolds(100, 1, None);
  }

  /** SAVE10 on 200: 20 off, 37 tax on 180. */
  lemma Save10Scenario()
    ensures ProcessCheckout(OneItem(100, 2, Some("SAVE10")))
      == Ok(Summary("u1-1-X", "u1", "USD", 200, 20, 37, 217, 1))
  {
    OneItemUnfolds(100, 2, Some("SAVE10"));
  }

  /** SAVE20 on exactly 200 takes the 20% branch. */
  lemma Save20ThresholdScenario()
    ensures ProcessCheckout(OneItem(50, 4, Some("SAVE20")))
      == Ok(Summary("u1-1-X", "u1", "USD", 200, 40, 33, 193, 1))
  {
    OneItemUnfolds(50, 4, Some("SAVE20"));
  }

  /** Crossing the SAVE20 threshold lowers the bill: 199 totals 229, 200
      totals 193. */
  lemma Save20ThresholdLowersTotal()
    ensures ProcessCheckout(OneItem(199, 1, Some("SAVE20"))).value.total == 229
    ensures ProcessCheckout(OneItem(200, 1, Some("SAVE20"))).value.total == 193
  {
    OneItemUnfolds(199, 1, Some("SAVE20"));
    OneItemUnfolds(200, 1, Some("SAVE20"));
  }

  /** VIP on 10 takes the fixed 10: everything is discounted and the total
      is zero, not negative. */
  lemma VipScenario()
    ensures ProcessCheckout(OneItem(10, 1, Some("VIP")))
      == Ok(Summary("u1-1-X", "u1", "USD", 10, 10, 0, 0, 1))
  {
    OneItemUnfolds(10, 1, Some("VIP"));
  }

  /** VIP on 5: the fixed 10 exceeds the subtotal, and the total is clamped
      to zero. */
  lemma VipExceedsSubtotalScenario()
    ensures ProcessCheckout(OneItem(5, 1, Some("VIP"))).value.discount == 10
    ensures ProcessCheckout(OneItem(5, 1, Some("VIP"))).value.total == 0
  {
    OneItemUnfolds(5, 1, Some("VIP"));
  }

  /** An empty list is rejected before any pricing, even with a bogus
      coupon. */
  lemma EmptyItemsScenario()
    ensures ProcessCheckout(Request(Some("u1"), AList([]), Some("BOGUS"), None))
      == Err(EmptyItems)
  {
  }

  /** An unrecognised coupon on a valid request is rejected. */
  lemma UnknownCouponScenario()
    ensures ProcessCheckout(OneItem(5, 1, Some("BOGUS"))) == Err(UnknownCoupon)
  {
  }

  /** The first bad item decides the error: its missing key is reported
      before its zero qty, and later bad items are never reached. */
  lemma FirstBadItemScenario()
    ensures ProcessCheckout(Request(Some("u1"),
      AList([Item(Some(1), Some(1)), Item(None, Some(0)), Item(Some(0), Some(1))]),
      Some("BOGUS"), None)) == Err(InvalidItem(MissingPriceOrQty))
  {
  }
}
