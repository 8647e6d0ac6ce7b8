/** The checkout pipeline: normalise the currency, validate, price, assemble
    the summary. Any error aborts the pipeline and no summary is produced. */
module Checkout {
  import opened Wrappers
  import opened OrderTypes
  import opened Validation
  import opened Pricing
  import opened OrderIds

  const DefaultCurrency: string := "USD"

  /** An absent currency becomes the default; any present value, even an
      empty or unusual one, passes through unchanged. */
  function NormalizeCurrency(currency: Option<string>): (r: string)
    ensures currency.None? ==> r == DefaultCurrency
    ensures currency.Some? ==> r == currency.value
  {
    if currency.None? then DefaultCurrency else currency.value
  }

  /** The requests the pipeline accepts: a user, a non-empty list of valid
      items and a recognised coupon. */
  predicate Accepted(req: Request) {
    && req.userId.Some?
    && req.items.AList?
    && |req.items.items| > 0
    && AllValid(req.items.items)
    && IsKnownCoupon(req.coupon)
  }

  /** The whole pipeline. Validation runs before any pricing, so its errors
      take precedence over an unknown coupon; on success every amount in the
      summary is tied to the request, and the total is never negative even
      when a fixed VIP discount exceeds the subtotal. */
  function ProcessCheckout(req: Request): (r: Result<Summary, ErrorKind>)
    ensures r.Ok? <==> Accepted(req)
    ensures ValidateRequest(req.userId, req.items).Fail? ==>
      r == Err(ValidateRequest(req.userId, req.items).error)
    ensures ValidateRequest(req.userId, req.items).Pass? && !IsKnownCoupon(req.coupon) ==>
      r == Err(UnknownCoupon)
    ensures r.Ok? ==>
      var s := r.value;
      && s.itemsCount == |req.items.items|
      && s.subtotal == Sum(req.items.items)
      && s.subtotal >= s.itemsCount > 0
      && Discount(s.subtotal, req.coupon) == Ok(s.discount)
      && s.total - s.tax >= 0
      && s.total - s.tax >= s.subtotal - s.discount
      && (s.total - s.tax == 0 || s.total - s.tax == s.subtotal - s.discount)
      && s.total - s.tax <= s.subtotal
      && s.tax == Tax(s.total - s.tax)
      && 0 <= s.tax <= s.total - s.tax
      && s.total >= 0
      && s.userId == req.userId.value
      && s.currency == NormalizeCurrency(req.currency)
      && s.orderId == OrderId(s.userId, s.itemsCount)
  {
    var currency := NormalizeCurrency(req.currency);
    match ValidateRequest(req.userId, req.items)
    case Fail(e) => Err(e)
    case Pass =>
      var items := req.items.items;
      var subtotal := Sum(items);
      match Discount(subtotal, req.coupon)
      case Err(e) => Err(e)
      case Ok(discount) =>
        var totalAfterDiscount := EnsureNonNegative(subtotal - discount);
        var tax := Tax(totalAfterDiscount);
        var total := totalAfterDiscount + tax;
        var orderId := OrderId(req.userId.value, |items|);
        Ok(Summary(
          orderId := orderId,
          userId := req.userId.value,
          currency := currency,
          subtotal := subtotal,
          discount := discount,
          tax := tax,
          total := total,
          itemsCount := |items|))
  }

  /** A request that fails validation fails with the same error whatever its
      coupon and currency: the coupon is never looked at. */
  lemma ValidationErrorPrecedesCoupon(req: Request, coupon: Option<string>, currency: Option<string>)
    requires ValidateRequest(req.userId, req.items).Fail?
    ensures ProcessCheckout(req) == ProcessCheckout(req.(coupon := coupon, currency := currency))
    ensures ProcessCheckout(req).Err? && ProcessCheckout(req).error != UnknownCoupon
  {
  }

  /** A discount only ever lowers the bill: the total never exceeds the
      undiscounted subtotal plus its tax. */
  lemma TotalAtMostUndiscounted(req: Request)
    requires ProcessCheckout(req).Ok?
    ensures ProcessCheckout(req).value.total
      <= ProcessCheckout(req).value.subtotal + Tax(ProcessCheckout(req).value.subtotal)
  {
    var s := ProcessCheckout(req).value;
    PercentOfMonotone(s.total - s.tax, s.subtotal, TaxPercent);
  }

  /** Two accepted requests share an order id exactly when they share the
      user and the number of items: the id is deterministic, and the pair
      can be read back from it. */
  lemma OrderIdMatchesUserAndCount(r1: Request, r2: Request)
    requires ProcessCheckout(r1).Ok? && ProcessCheckout(r2).Ok?
    ensures ProcessCheckout(r1).value.orderId == ProcessCheckout(r2).value.orderId
      <==> r1.userId == r2.userId && |r1.items.items| == |r2.items.items|
  {
    var s1 := ProcessCheckout(r1).value;
    var s2 := ProcessCheckout(r2).value;
    if s1.orderId == s2.orderId {
      OrderIdInjective(s1.userId, s1.itemsCount, s2.userId, s2.itemsCount);
    }
  }

  /** The summary's order id decodes to the summary's own user and count. */
  lemma SummaryOrderIdDecodes(req: Request)
    requires ProcessCheckout(req).Ok?
    ensures ParseOrderId(ProcessCheckout(req).value.orderId)
      == Some((ProcessCheckout(req).value.userId, ProcessCheckout(req).value.itemsCount))
  {
    var s := ProcessCheckout(req).value;
    OrderIdRoundTrip(s.userId, s.itemsCount);
  }
}
