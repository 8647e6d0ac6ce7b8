# Checkout pricing pipeline, modelled in Dafny

This project models the checkout pipeline of `after/order_processing.py`. The
pipeline takes a request with a user, a list of line items, an optional
coupon and an optional currency. It runs these steps in a fixed order:

1. It defaults the currency to `USD`.
2. It validates the request and every item, stopping at the first failure.
3. It sums `price * qty` into a subtotal.
4. It applies the coupon policy table.
5. It clamps the discounted amount at zero and adds a truncated 21% tax.
6. It returns a summary with a deterministic order id `"{user}-{count}-X"`.

Modules (one per component of the pipeline):

- `Wrappers` (`wrappers.dfy`): `Option`, `Result` and `Outcome`.
- `OrderTypes` (`order_types.dfy`): the data model.
  - `Item` has an optional price and qty. `None` means the key is missing.
  - `ItemsShape` is `Absent | AList(items) | OtherShape`.
  - Also `Request`, `Summary` and `ErrorKind`. The source raises a `ValueError` with a distinct message for each error; each message is one `ErrorKind` here.
- `Validation` (`validation.dfy`): `validate_request` and `validate_items`.
- `Pricing` (`pricing.dfy`): subtotal, discount, clamp and tax.
- `OrderIds` (`order_ids.dfy`): the order id and a decoder for it.
- `Checkout` (`checkout.dfy`): `normalize_currency` and `process_checkout`.
- `Scenarios` (`scenarios.dfy`): worked checkouts with concrete numbers.

Every rate is an exact whole percentage. Every product is truncated with
integer division. All operands are non-negative there, so this matches
Python's `int()` truncation toward zero.

Errors are values of type `Result`/`Outcome`, not exceptions. An error
aborts the pipeline, and no summary exists on any error path.

## Model

| member | source | states |
|---|---|---|
| Validation.CheckItem | after/order_processing.py:76-81 | An item passes exactly when both keys are present and price and qty are positive. A missing key is reported before a non-positive price, which is reported before a non-positive qty. |
| Validation.ValidateItems | after/order_processing.py:74-81 | The scan passes exactly when every item is valid. On failure, the error is the one the first invalid item raises, and every earlier item is valid. |
| Validation.FirstFaultWins | after/order_processing.py:75-81 | For valid items, then a bad item, then anything, the scan reports the bad item's fault. Later items never change the error. |
| Validation.ValidateRequest | after/order_processing.py:60-71 | The request checks run in a fixed order: missing user_id, missing items, not a list, empty list, then the item scan. For a non-empty list the result is exactly the item scan's, so the error is the first invalid item's fault. The request passes exactly when there is a user and the items form a non-empty list of valid items. |
| Pricing.Sum | after/order_processing.py:84-88 | The subtotal is defined as the sum of `price*qty` over the items. For accepted items it is at least the number of items. |
| Pricing.SumAppend | after/order_processing.py:86-87 | Adding one more item to the running total adds exactly that item's `price*qty`. |
| Pricing.CalculateSubtotal | after/order_processing.py:84-88 | The left-to-right accumulating loop returns exactly the sum. The result is positive for a non-empty list of accepted items. |
| Pricing.PercentOf | after/order_processing.py:96-101 | `int(amount * rate)` for a whole-percent rate and a non-negative amount gives the largest `r` with `100*r <= amount*percent`. The result is non-negative, and at most the amount when the rate is at most 100%. |
| Pricing.Discount | after/order_processing.py:91-108 | The coupon table is exhaustive. Absent or empty gives 0. SAVE10 gives floor 10%. SAVE20 gives floor 20% at 200 and above, floor 5% below. VIP gives 50 at 100 and above, 10 below. Any other code gives UnknownCoupon, and only such codes give an error. The discount is never negative. It exceeds the subtotal exactly for VIP on a subtotal below 10. |
| Pricing.EnsureNonNegative | after/order_processing.py:111-114 | The result is the least value that is both non-negative and at least the input, i.e. `max(0, value)`. A non-negative input is returned unchanged. |
| Pricing.Tax | after/order_processing.py:117-118 | The tax is floor 21% of a non-negative amount, so `0 <= tax <= amount`. |
| Pricing.PercentOfMonotone | after/order_processing.py:96-118 | A truncated percentage never decreases as the amount grows. |
| Pricing.DiscountMonotone | after/order_processing.py:91-108 | For every known coupon, a larger subtotal never earns a smaller discount. This includes the jumps at the SAVE20 and VIP thresholds. |
| Pricing.Save20Boundary | after/order_processing.py:98-101 | A subtotal of exactly 200 with SAVE20 takes the 20% branch (40). A subtotal of 199 takes the 5% branch (9). |
| Pricing.VipBoundary | after/order_processing.py:103-106 | A subtotal of exactly 100 with VIP takes the fixed 50. A subtotal of 99 takes the fixed 10. |
| OrderIds.NatToString | after/order_processing.py:122 | The decimal rendering of the item count is non-empty, holds only digits and has no leading zero except for the count 0 itself. |
| OrderIds.ParseNatToString | after/order_processing.py:122 | Reading back the rendered count gives the count. |
| OrderIds.OrderId | after/order_processing.py:121-122 | The id starts with the user id followed by `-`, and ends with `-X`. |
| OrderIds.ParseOrderId | after/order_processing.py:121-122 | Whatever the decoder returns renders back to the exact id it was given. |
| OrderIds.OrderIdRoundTrip | after/order_processing.py:121-122 | Decoding an id recovers the user and the count, even when the user id itself contains `-`. |
| OrderIds.OrderIdInjective | after/order_processing.py:121-122 | Distinct (user, count) pairs never produce the same id. |
| Checkout.NormalizeCurrency | after/order_processing.py:54-57 | An absent currency becomes `USD`. A present value passes through unchanged, with no format check. |
| Checkout.ProcessCheckout | after/order_processing.py:27-51 | Success happens exactly for a user, a non-empty list of valid items and a known coupon. A validation error is returned as is, ahead of UnknownCoupon. On success: `items_count` is the list length, the subtotal is the sum, and the discount follows the table. `total - tax` is `max(0, subtotal - discount)` and is at most the subtotal. The tax is the truncated 21% of it, and `total >= 0`. The user is echoed, the currency is normalised, and the order id is `user-count-X`. |
| Checkout.ValidationErrorPrecedesCoupon | after/order_processing.py:28-34 | When validation fails, changing the coupon or currency does not change the outcome, and the error is never UnknownCoupon. |
| Checkout.TotalAtMostUndiscounted | after/order_processing.py:33-38 | The total never exceeds the undiscounted subtotal plus its tax. |
| Checkout.OrderIdMatchesUserAndCount | after/order_processing.py:40-50 | Two successful checkouts share an order id exactly when they share the user and the item count. |
| Checkout.SummaryOrderIdDecodes | after/order_processing.py:40-50 | A summary's order id decodes to that summary's own user and item count. |
| Scenarios.NoCouponScenario | after/order_processing.py:27-51 | One item of 100 with no coupon gives subtotal 100, discount 0, tax 21, total 121 and id `u1-1-X`. |
| Scenarios.Save10Scenario | after/order_processing.py:95-96 | SAVE10 on 200 gives discount 20, tax 37, total 217. |
| Scenarios.Save20ThresholdScenario | after/order_processing.py:98-100 | SAVE20 on exactly 200 gives discount 40, tax 33, total 193. |
| Scenarios.Save20ThresholdLowersTotal | after/order_processing.py:98-101 | With SAVE20, a subtotal of 199 totals 229 but a subtotal of 200 totals 193. Crossing the threshold lowers the bill. |
| Scenarios.VipScenario | after/order_processing.py:103-106 | VIP on 10 discounts everything: tax 0, total 0. |
| Scenarios.VipExceedsSubtotalScenario | after/order_processing.py:36 | VIP on 5 discounts 10, and the total is clamped to 0, not negative. |
| Scenarios.EmptyItemsScenario | after/order_processing.py:68-69 | An empty list fails with EmptyItems, even with an unknown coupon. |
| Scenarios.UnknownCouponScenario | after/order_processing.py:108 | A valid request with coupon `BOGUS` fails with UnknownCoupon. |
| Scenarios.FirstBadItemScenario | after/order_processing.py:75-77 | The first bad item decides the error, and its missing key is reported before its zero qty. Later bad items and an unknown coupon are never reached. |

## Left out

- `parse_request` (lines 19-24) only looks up four keys in a dict. `Request` is the record of those four fields, with `None` for a missing key or an explicit `None` value.
- `build_response` (lines 125-145) only builds a dict from fields that are already computed. It is the `Summary` constructor in `ProcessCheckout`.
- Floating-point arithmetic: the rates 0.10, 0.20, 0.05 and 0.21 are binary floats in the source. The model uses exact rationals. The float product may truncate to a different whole number for some inputs, for example amounts beyond 2^53, where the gap can exceed one and grows with the amount. Python converts the integer operand to a float before multiplying, so an amount of 2^1024 or more makes the source raise `OverflowError`; since the tax is computed on every accepted request, such a request fails in the source while the model returns a summary. The model does not reproduce this overflow.
- Pricing.Discount and Pricing.Tax require a non-negative argument. Negative arguments cannot arise after validation. Python's `int()` truncates toward zero for them, which the model does not reproduce.
- Pricing.Sum requires both keys on every item. The source would raise `KeyError` without them, and validation always runs first.
- Python's dynamic typing is not modelled:
  - The user id is a string, not an arbitrary object formatted with `str()`.
  - Prices and quantities are integers, not floats or bools.
  - Every item is a mapping with two optional keys. A non-dict item, or a `None` price that would raise `TypeError` in a comparison, is not modelled.
  - A coupon is an optional string. A non-string coupon would be an unknown coupon in the source.
- The source raises `ValueError` with a message rather than a typed error kind. `ErrorKind` names each message, and `InvalidItem` carries which of the three item messages applies.
