/** The pricing engine: subtotal, the coupon policy table, the clamp at zero
    and the tax.

    The source multiplies by binary floating-point rates (0.10, 0.20, 0.05,
    0.21) and truncates the product with `int()`. Here every rate is an exact
    whole percentage and the product is truncated by integer division. All
    operands are non-negative, so truncation toward zero (Python's `int()`)
    and Dafny's Euclidean `/` agree. Float rounding in the source may make
    its result differ from the exact one for some inputs; once amounts pass
    2^53, which a float cannot hold exactly, the gap can exceed one and
    grows with the amount. An amount of 2^1024 or more makes the source's int-to-float conversion
    raise `OverflowError`, which this model does not reproduce.
 */
module Pricing {
  import opened Wrappers
  import opened OrderTypes

  const Save10Percent: nat := 10
  const Save20HighPercent: nat := 20
  const Save20LowPercent: nat := 5
  const Save20MinSubtotal: int := 200
  const VipHighDiscount: int := 50
  const VipLowDiscount: int := 10
  const VipMinSubtotal: int := 100
  const TaxPercent: nat := 21

  /** `price * qty` of an item whose two keys are present. */
  function LineTotal(item: Item): (r: int)
    requires HasPriceAndQty(item)
  {
    item.price.value * item.qty.value
  }

  /** The sum of `price * qty` over the items: the reference definition of
      the subtotal. Every accepted item contributes at least one. */
  function Sum(items: seq<Item>): (r: int)
    requires forall i :: 0 <= i < |items| ==> HasPriceAndQty(items[i])
    ensures AllValid(items) ==> r >= |items|
  {
    if |items| == 0 then 0
    else
      assert AllValid(items) ==> ValidItem(items[0]) && AllValid(items[1..]) by {
        if AllValid(items) {
          forall i | 0 <= i < |items[1..]| ensures ValidItem(items[1..][i]) {
            assert items[1..][i] == items[i + 1];
          }
        }
      }
      LineTotal(items[0]) + Sum(items[1..])
  }

  /** Appending one item adds its line total to the sum. */
  lemma {:induction false} SumAppend(items: seq<Item>, item: Item)
    requires forall i :: 0 <= i < |items| ==> HasPriceAndQty(items[i])
    requires HasPriceAndQty(item)
    ensures forall i :: 0 <= i < |items + [item]| ==> HasPriceAndQty((items + [item])[i])
    ensures Sum(items + [item]) == Sum(items) + LineTotal(item)
  {
    if |items| == 0 {
      assert items + [item] == [item];
    } else {
      assert (items + [item])[1..] == items[1..] + [item];
      SumAppend(items[1..], item);
    }
  }

  /** The subtotal as the source computes it: a running total over the items
      in list order. It equals the sum, and is positive for an accepted,
      non-empty list. */
  method CalculateSubtotal(items: seq<Item>) returns (subtotal: int)
    requires forall i :: 0 <= i < |items| ==> HasPriceAndQty(items[i])
    ensures subtotal == Sum(items)
    ensures AllValid(items) && |items| > 0 ==> subtotal > 0
  {
    subtotal := 0;
    var i := 0;
    while i < |items|
      invariant 0 <= i <= |items|
      invariant subtotal == Sum(items[..i])
    {
      SumAppend(items[..i], items[i]);
      assert items[..i + 1] == items[..i] + [items[i]];
      subtotal := subtotal + items[i].price.value * items[i].qty.value;
      i := i + 1;
    }
    assert items[..|items|] == items;
  }

  /** `percent`% of a non-negative amount, truncated: the largest whole
      number whose hundredfold does not exceed `amount * percent`. */
  function PercentOf(amount: int, percent: nat): (r: int)
    requires amount >= 0
    ensures r * 100 <= amount * percent < (r + 1) * 100
    ensures 0 <= r
    ensures percent <= 100 ==> r <= amount
  {
    amount * percent / 100
  }

  /** The coupon codes the policy table recognises (absent counts as one). */
  predicate IsKnownCoupon(coupon: Option<string>) {
    coupon.None? || coupon.value in ["", "SAVE10", "SAVE20", "VIP"]
  }

  /** The coupon policy table. Absent or empty gives nothing; SAVE10 gives
      10%; SAVE20 gives 20% from a subtotal of 200 up and 5% below; VIP gives
      a fixed 50 from a subtotal of 100 up and 10 below; any other code is
      an error. Only a VIP coupon on a subtotal below 10 can exceed the
      subtotal. */
  function Discount(subtotal: int, coupon: Option<string>): (r: Result<int, ErrorKind>)
    requires subtotal >= 0
    ensures r.Err? <==> !IsKnownCoupon(coupon)
    ensures r.Err? ==> r.error == UnknownCoupon
    ensures coupon.None? || coupon == Some("") ==> r == Ok(0)
    ensures coupon == Some("SAVE10") ==>
      r.Ok? && r.value * 100 <= subtotal * 10 < (r.value + 1) * 100
    ensures coupon == Some("SAVE20") && subtotal >= 200 ==>
      r.Ok? && r.value * 100 <= subtotal * 20 < (r.value + 1) * 100
    ensures coupon == Some("SAVE20") && subtotal < 200 ==>
      r.Ok? && r.value * 100 <= subtotal * 5 < (r.value + 1) * 100
    ensures coupon == Some("VIP") && subtotal >= 100 ==> r == Ok(50)
    ensures coupon == Some("VIP") && subtotal < 100 ==> r == Ok(10)
    ensures r.Ok? ==> 0 <= r.value
    ensures r.Ok? ==> (r.value > subtotal <==> coupon == Some("VIP") && subtotal < 10)
  {
    if coupon.None? || coupon.value == "" then Ok(0)
    else if coupon.value == "SAVE10" then Ok(PercentOf(subtotal, Save10Percent))
    else if coupon.value == "SAVE20" then
      if subtotal >= Save20MinSubtotal then Ok(PercentOf(subtotal, Save20HighPercent))
      else Ok(PercentOf(subtotal, Save20LowPercent))
    else if coupon.value == "VIP" then
      if subtotal < VipMinSubtotal then Ok(VipLowDiscount) else Ok(VipHighDiscount)
    else Err(UnknownCoupon)
  }

  /** Clamps at zero: the smallest value that is both non-negative and at
      least the input, so a non-negative input comes back unchanged. */
  function EnsureNonNegative(value: int): (r: int)
    ensures r >= 0 && r >= value
    ensures r == value || r == 0
    ensures value >= 0 ==> r == value
  {
    if value < 0 then 0 else value
  }

  /** 21% of a non-negative amount, truncated; never more than the amount. */
  function Tax(amount: int): (r: int)
    requires amount >= 0
    ensures 0 <= r <= amount
    ensures r * 100 <= amount * 21 < (r + 1) * 100
  {
    PercentOf(amount, TaxPercent)
  }

  /** A truncated percentage never decreases as the amount grows. */
  lemma PercentOfMonotone(a: int, b: int, percent: nat)
    requires 0 <= a <= b
    ensures PercentOf(a, percent) <= PercentOf(b, percent)
  {
    assert (b - a) * percent >= 0;
    assert a * percent <= b * percent;
  }

  /** For every recognised coupon, a larger subtotal never earns a smaller
      discount, including across the SAVE20 and VIP thresholds. */
  lemma DiscountMonotone(s1: int, s2: int, coupon: Option<string>)
    requires 0 <= s1 <= s2
    requires IsKnownCoupon(coupon)
    ensures Discount(s1, coupon).value <= Discount(s2, coupon).value
  {
    if coupon == Some("SAVE10") {
      PercentOfMonotone(s1, s2, Save10Percent);
    } else if coupon == Some("SAVE20") {
      if s1 >= Save20MinSubtotal || s2 < Save20MinSubtotal {
        PercentOfMonotone(s1, s2, Save20HighPercent);
        PercentOfMonotone(s1, s2, Save20LowPercent);
      } else {
        PercentOfMonotone(s1, Save20MinSubtotal - 1, Save20LowPercent);
        PercentOfMonotone(Save20MinSubtotal, s2, Save20HighPercent);
      }
    }
  }

  /** The SAVE20 threshold is inclusive: exactly 200 earns 20%, one less
      earns 5%. */
  lemma Save20Boundary()
    ensures Discount(200, Some("SAVE20")) == Ok(40)
    ensures Discount(199, Some("SAVE20")) == Ok(9)
  {
  }

  /** The VIP threshold is inclusive: exactly 100 earns the fixed 50, one
      less earns the fixed 10. */
  lemma VipBoundary()
    ensures Discount(100, Some("VIP")) == Ok(50)
    ensures Discount(99, Some("VIP")) == Ok(10)
  {
  }
}
