/** The validator: presence and shape checks on the request, then per-item
    checks, stopping at the first failure. */
module Validation {
  import opened Wrappers
  import opened OrderTypes

  /** The checks on one item, in order: both keys present, then a positive
      price, then a positive quantity. */
  function CheckItem(item: Item): (r: Outcome<ErrorKind>)
    ensures r.Pass? <==> ValidItem(item)
    ensures r.Fail? ==> r.error.InvalidItem?
    ensures r == Fail(InvalidItem(MissingPriceOrQty)) <==> !HasPriceAndQty(item)
    ensures r == Fail(InvalidItem(NonPositivePrice))
        <==> HasPriceAndQty(item) && item.price.value <= 0
    ensures r == Fail(InvalidItem(NonPositiveQty))
        <==> HasPriceAndQty(item) && item.price.value > 0 && item.qty.value <= 0
  {
    if item.price.None? || item.qty.None? then Fail(InvalidItem(MissingPriceOrQty))
    else if item.price.value <= 0 then Fail(InvalidItem(NonPositivePrice))
    else if item.qty.value <= 0 then Fail(InvalidItem(NonPositiveQty))
    else Pass
  }

  /** Scans the items left to right and reports the fault of the first item
      that fails its checks: every item before it passed. */
  function ValidateItems(items: seq<Item>): (r: Outcome<ErrorKind>)
    ensures r.Pass? <==> AllValid(items)
    ensures r.Fail? ==>
      exists i :: 0 <= i < |items| && AllValid(items[..i]) && CheckItem(items[i]) == r
  {
    if |items| == 0 then Pass
    else
      match CheckItem(items[0])
      case Fail(e) =>
        assert AllValid(items[..0]);
        Fail(e)
      case Pass =>
        var rest := ValidateItems(items[1..]);
        assert rest.Pass? ==> AllValid(items) by {
          if rest.Pass? {
            forall i | 0 <= i < |items| ensures ValidItem(items[i]) {
              if i > 0 { assert items[i] == items[1..][i - 1]; }
            }
          }
        }
        assert rest.Fail? ==>
          exists i :: 0 <= i < |items| && AllValid(items[..i]) && CheckItem(items[i]) == rest by {
          if rest.Fail? {
            var j :| 0 <= j < |items[1..]| && AllValid(items[1..][..j]) && CheckItem(items[1..][j]) == rest;
            assert items[1..][j] == items[j + 1];
            var before := items[..j + 1];
            forall k | 0 <= k < |before| ensures ValidItem(before[k]) {
              if k > 0 { assert before[k] == items[1..][..j][k - 1]; }
            }
          }
        }
        rest
  }

  /** The request-level checks in their fixed order; the per-item scan runs
      only once `items` is known to be a non-empty list. */
  function ValidateRequest(userId: Option<string>, items: ItemsShape): (r: Outcome<ErrorKind>)
    ensures userId.None? ==> r == Fail(MissingUserId)
    ensures userId.Some? && items.Absent? ==> r == Fail(MissingItems)
    ensures userId.Some? && items.OtherShape? ==> r == Fail(NotAList)
    ensures userId.Some? && items.AList? && |items.items| == 0 ==> r == Fail(EmptyItems)
    ensures userId.Some? && items.AList? && |items.items| > 0 ==> r == ValidateItems(items.items)
    ensures r.Pass? <==> userId.Some? && items.AList? && |items.items| > 0 && AllValid(items.items)
  {
    if userId.None? then Fail(MissingUserId)
    else if items.Absent? then Fail(MissingItems)
    else if !items.AList? then Fail(NotAList)
    else if |items.items| == 0 then Fail(EmptyItems)
    else ValidateItems(items.items)
  }

  /** A failing item scan reports the fault of the leftmost invalid item:
      whatever follows that item does not change the error. */
  lemma {:induction false} FirstFaultWins(prefix: seq<Item>, bad: Item, suffix: seq<Item>)
    requires AllValid(prefix)
    requires !ValidItem(bad)
    ensures ValidateItems(prefix + [bad] + suffix) == CheckItem(bad)
  {
    if |prefix| == 0 {
      assert (prefix + [bad] + suffix)[0] == bad;
    } else {
      var s := prefix + [bad] + suffix;
      assert s[0] == prefix[0];
      assert s[1..] == prefix[1..] + [bad] + suffix;
      assert AllValid(prefix[1..]) by {
        forall i | 0 <= i < |prefix[1..]| ensures ValidItem(prefix[1..][i]) {
          assert prefix[1..][i] == prefix[i + 1];
        }
      }
      FirstFaultWins(prefix[1..], bad, suffix);
    }
  }
}
