/** The order identifier `"{user_id}-{items_count}-X"`, with a decimal
    rendering of the count and a decoder that recovers the pair from the
    identifier. */
module OrderIds {
  import opened Wrappers

  predicate IsDigit(c: char) {
    '0' <= c <= '9'
  }

  predicate AllDigits(s: string) {
    forall i :: 0 <= i < |s| ==> IsDigit(s[i])
  }

  function DigitChar(d: nat): (c: char)
    requires d < 10
    ensures IsDigit(c)
  {
    "0123456789"[d]
  }

  function DigitValue(c: char): (d: nat)
    requires IsDigit(c)
    ensures d < 10
  {
    (c as int - '0' as int) as nat
  }

  /** The decimal rendering of a count, as Python's `str` gives it: at least
      one digit and nothing else, with no leading zero except for 0 itself. */
  function NatToString(n: nat): (s: string)
    ensures |s| > 0 && AllDigits(s)
    ensures s[0] == '0' ==> n == 0
  {
    if n < 10 then [DigitChar(n)] else NatToString(n / 10) + [DigitChar(n % 10)]
  }

  /** The value of a string of decimal digits (the empty string reads as 0). */
  function ParseDigits(s: string): (n: nat)
    requires AllDigits(s)
  {
    if |s| == 0 then 0 else ParseDigits(s[..|s| - 1]) * 10 + DigitValue(s[|s| - 1])
  }

  /** Reading back a rendered count gives the count. */
  lemma {:induction false} ParseNatToString(n: nat)
    ensures ParseDigits(NatToString(n)) == n
  {
    var s := NatToString(n);
    if n < 10 {
      assert s[..0] == [];
    } else {
      assert s[..|s| - 1] == NatToString(n / 10);
      ParseNatToString(n / 10);
    }
  }

  /** The identifier of an order placed by `userId` for `itemsCount` items. */
  function OrderId(userId: string, itemsCount: nat): (r: string)
    ensures |r| >= |userId| + 4
    ensures r[..|userId|] == userId && r[|userId|] == '-'
    ensures r[|r| - 2..] == "-X"
  {
    userId + "-" + NatToString(itemsCount) + "-X"
  }

  /** The position of the last occurrence of `c` in `s`, if any. */
  function LastIndexOf(s: string, c: char): (r: Option<nat>)
    ensures r.Some? ==> r.value < |s| && s[r.value] == c
    ensures r.Some? ==> forall j :: r.value < j < |s| ==> s[j] != c
    ensures r.None? ==> forall j :: 0 <= j < |s| ==> s[j] != c
  {
    if |s| == 0 then None
    else if s[|s| - 1] == c then Some(|s| - 1)
    else LastIndexOf(s[..|s| - 1], c)
  }

  /** Splits an identifier back into user and count. Only the exact
      rendering (no leading zeros) of a count is accepted, so whatever it
      returns renders back to the same identifier. */
  function ParseOrderId(s: string): (r: Option<(string, nat)>)
    ensures r.Some? ==> OrderId(r.value.0, r.value.1) == s
  {
    if |s| < 2 || s[|s| - 2..] != "-X" then None
    else
      var body := s[..|s| - 2];
      match LastIndexOf(body, '-')
      case None => None
      case Some(k) =>
        var digits := body[k + 1..];
        if AllDigits(digits) && NatToString(ParseDigits(digits)) == digits then
          assert body == body[..k] + "-" + digits;
          assert s == body + "-X";
          Some((body[..k], ParseDigits(digits)))
        else None
  }

  /** The decoder inverts the encoder: the user and the count are both
      recoverable from the identifier, whatever characters the user holds. */
  lemma OrderIdRoundTrip(userId: string, itemsCount: nat)
    ensures ParseOrderId(OrderId(userId, itemsCount)) == Some((userId, itemsCount))
  {
    var s := OrderId(userId, itemsCount);
    var d := NatToString(itemsCount);
    var body := userId + "-" + d;
    assert s == body + "-X";
    assert s[..|s| - 2] == body;
    forall j | |userId| < j < |body| ensures body[j] != '-' {
      assert body[j] == d[j - |userId| - 1];
      assert IsDigit(d[j - |userId| - 1]);
    }
    assert body[|userId| + 1..] == d;
    assert body[..|userId|] == userId;
    ParseNatToString(itemsCount);
  }

  /** Distinct (user, count) pairs never share an identifier. */
  lemma OrderIdInjective(u1: string, n1: nat, u2: string, n2: nat)
    requires OrderId(u1, n1) == OrderId(u2, n2)
    ensures u1 == u2 && n1 == n2
  {
    OrderIdRoundTrip(u1, n1);
    OrderIdRoundTrip(u2, n2);
  }
}
