/**
 * The order summary (components/cart/CartSummary.tsx): shipping, 19% tax, grand total
 * and the free-shipping notice, all derived from the cart's subtotal. Money is an integer
 * amount; the tax is kept as an exact rational.
 */
module CartSummary {
  import opened Wrappers
  import opened Types

  /** Shipping is free when the subtotal is strictly above this amount. */
  const FreeShippingThreshold: int := 200000

  /** The flat shipping fee charged otherwise. */
  const ShippingFee: int := 15000

  /** The shipping charged on a subtotal. */
  function Shipping(subtotal: int): (s: int)
    ensures s == 0 <==> subtotal > FreeShippingThreshold
    ensures s == 0 || s == ShippingFee
  {
    if subtotal > FreeShippingThreshold then 0 else ShippingFee
  }

  /** What the summary shows; `notice` is the amount of the "add X more" message,
      present exactly when that message is rendered. */
  datatype Summary = Summary(subtotal: int, shipping: int, tax: real, total: real, notice: Option<int>)

  /** `CartSummary`, as written: the notice asks for `200000 - cart.total` more. */
  function Summarize(cart: Cart): (s: Summary)
    ensures s.subtotal == cart.total
    ensures s.shipping == 0 <==> cart.total > FreeShippingThreshold
    ensures s.shipping == 0 || s.shipping == ShippingFee
    ensures 100.0 * s.tax == 19.0 * (cart.total as real)
    ensures s.total == (s.subtotal as real) + (s.shipping as real) + s.tax
    ensures s.notice.Some? <==> s.shipping > 0
    ensures s.notice.Some? ==> s.notice.value >= 0
    ensures s.notice.Some? ==> s.notice.value == FreeShippingThreshold - cart.total
  {
    var shipping := Shipping(cart.total);
    var tax := (cart.total as real) * 19.0 / 100.0;
    Summary(cart.total, shipping, tax, (cart.total as real) + (shipping as real) + tax,
            if shipping > 0 then Some(FreeShippingThreshold - cart.total) else None)
  }

  /** Raising the subtotal never turns free shipping back into paid shipping. */
  lemma ShippingMonotone(a: int, b: int)
    requires a <= b
    ensures Shipping(b) <= Shipping(a)
    ensures Shipping(a) == 0 ==> Shipping(b) == 0
  {
  }

  /** For a non-negative subtotal the grand total is the subtotal plus 19% plus at
      most one shipping fee. */
  lemma GrandTotalBounds(cart: Cart)
    requires cart.total >= 0
    ensures var s := Summarize(cart);
      && s.total >= (cart.total as real) * 1.19
      && s.total <= (cart.total as real) * 1.19 + (ShippingFee as real)
  {
  }

  /** The notice as written falls one short: adding the advertised amount leaves the
      subtotal at exactly the threshold, which still pays shipping. */
  lemma NoticeAsWrittenFallsShort(cart: Cart)
    requires Summarize(cart).notice.Some?
    ensures Shipping(cart.total + Summarize(cart).notice.value) == ShippingFee
  {
  }

  /** The concrete case: a 150000 subtotal is told to add 50000, and 200000 still pays
      the 15000 fee. */
  lemma NoticeAsWrittenExample()
    ensures Summarize(Cart([], 150000, 0)).notice == Some(50000)
    ensures Shipping(150000 + 50000) == 15000
  {
  }

  /** The amount the notice evidently means: the least top-up that makes shipping free. */
  function FreeShippingShortfall(subtotal: int): (d: int)
    requires Shipping(subtotal) > 0
    ensures d >= 1
    ensures Shipping(subtotal + d) == 0
    ensures forall t :: subtotal <= t < subtotal + d ==> Shipping(t) > 0
  {
    FreeShippingThreshold - subtotal + 1
  }

  /** The summary with the corrected notice amount. */
  function SummarizeCorrected(cart: Cart): (s: Summary)
    ensures s.notice.Some? <==> s.shipping > 0
    ensures s.notice.Some? ==> Shipping(cart.total + s.notice.value) == 0
    ensures s.notice.Some? ==> forall t :: cart.total <= t < cart.total + s.notice.value ==> Shipping(t) > 0
    ensures s == Summarize(cart).(notice := s.notice)
  {
    var s := Summarize(cart);
    s.(notice := if s.shipping > 0 then Some(FreeShippingShortfall(cart.total)) else None)
  }
}
