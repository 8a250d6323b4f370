/** What the checkout page shows for a given cart. The page only reads the cart. */
module Checkout {
  import opened Cart
  import CartPage

  /** Either the early return with the empty-cart message, or the form with its order summary. */
  datatype CheckoutView =
    | EmptyMessage
    | OrderForm(summary: CartPage.OrderSummary)

  function Render(items: seq<CartItem>): (v: CheckoutView)
    ensures v.EmptyMessage? <==> |items| == 0
    ensures v.OrderForm? ==> CartPage.ShowsCart(items, v.summary)
  {
    if |items| == 0 then EmptyMessage else OrderForm(CartPage.SummaryOf(items))
  }

  /** The checkout page charges exactly what the cart page shows. */
  lemma SameTotalAsCartPage(items: seq<CartItem>)
    requires |items| > 0
    ensures Render(items).summary.total == CartPage.Render(items).summary.total
    ensures Render(items).summary.lineAmounts == CartPage.Render(items).summary.lineAmounts
  {
  }
}
