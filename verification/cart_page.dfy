/** What the cart page shows for a given cart. */
module CartPage {
  import opened Cart
  import opened Catalog

  datatype Shipping = Free

  /** The order summary the cart and checkout pages both show: one amount per
      line, the subtotal, the shipping and the total. */
  datatype OrderSummary = OrderSummary(lineAmounts: seq<int>, subtotal: int, shipping: Shipping, total: int)

  /** What a summary of `items` must show: each line's price times quantity,
      amounts that add up to the total, a subtotal equal to the total, free shipping. */
  ghost predicate ShowsCart(items: seq<CartItem>, s: OrderSummary)
  {
    && |s.lineAmounts| == |items|
    && (forall i :: 0 <= i < |items| ==> s.lineAmounts[i] == items[i].sweet.price * items[i].quantity)
    && SumInts(s.lineAmounts) == s.total
    && s.subtotal == s.total
    && s.shipping == Free
  }

  function SummaryOf(items: seq<CartItem>): (s: OrderSummary)
    ensures ShowsCart(items, s)
  {
    var total := Total(items);
    LineAmountsSumToTotal(items);
    OrderSummary(LineAmounts(items), total, Free, total)
  }

  /** Either the empty-cart card, or the lines with their amounts and the order summary. */
  datatype CartView =
    | EmptyCart
    | Lines(summary: OrderSummary)

  function Render(items: seq<CartItem>): (v: CartView)
    ensures v.EmptyCart? <==> |items| == 0
    ensures v.Lines? ==> ShowsCart(items, v.summary)
  {
    if |items| == 0 then EmptyCart else Lines(SummaryOf(items))
  }

  /** The empty cart totals zero and shows the empty state. */
  lemma EmptyCartView()
    ensures Total([]) == 0 && Render([]) == EmptyCart
  {
  }

  /** One more unit of a line's product raises the shown total by exactly that
      line's price, and the subtotal with it. */
  lemma AddRaisesShownTotal(items: seq<CartItem>, item: Sweet, k: nat)
    requires DistinctIds(items) && k < |items| && items[k].sweet.id == item.id
    ensures Render(AddToCart(items, item)).summary.total == Render(items).summary.total + items[k].sweet.price
    ensures Render(AddToCart(items, item)).summary.subtotal == Render(items).summary.subtotal + items[k].sweet.price
  {
    AddExisting(items, item, k);
  }
}
