/** The shopping cart held in the cart context: lines keyed by product id. */
module Cart {
  import opened Catalog

  /** A cart line: the product as it was first added, and how many units. */
  datatype CartItem = CartItem(sweet: Sweet, quantity: int)

  function LineAmount(line: CartItem): int
  {
    line.sweet.price * line.quantity
  }

  predicate Contains(items: seq<CartItem>, id: string)
  {
    exists i :: 0 <= i < |items| && items[i].sweet.id == id
  }

  /** No two lines share a product id. */
  ghost predicate DistinctIds(items: seq<CartItem>)
  {
    forall i, j :: 0 <= i < j < |items| ==> items[i].sweet.id != items[j].sweet.id
  }

  /** The shape every cart reachable from the empty one has. */
  ghost predicate ValidCart(items: seq<CartItem>)
  {
    DistinctIds(items) && forall i :: 0 <= i < |items| ==> items[i].quantity >= 1
  }

  /** Every line of product `id` gets one more unit; the other lines stay as they are. */
  function IncrementLine(items: seq<CartItem>, id: string): (r: seq<CartItem>)
    ensures |r| == |items|
    ensures forall i :: 0 <= i < |items| && items[i].sweet.id == id ==>
      r[i] == items[i].(quantity := items[i].quantity + 1)
    ensures forall i :: 0 <= i < |items| && items[i].sweet.id != id ==> r[i] == items[i]
  {
    if |items| == 0 then []
    else
      var head := if items[0].sweet.id == id then items[0].(quantity := items[0].quantity + 1) else items[0];
      [head] + IncrementLine(items[1..], id)
  }

  /** The state update of `addToCartAndGoToCart`: bump the line with the item's
      id if there is one, otherwise append a new line with quantity 1. */
  function AddToCart(items: seq<CartItem>, item: Sweet): (r: seq<CartItem>)
    ensures Contains(r, item.id)
    ensures Contains(items, item.id) ==> |r| == |items|
    ensures Contains(items, item.id) ==>
      forall i :: 0 <= i < |items| ==> r[i].sweet == items[i].sweet
    ensures !Contains(items, item.id) ==> r == items + [CartItem(item, 1)]
  {
    if Contains(items, item.id) then IncrementLine(items, item.id)
    else
      var r := items + [CartItem(item, 1)];
      assert r[|items|].sweet.id == item.id;
      r
  }

  /** `cartItemCount`: the sum of the quantities. */
  function ItemCount(items: seq<CartItem>): int
  {
    if |items| == 0 then 0 else items[0].quantity + ItemCount(items[1..])
  }

  /** The cart and checkout pages' `total`: the sum of price times quantity. */
  function Total(items: seq<CartItem>): int
  {
    if |items| == 0 then 0 else LineAmount(items[0]) + Total(items[1..])
  }

  /** How many lines carry `id`, and the sum of their prices. */
  function Matches(items: seq<CartItem>, id: string): nat
  {
    if |items| == 0 then 0
    else (if items[0].sweet.id == id then 1 else 0) + Matches(items[1..], id)
  }

  function MatchedPrice(items: seq<CartItem>, id: string): int
  {
    if |items| == 0 then 0
    else (if items[0].sweet.id == id then items[0].sweet.price else 0) + MatchedPrice(items[1..], id)
  }

  lemma {:induction false} ItemCountConcat(a: seq<CartItem>, b: seq<CartItem>)
    ensures ItemCount(a + b) == ItemCount(a) + ItemCount(b)
  {
    if |a| == 0 {
      assert a + b == b;
    } else {
      assert (a + b)[1..] == a[1..] + b;
      ItemCountConcat(a[1..], b);
    }
  }

  /** The total is additive over concatenation of line lists. */
  lemma {:induction false} TotalConcat(a: seq<CartItem>, b: seq<CartItem>)
    ensures Total(a + b) == Total(a) + Total(b)
  {
    if |a| == 0 {
      assert a + b == b;
    } else {
      assert (a + b)[1..] == a[1..] + b;
      TotalConcat(a[1..], b);
    }
  }

  lemma {:induction false} IncrementLineSums(items: seq<CartItem>, id: string)
    ensures ItemCount(IncrementLine(items, id)) == ItemCount(items) + Matches(items, id)
    ensures Total(IncrementLine(items, id)) == Total(items) + MatchedPrice(items, id)
  {
    if |items| > 0 {
      IncrementLineSums(items[1..], id);
      var r := IncrementLine(items, id);
      assert r[1..] == IncrementLine(items[1..], id);
      var q := items[0].quantity;
      var p := items[0].sweet.price;
      assert p * (q + 1) == p * q + p;
    }
  }

  /** With distinct ids, exactly one line matches a present id, and its price is the matched price. */
  lemma {:induction false} SingleMatch(items: seq<CartItem>, k: nat)
    requires DistinctIds(items) && k < |items|
    ensures Matches(items, items[k].sweet.id) == 1
    ensures MatchedPrice(items, items[k].sweet.id) == items[k].sweet.price
  {
    var id := items[k].sweet.id;
    if k == 0 {
      NoMatch(items[1..], id);
    } else {
      SingleMatch(items[1..], k - 1);
    }
  }

  lemma {:induction false} NoMatch(items: seq<CartItem>, id: string)
    requires !Contains(items, id)
    ensures Matches(items, id) == 0 && MatchedPrice(items, id) == 0
  {
    if |items| > 0 {
      NoMatch(items[1..], id);
    }
  }

  /** Adding an item already in a well-formed cart bumps its line by exactly
      one unit, keeps the length and every other line, and raises the total
      by the price stored on that line. */
  lemma AddExisting(items: seq<CartItem>, item: Sweet, k: nat)
    requires DistinctIds(items) && k < |items| && items[k].sweet.id == item.id
    ensures |AddToCart(items, item)| == |items|
    ensures AddToCart(items, item)[k] == items[k].(quantity := items[k].quantity + 1)
    ensures forall i :: 0 <= i < |items| && i != k ==> AddToCart(items, item)[i] == items[i]
    ensures ItemCount(AddToCart(items, item)) == ItemCount(items) + 1
    ensures Total(AddToCart(items, item)) == Total(items) + items[k].sweet.price
  {
    IncrementLineSums(items, item.id);
    SingleMatch(items, k);
  }

  /** Adding an absent item appends one line of quantity 1 and raises the count by
      one and the total by the item's price. */
  lemma AddAbsent(items: seq<CartItem>, item: Sweet)
    requires !Contains(items, item.id)
    ensures AddToCart(items, item) == items + [CartItem(item, 1)]
    ensures ItemCount(AddToCart(items, item)) == ItemCount(items) + 1
    ensures Total(AddToCart(items, item)) == Total(items) + item.price
  {
    ItemCountConcat(items, [CartItem(item, 1)]);
    TotalConcat(items, [CartItem(item, 1)]);
  }

  /** Adding keeps ids distinct and every quantity at least 1. */
  lemma AddPreservesValid(items: seq<CartItem>, item: Sweet)
    requires ValidCart(items)
    ensures ValidCart(AddToCart(items, item))
  {
    var r := AddToCart(items, item);
    if !Contains(items, item.id) {
      forall i, j | 0 <= i < j < |r| ensures r[i].sweet.id != r[j].sweet.id {
        if j == |items| {
          assert r[i] == items[i];
        }
      }
    }
  }

  /** The cart after a sequence of `addToCartAndGoToCart` calls, starting from the empty cart. */
  function CartAfter(adds: seq<Sweet>): seq<CartItem>
  {
    if |adds| == 0 then [] else AddToCart(CartAfter(adds[..|adds| - 1]), adds[|adds| - 1])
  }

  /** Every reachable cart is well-formed and its item count is the number of adds. */
  lemma {:induction false} ReachableCarts(adds: seq<Sweet>)
    ensures ValidCart(CartAfter(adds))
    ensures ItemCount(CartAfter(adds)) == |adds|
  {
    if |adds| > 0 {
      var prev := CartAfter(adds[..|adds| - 1]);
      var item := adds[|adds| - 1];
      ReachableCarts(adds[..|adds| - 1]);
      AddPreservesValid(prev, item);
      if Contains(prev, item.id) {
        var k :| 0 <= k < |prev| && prev[k].sweet.id == item.id;
        AddExisting(prev, item, k);
      } else {
        AddAbsent(prev, item);
      }
    }
  }

  lemma {:induction false} ItemCountPositive(items: seq<CartItem>)
    requires ValidCart(items)
    ensures ItemCount(items) >= |items|
  {
    if |items| > 0 {
      assert ValidCart(items[1..]);
      ItemCountPositive(items[1..]);
    }
  }

  /** The cart badge shows (`cartItemCount > 0`) exactly when the cart has lines. */
  predicate ShowBadge(items: seq<CartItem>)
  {
    ItemCount(items) > 0
  }

  lemma BadgeIffNonEmpty(items: seq<CartItem>)
    requires ValidCart(items)
    ensures ShowBadge(items) <==> |items| > 0
  {
    ItemCountPositive(items);
  }

  /** The per-line amounts each page prints next to a line. */
  function LineAmounts(items: seq<CartItem>): (r: seq<int>)
    ensures |r| == |items|
    ensures forall i :: 0 <= i < |items| ==> r[i] == items[i].sweet.price * items[i].quantity
  {
    if |items| == 0 then [] else [LineAmount(items[0])] + LineAmounts(items[1..])
  }

  function SumInts(s: seq<int>): int
  {
    if |s| == 0 then 0 else s[0] + SumInts(s[1..])
  }

  /** The printed per-line amounts add up to the printed total. */
  lemma {:induction false} LineAmountsSumToTotal(items: seq<CartItem>)
    ensures SumInts(LineAmounts(items)) == Total(items)
  {
    if |items| > 0 {
      LineAmountsSumToTotal(items[1..]);
      assert LineAmounts(items)[1..] == LineAmounts(items[1..]);
    }
  }
}
