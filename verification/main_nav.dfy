/** The sidebar: which entries are highlighted for a path, and the cart badge. */
module MainNav {
  import opened Wrappers
  import opened Seqs
  import Cart
  import Catalog

  /** `isActive`: the catalog entry matches only the root; every other entry
      matches any path that starts with its own, as a raw string prefix. */
  predicate IsActive(pathname: string, path: string)
  {
    if path == "/" then pathname == "/" else path <= pathname
  }

  /** The sidebar entries, in display order. */
  const Entries: seq<string> := ["/", "/cart", "/dashboard", "/dashboard/orders",
    "/dashboard/inventory", "/dashboard/customers", "/dashboard/trends", "/dashboard/cash-flow"]

  function ActiveEntries(pathname: string): (r: seq<string>)
    ensures forall i :: 0 <= i < |r| ==> r[i] in Entries && IsActive(pathname, r[i])
    ensures forall i :: 0 <= i < |Entries| && IsActive(pathname, Entries[i]) ==> Entries[i] in r
  {
    Filter(Entries, (p: string) => IsActive(pathname, p))
  }

  /** The catalog entry is highlighted on the root path alone. */
  lemma RootOnlyOnRoot(pathname: string)
    ensures "/" in ActiveEntries(pathname) <==> pathname == "/"
  {
    assert Entries[0] == "/";
  }

  /** On a page below an admin entry, both "/dashboard" and that entry are highlighted. */
  lemma DashboardAndEntryActive(k: nat, rest: string)
    requires 3 <= k < |Entries|
    ensures "/dashboard" in ActiveEntries(Entries[k] + rest)
    ensures Entries[k] in ActiveEntries(Entries[k] + rest)
  {
    var pathname := Entries[k] + rest;
    assert Entries[k][..10] == "/dashboard";
    assert pathname[..10] == "/dashboard";
    assert IsActive(pathname, Entries[2]);
    assert IsActive(pathname, Entries[k]);
  }

  /** The match is a raw prefix: "/cart" is also highlighted on "/cartx". */
  lemma RawPrefixMatch()
    ensures "/cart" in ActiveEntries("/cartx")
    ensures !("/" in ActiveEntries("/cartx"))
  {
    assert IsActive("/cartx", Entries[1]);
    RootOnlyOnRoot("/cartx");
  }

  /** The cart badge: shown, with the item count, only when the count is positive. */
  function CartBadge(items: seq<Cart.CartItem>): (b: Option<int>)
    ensures b.Some? <==> Cart.ItemCount(items) > 0
    ensures b.Some? ==> b.value == Cart.ItemCount(items)
  {
    var n := Cart.ItemCount(items);
    if n > 0 then Some(n) else None
  }

  /** After any add the badge shows, with the number of adds so far. */
  lemma BadgeAfterAdds(adds: seq<Catalog.Sweet>)
    requires |adds| > 0
    ensures CartBadge(Cart.CartAfter(adds)) == Some(|adds|)
  {
    Cart.ReachableCarts(adds);
  }
}
