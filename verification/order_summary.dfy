/** The order summary beside the checkout form
    (src/components/checkout/OrderSummary.tsx): when the place-order button
    is enabled, which cart lines are previewed, how many more are counted,
    and when the address hint shows. */
module OrderSummary {
  import opened Wrappers
  import opened Catalog
  import Lists
  import CartStore
  import Checkout

  /** The summary's inputs, as the checkout form passes them. */
  datatype Props = Props(
    loading: bool,
    loadingAddresses: bool,
    selected: Option<string>,
    itemCount: int,
    submitting: bool,
    lines: seq<CartStore.LineItem>)

  /** `isReadyToOrder`: nothing loading, an address selected, at least one
      item, and no order being submitted. */
  predicate ReadyToOrder(p: Props) {
    !p.loading && !p.loadingAddresses && Truthy(p.selected) && p.itemCount > 0 && !p.submitting
  }

  /** The preview length. */
  const PreviewSize := 5

  /** `cartProducts.slice(0, 5)`: the first lines, at most five. */
  function Preview(lines: seq<CartStore.LineItem>): (r: seq<CartStore.LineItem>)
    ensures |r| == if |lines| < PreviewSize then |lines| else PreviewSize
    ensures r <= lines
  {
    Lists.Take(lines, PreviewSize)
  }

  /** The "+N more items" note: shown exactly when there are more than five
      items, with N the items beyond the fifth. */
  function MoreItems(itemCount: int): (r: Option<int>)
    ensures r.Some? <==> itemCount > PreviewSize
    ensures r.Some? ==> r.value > 0 && r.value + PreviewSize == itemCount
  {
    if itemCount > PreviewSize then Some(itemCount - PreviewSize) else None
  }

  /** Each previewed line's name: the product's title when the line embeds
      the product, "Product" otherwise. */
  function LineLabel(l: CartStore.LineItem): (r: string)
    ensures l.product.Embedded? ==> r == l.product.product.title
    ensures l.product.Bare? ==> r == "Product"
  {
    match l.product
    case Embedded(p) => p.title
    case Bare(_) => "Product"
  }

  /** The "Please select an address" hint. */
  predicate AddressHint(p: Props) {
    !Truthy(p.selected) && !p.loadingAddresses
  }

  /** When the count is the number of lines, the preview and the "more"
      note account for every line exactly once. */
  lemma PreviewAndMoreCoverAll(p: Props)
    requires p.itemCount == |p.lines|
    ensures |Preview(p.lines)| + MoreItems(p.itemCount).GetOr(0) == |p.lines|
  {
  }

  /** The button and the hint never show together: an enabled button means
      an address is selected. */
  lemma ReadyHidesHint(p: Props)
    ensures ReadyToOrder(p) ==> !AddressHint(p)
  {
  }

  /** The props the checkout form passes for its state and the cart store's. */
  function PropsOf(f: Checkout.Form, cart: CartStore.CartState): Props {
    Props(cart.loading, f.loadingAddresses, f.selected, Checkout.ItemCount(cart.cart),
          f.submitting, if cart.cart.Some? then cart.cart.value.products else [])
  }

  /** An enabled button passes the place-order handler's first guard, so
      the order is sent exactly when a loaded address has the selected id. */
  lemma ReadyPassesCartGuard(f: Checkout.Form, cart: CartStore.CartState, origin: string, reply: Outcome<string>)
    requires ReadyToOrder(PropsOf(f, cart))
    ensures Checkout.PlaceOrder(f, cart.cart, origin, reply).call.Some?
        <==> Checkout.Find(f.addresses, f.selected.value).Some?
  {
  }
}
