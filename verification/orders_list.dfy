/** The order history (src/app/orders/OrdersList.tsx): each order's status
    and badge colour, the expanded-orders set, the short order id and item
    label, and the product ids a reorder sends. */
module OrdersList {
  import opened Wrappers
  import opened Catalog
  import Lists
  import Text

  /** An order line; the product may be missing. */
  datatype OrderItem = OrderItem(product: Option<Product>)

  datatype Order = Order(id: string, isDelivered: bool, isPaid: bool, cartItems: Option<seq<OrderItem>>)

  datatype Status = Delivered | Paid | Pending

  /** `getOrderStatus(order)`: delivered wins over paid, and an order that
      is neither is pending. */
  function OrderStatus(o: Order): (r: Status)
    ensures r == Delivered <==> o.isDelivered
    ensures r == Paid <==> !o.isDelivered && o.isPaid
    ensures r == Pending <==> !o.isDelivered && !o.isPaid
  {
    if o.isDelivered then Delivered else if o.isPaid then Paid else Pending
  }

  /** The status as displayed and as looked up in the colour table. */
  function StatusName(s: Status): string {
    match s
    case Delivered => "delivered"
    case Paid => "paid"
    case Pending => "pending"
  }

  const Gray := "bg-gray-100 text-gray-800"
  const Yellow := "bg-yellow-100 text-yellow-800"
  const Blue := "bg-blue-100 text-blue-800"
  const Green := "bg-green-100 text-green-800"
  const Red := "bg-red-100 text-red-800"

  /** The colour table of `getStatusColor`. */
  const Colors: map<string, string> := map[
    "pending" := Yellow, "shipped" := Blue, "delivered" := Green,
    "cancelled" := Red, "paid" := Green, "unpaid" := Yellow]

  /** `colors[status] || gray`: a known status gets its colour, any other
      the gray default. */
  function StatusColor(status: string): (r: string)
    ensures status in Colors ==> r == Colors[status]
    ensures status !in Colors ==> r == Gray
  {
    if status in Colors then Colors[status] else Gray
  }

  /** The badge of every order is coloured from the table, never gray:
      delivered and paid orders are green, pending ones yellow. */
  lemma BadgeColors(o: Order)
    ensures StatusColor(StatusName(OrderStatus(o))) == (if o.isDelivered || o.isPaid then Green else Yellow)
  {
  }

  /** `toggleExpanded(orderId)`: the id's membership flips, every other
      id's membership is kept. */
  function ToggleExpanded(expanded: set<string>, orderId: string): (r: set<string>)
    ensures orderId in r <==> orderId !in expanded
    ensures forall x :: x != orderId ==> (x in r <==> x in expanded)
  {
    if orderId in expanded then expanded - {orderId} else expanded + {orderId}
  }

  /** Toggling the same order twice restores the set. */
  lemma ToggleExpandedTwice(expanded: set<string>, orderId: string)
    ensures ToggleExpanded(ToggleExpanded(expanded, orderId), orderId) == expanded
  {
  }

  /** `item.product?._id || item.product?.id`, with "" for `undefined`. */
  function ItemKey(item: OrderItem): string {
    if item.product.Some? then Key(item.product.value) else ""
  }

  function ItemKeys(items: seq<OrderItem>): (r: seq<string>)
    ensures |r| == |items|
    ensures forall i :: 0 <= i < |items| ==> r[i] == ItemKey(items[i])
  {
    if |items| == 0 then [] else [ItemKey(items[0])] + ItemKeys(items[1..])
  }

  predicate NonEmpty(s: string) {
    s != ""
  }

  /** The product ids of a reorder: the items' keys with the empty ones
      dropped, in order. Every kept id is non-empty and is some item's key,
      and every item with a key contributes it. */
  function ReorderIds(o: Order): (r: seq<string>)
    ensures forall i :: 0 <= i < |r| ==> r[i] != ""
    ensures Lists.IsSubsequence(r, ItemKeys(o.cartItems.GetOr([])))
    ensures forall x :: x in r <==>
      x != "" && (exists i :: 0 <= i < |o.cartItems.GetOr([])| && ItemKey(o.cartItems.GetOr([])[i]) == x)
  {
    var keys := ItemKeys(o.cartItems.GetOr([]));
    var r := Lists.Filter(keys, NonEmpty);
    assert forall x :: x in keys <==> exists i :: 0 <= i < |keys| && keys[i] == x;
    r
  }

  /** The outcome of a reorder: the ids sent (if any), and whether the
      browser then goes to the cart. */
  datatype Reorder = Reorder(sent: Option<seq<string>>, toCart: bool, error: Option<string>)

  const NoProducts := "No products found in this order"

  /** `handleReorder(order)`: without a token nothing happens; an order
      without product ids is refused with an error and nothing is sent;
      otherwise the ids are sent, and success goes to the cart while
      failure reports the error. The reordering marker is cleared in every
      case that started. */
  function HandleReorder(o: Order, token: string, reply: Outcome<()>): (r: Reorder)
    ensures token == "" ==> r == Reorder(None, false, None)
    ensures token != "" && ReorderIds(o) == [] ==> r == Reorder(None, false, Some(NoProducts))
    ensures token != "" && ReorderIds(o) != [] ==> r.sent == Some(ReorderIds(o))
    ensures r.toCart <==> token != "" && ReorderIds(o) != [] && reply.Ok?
    ensures token != "" && ReorderIds(o) != [] && reply.Err? ==>
      r.error == Some(MessageOr(reply.message, "Failed to add items to cart"))
  {
    if token == "" then Reorder(None, false, None)
    else
      var ids := ReorderIds(o);
      if ids == [] then Reorder(None, false, Some(NoProducts))
      else match reply
        case Ok(_) => Reorder(Some(ids), true, None)
        case Err(m) => Reorder(Some(ids), false, Some(MessageOr(m, "Failed to add items to cart")))
  }

  /** An order whose items all lack products is refused without a call. */
  lemma NoProductsNoCall(o: Order, token: string, reply: Outcome<()>)
    requires forall i :: 0 <= i < |o.cartItems.GetOr([])| ==> o.cartItems.GetOr([])[i].product.None?
    ensures HandleReorder(o, token, reply).sent.None?
  {
  }

  /** `order._id.slice(-8).toUpperCase()`: the last eight characters (all
      of a shorter id), upper-cased. */
  function ShortId(id: string): (r: string)
    ensures |r| == if |id| < 8 then |id| else 8
    ensures forall i :: 0 <= i < |r| ==> r[i] == Text.UpperChar(id[|id| - |r| + i])
  {
    Text.ToUpper(Text.LastN(id, 8))
  }

  /** `cartItems?.length || 0` and its noun. */
  function ItemCount(o: Order): nat {
    if o.cartItems.Some? then |o.cartItems.value| else 0
  }

  /** "item" exactly for a count of one. */
  function ItemNoun(count: int): (r: string)
    ensures r == "item" <==> count == 1
    ensures r != "item" ==> r == "items"
  {
    if count == 1 then "item" else "items"
  }
}
