/** The cart store (src/context/CartProvider.tsx): the signed-in user's cart as
    last seen from the server, updated optimistically by quantity changes,
    removals and clearing. The session token is a string, empty when the user
    is signed out; each remote call's result is a parameter. */
module CartStore {
  import opened Wrappers
  import opened Catalog
  import Lists
  import Optimistic

  /** One cart line: its id, quantity, referenced product and unit price. */
  datatype LineItem = LineItem(lineId: string, count: int, product: ProductRef, price: int)

  datatype Cart = Cart(cartId: string, owner: string, products: seq<LineItem>, totalCartPrice: int)

  /** The provider's state: the cart (null before loading or after clearing)
      and the loading flag of `refreshCart`. */
  datatype CartState = CartState(cart: Option<Cart>, loading: bool)

  /** A line refers to `productId` when its resolved product id equals it. */
  predicate Refers(l: LineItem, productId: string) {
    RefId(l.product) == productId
  }

  /** `cart?.products?.length || 0`. */
  function CartCount(cart: Option<Cart>): nat {
    if cart.Some? then |cart.value.products| else 0
  }

  /** Sum of unit price times quantity over the lines: the total the server
      keeps in `totalCartPrice`. */
  function Total(lines: seq<LineItem>): int {
    if |lines| == 0 then 0 else lines[0].price * lines[0].count + Total(lines[1..])
  }

  /** The quantity rewrite of `updateItemQuantity`: every line that refers to
      `productId` gets the new count; every other line, the order and the
      length stay as they were. */
  function SetCount(lines: seq<LineItem>, productId: string, count: int): (r: seq<LineItem>)
    ensures |r| == |lines|
    ensures forall i :: 0 <= i < |lines| && Refers(lines[i], productId) ==> r[i] == lines[i].(count := count)
    ensures forall i :: 0 <= i < |lines| && !Refers(lines[i], productId) ==> r[i] == lines[i]
  {
    if |lines| == 0 then []
    else
      var l := lines[0];
      [if Refers(l, productId) then l.(count := count) else l] + SetCount(lines[1..], productId, count)
  }

  /** The running `reduce` of `updateItemQuantity`: a left fold over the old
      lines that uses the new count for the lines referring to `productId`. */
  function ReduceTotal(lines: seq<LineItem>, productId: string, count: int, sum: int): int {
    if |lines| == 0 then sum
    else
      var itemCount := if Refers(lines[0], productId) then count else lines[0].count;
      ReduceTotal(lines[1..], productId, count, sum + lines[0].price * itemCount)
  }

  /** The fold computes the server's total of the rewritten lines. */
  lemma {:induction false} ReduceTotalIsTotal(lines: seq<LineItem>, productId: string, count: int, sum: int)
    ensures ReduceTotal(lines, productId, count, sum) == sum + Total(SetCount(lines, productId, count))
  {
    if |lines| > 0 {
      ReduceTotalIsTotal(lines[1..], productId, count, sum + lines[0].price * (if Refers(lines[0], productId) then count else lines[0].count));
      assert SetCount(lines, productId, count)[1..] == SetCount(lines[1..], productId, count);
    }
  }

  /** The state `updateItemQuantity` shows before the reply: a null cart stays
      null; otherwise the matching lines get the new count and the total is
      recomputed as the sum of price times count over the rewritten lines. */
  function OptimisticUpdate(cart: Option<Cart>, productId: string, count: int): (r: Option<Cart>)
    ensures cart.None? <==> r.None?
    ensures cart.Some? ==> r.value.products == SetCount(cart.value.products, productId, count)
    ensures cart.Some? ==> r.value.totalCartPrice == Total(r.value.products)
    ensures cart.Some? ==> r.value.cartId == cart.value.cartId && r.value.owner == cart.value.owner
    ensures CartCount(r) == CartCount(cart)
  {
    match cart
    case None => None
    case Some(c) =>
      ReduceTotalIsTotal(c.products, productId, count, 0);
      Some(c.(products := SetCount(c.products, productId, count),
              totalCartPrice := ReduceTotal(c.products, productId, count, 0)))
  }

  /** The lines `removeItem` keeps: those not referring to `productId`. */
  function KeepOthers(lines: seq<LineItem>, productId: string): seq<LineItem> {
    Lists.Filter(lines, (l: LineItem) => !Refers(l, productId))
  }

  /** The state `removeItem` shows before the reply: a null cart stays null;
      otherwise exactly the lines not referring to `productId` remain, in
      order, and `totalCartPrice` is left as it was. */
  function OptimisticRemove(cart: Option<Cart>, productId: string): (r: Option<Cart>)
    ensures cart.None? <==> r.None?
    ensures cart.Some? ==> Lists.IsSubsequence(r.value.products, cart.value.products)
    ensures cart.Some? ==> forall i :: 0 <= i < |r.value.products| ==> !Refers(r.value.products[i], productId)
    ensures cart.Some? ==> forall l :: l in cart.value.products && !Refers(l, productId) ==> l in r.value.products
    ensures cart.Some? ==> r.value.totalCartPrice == cart.value.totalCartPrice
    ensures cart.Some? ==> r.value.cartId == cart.value.cartId && r.value.owner == cart.value.owner
  {
    match cart
    case None => None
    case Some(c) => Some(c.(products := KeepOthers(c.products, productId)))
  }

  /** `updateItemQuantity(productId, count)`. Signed out: nothing happens.
      Otherwise the optimistic cart is shown, and the cart then becomes the
      server's reply, or the exact pre-call cart when the request fails. */
  function UpdateItemQuantity(cart: Option<Cart>, token: string, productId: string, count: int,
                              reply: Outcome<Cart>): (t: Optimistic.Transition<Option<Cart>>)
    ensures token == "" ==> t.shown == cart && t.settled == cart
    ensures token != "" ==> t.shown == OptimisticUpdate(cart, productId, count)
    ensures token != "" && reply.Err? ==> t.settled == cart
    ensures token != "" && reply.Ok? ==> t.settled == Some(reply.value)
  {
    if token == "" then Optimistic.Idle(cart)
    else Optimistic.Run(cart, OptimisticUpdate(cart, productId, count), reply.Map((c: Cart) => Some(c)))
  }

  /** `removeItem(productId)`, with the same guard, rollback and settling. */
  function RemoveItem(cart: Option<Cart>, token: string, productId: string,
                      reply: Outcome<Cart>): (t: Optimistic.Transition<Option<Cart>>)
    ensures token == "" ==> t.shown == cart && t.settled == cart
    ensures token != "" ==> t.shown == OptimisticRemove(cart, productId)
    ensures token != "" && reply.Err? ==> t.settled == cart
    ensures token != "" && reply.Ok? ==> t.settled == Some(reply.value)
  {
    if token == "" then Optimistic.Idle(cart)
    else Optimistic.Run(cart, OptimisticRemove(cart, productId), reply.Map((c: Cart) => Some(c)))
  }

  /** `clearUserCart()`: the cart is shown as null at once and stays null on
      success; a failure restores the exact pre-call cart. */
  function ClearUserCart(cart: Option<Cart>, token: string, reply: Outcome<()>): (t: Optimistic.Transition<Option<Cart>>)
    ensures token == "" ==> t.shown == cart && t.settled == cart
    ensures token != "" ==> t.shown == None
    ensures token != "" && reply.Err? ==> t.settled == cart
    ensures token != "" && reply.Ok? ==> t.settled == None
  {
    if token == "" then Optimistic.Idle(cart)
    else Optimistic.Run(cart, None, reply.Map((_: ()) => None))
  }

  /** What `addItemToCart` shows besides the cart itself. */
  datatype AddNotice = RedirectToLogin | CartToast(cart: Cart) | NoNotice | ErrorToast(message: string)

  datatype AddResult = AddResult(cart: Option<Cart>, notice: AddNotice)

  /** `addItemToCart(productId, {showToast})`. Signed out: the user is sent to
      the login page and the cart is untouched. Otherwise nothing is changed
      before the reply; on success the cart becomes the re-fetched cart, or
      the add reply when the re-fetch fails, and the toast (shown unless
      `showToast` is false) carries that same cart; on failure the cart is
      untouched. */
  function AddItemToCart(cart: Option<Cart>, token: string, showToast: Option<bool>,
                         added: Outcome<Cart>, refetched: Outcome<Cart>): (r: AddResult)
    ensures token == "" ==> r == AddResult(cart, RedirectToLogin)
    ensures token != "" && added.Err? ==> r.cart == cart && r.notice.ErrorToast?
    ensures token != "" && added.Ok? && refetched.Ok? ==> r.cart == Some(refetched.value)
    ensures token != "" && added.Ok? && refetched.Err? ==> r.cart == Some(added.value)
    ensures token != "" && added.Ok? ==> (r.notice.CartToast? <==> showToast != Some(false))
    ensures r.notice.CartToast? ==> r.cart == Some(r.notice.cart)
  {
    if token == "" then AddResult(cart, RedirectToLogin)
    else match added
      case Err(m) => AddResult(cart, ErrorToast(MessageOr(m, "Failed to add to cart")))
      case Ok(a) =>
        var full := match refetched case Ok(c) => c case Err(_) => a;
        AddResult(Some(full), if showToast != Some(false) then CartToast(full) else NoNotice)
  }

  /** `refreshCart()`: signed out, nothing happens; otherwise the cart becomes
      the server's cart, stays as it was when the fetch fails, and loading ends. */
  function RefreshCart(s: CartState, token: string, reply: Outcome<Cart>): (r: CartState)
    ensures token == "" ==> r == s
    ensures token != "" ==> !r.loading
    ensures token != "" && reply.Ok? ==> r.cart == Some(reply.value)
    ensures token != "" && reply.Err? ==> r.cart == s.cart
  {
    if token == "" then s
    else CartState(match reply case Ok(c) => Some(c) case Err(_) => s.cart, false)
  }

  /** The provider's effect on mount and on every token change: reload the
      cart when signed in, drop it when signed out. */
  function OnTokenChange(s: CartState, token: string, reply: Outcome<Cart>): (r: CartState)
    ensures token == "" ==> r.cart.None? && r.loading == s.loading
    ensures token != "" ==> r == RefreshCart(s, token, reply)
  {
    if token == "" then s.(cart := None) else RefreshCart(s, token, reply)
  }

  /** After a successful add, the cart is the one a refresh on the same
      re-fetch reply leaves. */
  lemma AddAgreesWithRefresh(s: CartState, token: string, showToast: Option<bool>, added: Cart, refetched: Cart)
    requires token != ""
    ensures AddItemToCart(s.cart, token, showToast, Ok(added), Ok(refetched)).cart
         == RefreshCart(s, token, Ok(refetched)).cart
  {
  }

  /** Running the token effect again with the same token and reply changes
      nothing. */
  lemma TokenEffectIdempotent(s: CartState, token: string, reply: Outcome<Cart>)
    ensures OnTokenChange(OnTokenChange(s, token, reply), token, reply) == OnTokenChange(s, token, reply)
  {
  }

  /** The "minus" button of the cart page and the cart toast:
      `Math.max(1, count - 1)`. */
  function DecrementQuantity(count: int): (r: int)
    ensures r >= 1
    ensures count > 1 ==> r == count - 1
    ensures count <= 1 ==> r == 1
  {
    if count - 1 > 1 then count - 1 else 1
  }

  /** Every line of the cart has a positive quantity. */
  predicate PositiveCounts(cart: Option<Cart>) {
    cart.Some? ==> forall i :: 0 <= i < |cart.value.products| ==> cart.value.products[i].count >= 1
  }

  /** A quantity update with a positive count, as the clamped callers send,
      keeps every quantity positive. */
  lemma UpdateKeepsPositive(cart: Option<Cart>, productId: string, count: int)
    requires PositiveCounts(cart) && count >= 1
    ensures PositiveCounts(OptimisticUpdate(cart, productId, count))
  {
    if cart.Some? {
      var r := OptimisticUpdate(cart, productId, count).value.products;
      forall i | 0 <= i < |r| ensures r[i].count >= 1 {
        assert Refers(cart.value.products[i], productId) || r[i] == cart.value.products[i];
      }
    }
  }

  /** After an optimistic remove, `cartCount` drops by the number of lines
      that referred to the product, and no line refers to it any more. */
  lemma RemoveCount(c: Cart, productId: string)
    ensures CartCount(OptimisticRemove(Some(c), productId))
         == |c.products| - Lists.CountWhere(c.products, (l: LineItem) => Refers(l, productId))
  {
    CountComplement(c.products, productId);
  }

  lemma {:induction false} CountComplement(lines: seq<LineItem>, productId: string)
    ensures Lists.CountWhere(lines, (l: LineItem) => !Refers(l, productId))
         == |lines| - Lists.CountWhere(lines, (l: LineItem) => Refers(l, productId))
  {
    if |lines| > 0 {
      CountComplement(lines[1..], productId);
    }
  }

  /** Removing the same product twice shows the same cart as removing it once. */
  lemma RemoveTwice(cart: Option<Cart>, productId: string)
    ensures OptimisticRemove(OptimisticRemove(cart, productId), productId) == OptimisticRemove(cart, productId)
  {
    if cart.Some? {
      FilterKeepsAll(KeepOthers(cart.value.products, productId), (l: LineItem) => !Refers(l, productId));
    }
  }

  lemma {:induction false} FilterKeepsAll<T>(xs: seq<T>, keep: T -> bool)
    requires forall i :: 0 <= i < |xs| ==> keep(xs[i])
    ensures Lists.Filter(xs, keep) == xs
  {
    if |xs| > 0 {
      FilterKeepsAll(xs[1..], keep);
      assert [xs[0]] + xs[1..] == xs;
    }
  }

  /** The worked example: lines priced 40 and 60 with quantity 1 each (total
      100); raising the first to 3 shows the total 3*40 + 60 = 180 at once. */
  lemma ExampleOptimisticTotal(a: Product, b: Product)
    requires Key(a) != Key(b)
    ensures
      var c := Cart("c", "u", [LineItem("l1", 1, Embedded(a), 40), LineItem("l2", 1, Embedded(b), 60)], 100);
      OptimisticUpdate(Some(c), Key(a), 3).value.totalCartPrice == 180
  {
    var lines := [LineItem("l1", 1, Embedded(a), 40), LineItem("l2", 1, Embedded(b), 60)];
    var r := SetCount(lines, Key(a), 3);
    assert r[0].count == 3 && r[1] == lines[1];
    assert Total(r) == r[0].price * r[0].count + Total(r[1..]);
    assert r[1..][0] == r[1] && r[1..][1..] == [];
  }
}
