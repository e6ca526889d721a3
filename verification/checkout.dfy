/** The checkout form (src/app/checkout/CheckoutForm.tsx): load the saved
    addresses and select one, add a new address inline, and place the order
    by card (a hosted payment session) or cash on delivery. Remote calls are
    replaced by their outcomes; the cart comes from the cart store. */
module Checkout {
  import opened Wrappers
  import Validation
  import AddressManager
  import CartStore

  type Address = AddressManager.Address

  datatype Payment = Cash | Card

  datatype Form = Form(
    payment: Payment,
    addresses: seq<Address>,
    selected: Option<string>,
    showForm: bool,
    loadingAddresses: bool,
    saving: bool,
    submitting: bool,
    draft: Validation.AddressForm)

  /** The form as mounted: cash, nothing loaded or selected, an empty draft. */
  const Initial := Form(Cash, [], None, false, false, false, false, AddressManager.BlankDraft)

  datatype Loaded = Loaded(called: bool, form: Form)

  /** `loadAddresses()`: without a token nothing happens. Otherwise a
      successful reply replaces the list and, when it is non-empty, selects
      its first address; a failure keeps the list and the selection. Loading
      ends false either way. */
  function LoadAddresses(f: Form, token: string, reply: Outcome<seq<Address>>): (r: Loaded)
    ensures token == "" ==> !r.called && r.form == f
    ensures token != "" ==> r.called && !r.form.loadingAddresses
    ensures token != "" && reply.Ok? ==>
      && r.form.addresses == reply.value
      && (|reply.value| > 0 ==> r.form.selected == Some(reply.value[0].id))
      && (|reply.value| == 0 ==> r.form.selected == f.selected)
    ensures token != "" && reply.Err? ==> r.form == f.(loadingAddresses := false)
  {
    if token == "" then Loaded(false, f)
    else match reply
      case Err(_) => Loaded(true, f.(loadingAddresses := false))
      case Ok(list) =>
        var selected := if |list| > 0 then Some(list[0].id) else f.selected;
        Loaded(true, f.(addresses := list, selected := selected, loadingAddresses := false))
  }

  /** The inline form's guard: name, details and phone are filled in; the
      city is not checked. */
  predicate DraftFilled(d: Validation.AddressForm) {
    d.name != "" && d.details != "" && d.phone != ""
  }

  datatype Added = Added(call: Option<Validation.AddressForm>, form: Form)

  /** `handleAddAddress()`: without a token, or with an unfilled draft,
      nothing is sent and nothing changes. Otherwise the draft is sent; a
      reply list replaces the addresses, and when it has a last element that
      address is selected, the draft is cleared and the form hidden. Reading
      the id of the missing last element of an empty reply fails, so then
      only the (empty) list has been stored. A failed call changes nothing
      but the saving flag, which ends false. */
  function AddAddress(f: Form, token: string, reply: Outcome<seq<Address>>): (r: Added)
    ensures token == "" || !DraftFilled(f.draft) ==> r.call.None? && r.form == f
    ensures token != "" && DraftFilled(f.draft) ==> r.call == Some(f.draft) && !r.form.saving
    ensures token != "" && DraftFilled(f.draft) && reply.Ok? && |reply.value| > 0 ==>
      && r.form.addresses == reply.value
      && r.form.selected == Some(reply.value[|reply.value| - 1].id)
      && r.form.draft == AddressManager.BlankDraft && !r.form.showForm
    ensures token != "" && DraftFilled(f.draft) && reply.Ok? && |reply.value| == 0 ==>
      r.form == f.(addresses := [], saving := false)
    ensures token != "" && DraftFilled(f.draft) && reply.Err? ==> r.form == f.(saving := false)
  {
    if token == "" || !DraftFilled(f.draft) then Added(None, f)
    else match reply
      case Err(_) => Added(Some(f.draft), f.(saving := false))
      case Ok(list) =>
        if |list| == 0 then Added(Some(f.draft), f.(addresses := [], saving := false))
        else
          var added := list[|list| - 1];
          Added(Some(f.draft), f.(addresses := list, selected := Some(added.id),
                                  draft := AddressManager.BlankDraft, showForm := false, saving := false))
  }

  /** `addresses.find(a => a._id === id)`: the first address with that id. */
  function Find(addresses: seq<Address>, id: string): (r: Option<Address>)
    ensures r.Some? <==> exists i :: 0 <= i < |addresses| && addresses[i].id == id
    ensures r.Some? ==> r.value in addresses && r.value.id == id
  {
    if |addresses| == 0 then None
    else if addresses[0].id == id then Some(addresses[0])
    else
      var rest := Find(addresses[1..], id);
      assert forall i :: 1 <= i < |addresses| ==> addresses[i] == addresses[1..][i - 1];
      rest
  }

  /** `find` returns the first match: no earlier address carries the id. */
  lemma {:induction false} FindIsFirst(addresses: seq<Address>, id: string)
    ensures Find(addresses, id).Some? ==>
      exists i :: 0 <= i < |addresses| && addresses[i] == Find(addresses, id).value
                  && forall j :: 0 <= j < i ==> addresses[j].id != id
  {
    if |addresses| > 0 && addresses[0].id != id {
      FindIsFirst(addresses[1..], id);
      if Find(addresses, id).Some? {
        var i :| 0 <= i < |addresses[1..]| && addresses[1..][i] == Find(addresses[1..], id).value
                 && forall j :: 0 <= j < i ==> addresses[1..][j].id != id;
        assert addresses[i + 1] == Find(addresses, id).value;
        assert forall j :: 0 <= j < i + 1 ==> addresses[j].id != id by {
          forall j | 0 <= j < i + 1 ensures addresses[j].id != id {
            if j > 0 { assert addresses[j] == addresses[1..][j - 1]; }
          }
        }
      }
    }
  }

  /** What a card payment sends as the shipping address: no name. */
  datatype Shipping = Shipping(details: string, phone: string, city: string)

  /** The order request: a hosted card-payment session for the cart, with
      the address the payment page returns to, or a cash order for the cart
      and the selected address's id. */
  datatype OrderCall = CardSession(cartId: string, shipping: Shipping, returnUrl: string)
                     | CashOrder(cartId: string, addressId: string)

  /** Where the browser goes after a successful order. */
  datatype Navigation = Stay | Go(url: string)

  const OrdersPath := "/orders"

  datatype Placed = Placed(call: Option<OrderCall>, next: Navigation, form: Form)

  /** `handlePlaceOrder()`. Without a cart or a selected id, or when no
      loaded address has the selected id, nothing is sent and nothing
      changes. Otherwise the order is sent by the chosen payment method;
      success navigates away (to the payment session's url, or to the
      orders page) and leaves the form submitting, failure ends submitting
      and stays. A card session returns to the orders page of `origin`, the
      page's `window.location.origin`. */
  function PlaceOrder(f: Form, cart: Option<CartStore.Cart>, origin: string, reply: Outcome<string>): (r: Placed)
    ensures cart.None? || !Truthy(f.selected) ==> r.call.None? && r.next == Stay && r.form == f
    ensures cart.Some? && Truthy(f.selected) && Find(f.addresses, f.selected.value).None? ==>
      r.call.None? && r.next == Stay && r.form == f
    ensures r.call.Some? <==>
      cart.Some? && Truthy(f.selected) && exists i :: 0 <= i < |f.addresses| && f.addresses[i].id == f.selected.value
    ensures r.call.Some? ==>
      var a := Find(f.addresses, f.selected.value).value;
      && (f.payment == Card ==> r.call.value == CardSession(cart.value.cartId, Shipping(a.details, a.phone, a.city), origin + OrdersPath))
      && (f.payment == Cash ==> r.call.value == CashOrder(cart.value.cartId, f.selected.value))
      && r.form == f.(submitting := reply.Ok?)
      && (reply.Err? ==> r.next == Stay)
      && (reply.Ok? && f.payment == Card ==> r.next == Go(reply.value))
      && (reply.Ok? && f.payment == Cash ==> r.next == Go(OrdersPath))
  {
    if cart.None? || !Truthy(f.selected) then Placed(None, Stay, f)
    else match Find(f.addresses, f.selected.value)
      case None => Placed(None, Stay, f)
      case Some(a) =>
        var call := if f.payment == Card then CardSession(cart.value.cartId, Shipping(a.details, a.phone, a.city), origin + OrdersPath)
                    else CashOrder(cart.value.cartId, f.selected.value);
        match reply
        case Err(_) => Placed(Some(call), Stay, f.(submitting := false))
        case Ok(url) =>
          Placed(Some(call), Go(if f.payment == Card then url else OrdersPath), f.(submitting := true))
  }

  /** Loading a non-empty list makes the first address orderable: with a
      cart, placing the order then sends a request for that address. */
  lemma LoadThenPlace(f: Form, token: string, list: seq<Address>, cart: CartStore.Cart, origin: string, reply: Outcome<string>)
    requires token != "" && |list| > 0 && list[0].id != ""
    ensures
      var loaded := LoadAddresses(f, token, Ok(list)).form;
      PlaceOrder(loaded, Some(cart), origin, reply).call.Some?
  {
  }

  /** Adding an address whose reply ends with it makes it the one a cash
      order is sent for. */
  lemma AddThenPlaceCash(f: Form, token: string, list: seq<Address>, cart: CartStore.Cart, origin: string, reply: Outcome<string>)
    requires token != "" && DraftFilled(f.draft) && f.payment == Cash
    requires |list| > 0 && list[|list| - 1].id != ""
    ensures
      var added := AddAddress(f, token, Ok(list)).form;
      PlaceOrder(added, Some(cart), origin, reply).call == Some(CashOrder(cart.cartId, list[|list| - 1].id))
  {
    var added := AddAddress(f, token, Ok(list)).form;
    assert added.addresses[|list| - 1].id == list[|list| - 1].id;
  }

  /** `cart?.products?.length || 0`. */
  function ItemCount(cart: Option<CartStore.Cart>): (r: nat)
    ensures r == CartStore.CartCount(cart)
    ensures cart.None? ==> r == 0
  {
    if cart.Some? then |cart.value.products| else 0
  }

  /** `cart?.totalCartPrice || 0`. */
  function TotalPrice(cart: Option<CartStore.Cart>): (r: int)
    ensures cart.None? ==> r == 0
    ensures cart.Some? ==> r == cart.value.totalCartPrice
  {
    if cart.Some? then cart.value.totalCartPrice else 0
  }

  /** After an optimistic quantity change the total the form shows is the
      sum of price times quantity over the cart's new lines. */
  lemma ShownTotalAfterUpdate(c: CartStore.Cart, productId: string, count: int)
    ensures
      var shown := CartStore.OptimisticUpdate(Some(c), productId, count);
      TotalPrice(shown) == CartStore.Total(shown.value.products)
  {
  }
}
