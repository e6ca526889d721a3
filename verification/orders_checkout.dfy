/** The second checkout form (src/app/orders/CheckoutForm.tsx). It reads
    the address replies through a `data` field, appends an added address to
    the list it already has instead of taking the server's list, and posts
    the order to one endpoint whatever the payment method. The address
    service it imports resolves to bare arrays, which have no `data` field;
    the replies are modelled in the shape the form expects, and
    `ServiceListReply` and `ServiceAddData` give what the form reads from
    the service's actual replies. */
module OrdersCheckout {
  import opened Wrappers
  import Validation
  import AddressManager
  import CartStore
  import Checkout

  type Address = AddressManager.Address

  datatype Form = Form(
    payment: Checkout.Payment,
    addresses: seq<Address>,
    selected: Option<string>,
    showForm: bool,
    loadingAddresses: bool,
    saving: bool,
    submitting: bool,
    draft: Validation.AddressForm)

  /** A list reply with its `data` field, which may be missing. */
  datatype ListReply = ListReply(data: Option<seq<Address>>)

  /** `loadAddresses()`: the list is `response.data || []` (an empty array is
      truthy, so only a missing field falls back); a non-empty list selects
      its first address. Without a token nothing happens. */
  function LoadAddresses(f: Form, token: string, reply: Outcome<ListReply>): (r: Form)
    ensures token == "" ==> r == f
    ensures token != "" ==> !r.loadingAddresses
    ensures token != "" && reply.Ok? ==>
      var list := reply.value.data.GetOr([]);
      && r.addresses == list
      && (|list| > 0 ==> r.selected == Some(list[0].id))
      && (|list| == 0 ==> r.selected == f.selected)
    ensures token != "" && reply.Err? ==> r == f.(loadingAddresses := false)
  {
    if token == "" then f
    else match reply
      case Err(_) => f.(loadingAddresses := false)
      case Ok(res) =>
        var list := res.data.GetOr([]);
        var selected := if |list| > 0 then Some(list[0].id) else f.selected;
        f.(addresses := list, selected := selected, loadingAddresses := false)
  }

  /** The form as the other checkout form holds it; the two carry the same
      fields. */
  function AsCheckoutForm(f: Form): Checkout.Form {
    Checkout.Form(f.payment, f.addresses, f.selected, f.showForm, f.loadingAddresses, f.saving,
                  f.submitting, f.draft)
  }

  /** When the reply carries its list in `data`, loading agrees with the
      other checkout form loading that list: same addresses, same selection,
      same loading flag, and no call at all without a token. */
  lemma LoadAgreesWithCheckout(f: Form, token: string, list: seq<Address>)
    ensures AsCheckoutForm(LoadAddresses(f, token, Ok(ListReply(Some(list)))))
         == Checkout.LoadAddresses(AsCheckoutForm(f), token, Ok(list)).form
  {
  }

  /** What the component reads as `response.data` from the service it
      imports: `getAllAddresses` and `addAddress` resolve to a bare array of
      addresses, and an array has no `data` field. */
  function ServiceListReply(list: seq<Address>): ListReply {
    ListReply(None)
  }

  /** With the imported service, a signed-in load always leaves the list
      empty and the selection as it was, whatever the server holds. */
  lemma ServiceLoadIsEmpty(f: Form, token: string, list: seq<Address>)
    requires token != ""
    ensures
      var r := LoadAddresses(f, token, Ok(ServiceListReply(list)));
      r.addresses == [] && r.selected == f.selected
  {
  }

  /** The `data` of an add reply: an array of addresses, one address, or
      nothing. */
  datatype AddData = ListData(list: seq<Address>) | OneData(address: Address) | NoData

  /** `Array.isArray(data) ? data[data.length - 1] : data`: the added
      address, None where JavaScript would give `undefined`. */
  function AddedAddress(data: AddData): (r: Option<Address>)
    ensures data.ListData? && |data.list| > 0 ==> r == Some(data.list[|data.list| - 1])
    ensures data.OneData? ==> r == Some(data.address)
    ensures r.None? <==> data.NoData? || (data.ListData? && |data.list| == 0)
  {
    match data
    case ListData(list) => if |list| > 0 then Some(list[|list| - 1]) else None
    case OneData(a) => Some(a)
    case NoData => None
  }

  /** The list entries as JavaScript holds them: an address, or `undefined`. */
  function Entries(xs: seq<Address>): (r: seq<Option<Address>>)
    ensures |r| == |xs|
    ensures forall i :: 0 <= i < |xs| ==> r[i] == Some(xs[i])
  {
    if |xs| == 0 then [] else [Some(xs[0])] + Entries(xs[1..])
  }

  /** The list after a successful add, as written: the added value is
      appended before its `_id` is read, so an empty array or a missing
      `data` leaves `undefined` at the end of the list (and the read that
      follows throws, so nothing is selected). */
  function EntriesAfterAddAsWritten(prev: seq<Address>, data: AddData): seq<Option<Address>> {
    Entries(prev) + [AddedAddress(data)]
  }

  /** The `data` of an add reply from the imported service: missing, since
      the service resolves to a bare array. */
  function ServiceAddData(list: seq<Address>): AddData {
    NoData
  }

  /** With the imported service, every successful add keeps the previous
      entries and appends `undefined`, whatever the server returns. */
  lemma EveryServiceAddAppendsUndefined(prev: seq<Address>, list: seq<Address>)
    ensures
      var r := EntriesAfterAddAsWritten(prev, ServiceAddData(list));
      |r| == |prev| + 1 && r[..|prev|] == Entries(prev) && r[|prev|].None?
  {
    var r := EntriesAfterAddAsWritten(prev, ServiceAddData(list));
    assert r[..|prev|] == Entries(prev);
  }

  /** An empty array in the reply puts `undefined` into the address list. */
  lemma EmptyReplyAppendsUndefined(prev: seq<Address>)
    ensures
      var r := EntriesAfterAddAsWritten(prev, ListData([]));
      |r| == |prev| + 1 && r[|prev|].None?
  {
  }

  datatype Added = Added(call: Option<Validation.AddressForm>, form: Form)

  /** `handleAddAddress()` with the missing address handled: the guards of
      the other checkout form; a reply that carries an address appends it to
      the previous list, selects it, clears the draft and hides the form; a
      reply without one, or a failure, leaves the list as it was. */
  function AddAddress(f: Form, token: string, reply: Outcome<AddData>): (r: Added)
    ensures token == "" || !Checkout.DraftFilled(f.draft) ==> r.call.None? && r.form == f
    ensures token != "" && Checkout.DraftFilled(f.draft) ==> r.call == Some(f.draft) && !r.form.saving
    ensures token != "" && Checkout.DraftFilled(f.draft) && reply.Ok? && AddedAddress(reply.value).Some? ==>
      var a := AddedAddress(reply.value).value;
      && r.form.addresses == f.addresses + [a]
      && r.form.selected == Some(a.id)
      && r.form.draft == AddressManager.BlankDraft && !r.form.showForm
    ensures token != "" && Checkout.DraftFilled(f.draft) && (reply.Err? || AddedAddress(reply.value).None?) ==>
      r.form == f.(saving := false)
  {
    if token == "" || !Checkout.DraftFilled(f.draft) then Added(None, f)
    else match reply
      case Err(_) => Added(Some(f.draft), f.(saving := false))
      case Ok(data) =>
        match AddedAddress(data)
        case None => Added(Some(f.draft), f.(saving := false))
        case Some(a) =>
          Added(Some(f.draft), f.(addresses := f.addresses + [a], selected := Some(a.id),
                                  draft := AddressManager.BlankDraft, showForm := false, saving := false))
  }

  /** Whenever the reply carries an address, the list as written and the
      corrected list agree entry for entry. */
  lemma {:induction false} AddAgreesWhenAddressReturned(f: Form, token: string, data: AddData)
    requires token != "" && Checkout.DraftFilled(f.draft) && AddedAddress(data).Some?
    ensures Entries(AddAddress(f, token, Ok(data)).form.addresses)
         == EntriesAfterAddAsWritten(f.addresses, data)
  {
    EntriesAppend(f.addresses, [AddedAddress(data).value]);
  }

  lemma {:induction false} EntriesAppend(xs: seq<Address>, ys: seq<Address>)
    ensures Entries(xs + ys) == Entries(xs) + Entries(ys)
  {
    if |xs| > 0 {
      EntriesAppend(xs[1..], ys);
      assert (xs + ys)[1..] == xs[1..] + ys;
    } else {
      assert xs + ys == ys;
    }
  }

  /** The order request: one endpoint, with the cart, the selected address
      id and the payment method. */
  datatype OrderRequest = OrderRequest(cartId: string, shippingAddress: string, payment: Checkout.Payment)

  /** The order reply: the card payment url, if any, and the order's id. */
  datatype OrderReply = OrderReply(paymentUrl: Option<string>, orderId: string)

  const ConfirmationPath := "/order-confirmation"

  datatype Placed = Placed(call: Option<OrderRequest>, next: Checkout.Navigation, form: Form)

  /** `handlePlaceOrder()`: without a cart or a selected id nothing is sent
      and nothing changes. Otherwise the request is sent and submitting ends
      false whatever the outcome; success goes to the payment url (or the
      confirmation page) for a card, and to the confirmation page with the
      order id for cash. */
  function PlaceOrder(f: Form, cart: Option<CartStore.Cart>, reply: Outcome<OrderReply>): (r: Placed)
    ensures r.call.Some? <==> cart.Some? && Truthy(f.selected)
    ensures r.call.None? ==> r.next == Checkout.Stay && r.form == f
    ensures r.call.Some? ==>
      && r.call.value == OrderRequest(cart.value.cartId, f.selected.value, f.payment)
      && r.form == f.(submitting := false)
      && (reply.Err? ==> r.next == Checkout.Stay)
      && (reply.Ok? && f.payment == Checkout.Card ==>
            r.next == Checkout.Go(if Truthy(reply.value.paymentUrl) then reply.value.paymentUrl.value
                                  else ConfirmationPath))
      && (reply.Ok? && f.payment == Checkout.Cash ==>
            r.next == Checkout.Go(ConfirmationPath + "?orderId=" + reply.value.orderId))
  {
    if cart.None? || !Truthy(f.selected) then Placed(None, Checkout.Stay, f)
    else
      var call := OrderRequest(cart.value.cartId, f.selected.value, f.payment);
      match reply
      case Err(_) => Placed(Some(call), Checkout.Stay, f.(submitting := false))
      case Ok(res) =>
        var url := if f.payment == Checkout.Card then
                     (if Truthy(res.paymentUrl) then res.paymentUrl.value else ConfirmationPath)
                   else ConfirmationPath + "?orderId=" + res.orderId;
        Placed(Some(call), Checkout.Go(url), f.(submitting := false))
  }

  /** Every order the other checkout form sends, this form sends too: for
      the same cart, and for cash with the same address id. */
  lemma PlaceCoversCheckout(f: Form, cart: Option<CartStore.Cart>, reply: Outcome<OrderReply>,
                            origin: string, other: Outcome<string>)
    ensures
      var c := Checkout.PlaceOrder(AsCheckoutForm(f), cart, origin, other).call;
      var o := PlaceOrder(f, cart, reply).call;
      c.Some? ==>
        && o.Some?
        && o.value.cartId == c.value.cartId
        && (f.payment == Checkout.Cash ==> c.value == Checkout.CashOrder(o.value.cartId, o.value.shippingAddress))
  {
  }

  /** Unlike the other form, this one sends the order for a selected id
      even when no loaded address carries it. */
  lemma PlacesForUnknownId(f: Form, cart: CartStore.Cart, reply: Outcome<OrderReply>)
    requires Truthy(f.selected) && f.addresses == []
    ensures PlaceOrder(f, Some(cart), reply).call.Some?
  {
  }
}
