/** The global wishlist store (src/lib/store/wishList.store.ts). Signed out,
    membership lives in the browser's local storage as a list of product ids;
    signed in, the ids are derived from the product list the server returns.
    Toggling while signed in is not optimistic: it calls remove or add and
    then reloads. */
module WishlistStore {
  import opened Wrappers
  import opened Catalog
  import Lists

  /** The local-storage key of the guest list. */
  const LocalKey := "wishlist_guide_ids"

  datatype WishState = WishState(
    ids: seq<string>,
    products: seq<Product>,
    count: int,
    token: string,
    loading: bool,
    error: Option<string>)

  /** The store together with the guest list saved in local storage
      (None when nothing is saved under the key). */
  datatype Store = Store(state: WishState, saved: Option<seq<string>>)

  /** The server's wishlist reply: `data` and `count`, each possibly missing. */
  datatype WishReply = WishReply(data: Option<seq<Product>>, count: Option<int>)

  /** The remote call a signed-in toggle makes. */
  datatype WishCall = RemoveCall(productId: string) | AddCall(productId: string)

  const Initial := WishState([], [], 0, "", false, None)

  /** `products.map(p => p._id || p.id)`. */
  function Keys(ps: seq<Product>): (r: seq<string>)
    ensures |r| == |ps|
    ensures forall i :: 0 <= i < |ps| ==> r[i] == Key(ps[i])
  {
    if |ps| == 0 then [] else [Key(ps[0])] + Keys(ps[1..])
  }

  /** Signed-in consistency: the ids are exactly the keys of the products. */
  predicate Synced(s: WishState) {
    s.ids == Keys(s.products)
  }

  /** `setToken(token)`: only the token changes; nothing is reloaded. */
  function SetToken(s: WishState, token: string): (r: WishState)
    ensures r.token == token
    ensures r.ids == s.ids && r.products == s.products && r.count == s.count
    ensures r.loading == s.loading && r.error == s.error
  {
    s.(token := token)
  }

  /** `isInWishlist(productId)`. */
  predicate IsInWishlist(s: WishState, productId: string) {
    productId in s.ids
  }

  /** `loadWishlist()`. Signed out: the ids become the saved list (or [] when
      nothing is saved), the products [], the count the list's length.
      Signed in: on success the products are the reply's data (or []), the ids
      their keys in order, and the count the reply's count (or 0); on failure
      only `error` is set. Loading ends false either way. */
  function LoadWishlist(st: Store, reply: Outcome<WishReply>): (r: Store)
    ensures r.saved == st.saved && r.state.token == st.state.token
    ensures st.state.token == "" ==>
      && r.state.ids == st.saved.GetOr([])
      && r.state.products == []
      && r.state.count == |r.state.ids|
      && r.state.loading == st.state.loading && r.state.error == st.state.error
    ensures st.state.token != "" ==> !r.state.loading
    ensures st.state.token != "" && reply.Ok? ==>
      && r.state.products == reply.value.data.GetOr([])
      && Synced(r.state)
      && r.state.count == reply.value.count.GetOr(0)
      && r.state.error.None?
    ensures st.state.token != "" && reply.Err? ==>
      && r.state.ids == st.state.ids && r.state.products == st.state.products
      && r.state.count == st.state.count
      && r.state.error == Some(MessageOr(reply.message, "Failed to load wishlist"))
  {
    var s := st.state;
    if s.token == "" then
      var ids := st.saved.GetOr([]);
      st.(state := s.(ids := ids, products := [], count := |ids|))
    else
      match reply
      case Ok(res) =>
        var products := res.data.GetOr([]);
        st.(state := s.(products := products, ids := Keys(products),
                        count := res.count.GetOr(0), loading := false, error := None))
      case Err(m) =>
        st.(state := s.(error := Some(MessageOr(m, "Failed to load wishlist")), loading := false))
  }

  datatype ToggleResult = ToggleResult(call: Option<WishCall>, store: Store)

  /** `toggleWishlist(productId)`. Signed out: membership flips in the id list,
      local storage receives the new list and the count its length; no remote
      call. Signed in: remove is called when the id is a member and add
      otherwise, then the wishlist is reloaded; a failed call sets only `error`. */
  function ToggleWishlist(st: Store, productId: string, mutation: Outcome<()>,
                          reload: Outcome<WishReply>): (r: ToggleResult)
    ensures st.state.token == "" ==>
      && r.call.None?
      && r.store.state.ids == Lists.Toggle(st.state.ids, productId)
      && r.store.saved == Some(r.store.state.ids)
      && r.store.state.count == |r.store.state.ids|
      && r.store.state.products == st.state.products
    ensures st.state.token != "" ==>
      r.call == Some(if productId in st.state.ids then RemoveCall(productId) else AddCall(productId))
    ensures st.state.token != "" ==> !r.store.state.loading && r.store.saved == st.saved
    ensures st.state.token != "" && mutation.Err? ==>
      && r.store.state.ids == st.state.ids && r.store.state.products == st.state.products
      && r.store.state.count == st.state.count
      && r.store.state.error == Some(MessageOr(mutation.message, "Wishlist operation failed"))
    ensures st.state.token != "" && mutation.Ok? ==>
      r.store == LoadWishlist(st.(state := st.state.(loading := true, error := None)), reload)
  {
    var s := st.state;
    if s.token == "" then
      var updated := Lists.Toggle(s.ids, productId);
      ToggleResult(None, Store(s.(ids := updated, count := |updated|), Some(updated)))
    else
      var call := if productId in s.ids then RemoveCall(productId) else AddCall(productId);
      match mutation
      case Err(m) =>
        ToggleResult(Some(call), st.(state := s.(loading := false,
                                                 error := Some(MessageOr(m, "Wishlist operation failed")))))
      case Ok(_) =>
        var loaded := LoadWishlist(st.(state := s.(loading := true, error := None)), reload);
        ToggleResult(Some(call), loaded.(state := loaded.state.(loading := false)))
  }

  /** Guest: toggling an id that is not in the list twice gives back the same
      ids, count and products, and local storage then holds that list. */
  lemma GuestToggleTwice(st: Store, productId: string, m: Outcome<()>, w: Outcome<WishReply>)
    requires st.state.token == "" && productId !in st.state.ids
    requires st.state.count == |st.state.ids|
    ensures
      var once := ToggleWishlist(st, productId, m, w).store;
      var twice := ToggleWishlist(once, productId, m, w).store;
      twice.state == st.state && twice.saved == Some(st.state.ids)
  {
    Lists.ToggleTwice(st.state.ids, productId);
  }

  /** A signed-in load always leaves ids and products consistent, whatever
      the reply, as long as they were consistent before. */
  lemma LoadKeepsSynced(st: Store, reply: Outcome<WishReply>)
    requires st.state.token != "" && Synced(st.state)
    ensures Synced(LoadWishlist(st, reply).state)
  {
  }

  /** When the server applies the requested change, a signed-in toggle flips
      `isInWishlist` for the product and keeps ids and products consistent. */
  lemma SignedInToggleFlips(st: Store, productId: string, reply: WishReply)
    requires st.state.token != ""
    requires productId in Keys(reply.data.GetOr([])) <==> productId !in st.state.ids
    ensures
      var r := ToggleWishlist(st, productId, Ok(()), Ok(reply)).store.state;
      (IsInWishlist(r, productId) <==> !IsInWishlist(st.state, productId)) && Synced(r)
  {
  }

  /** The worked example: a guest with an empty wishlist toggles "p1" and
      gets ["p1"] with count 1 and storage ["p1"]; toggling again gives [],
      count 0 and storage []. */
  lemma GuestExample(m: Outcome<()>, w: Outcome<WishReply>)
    ensures
      var st := Store(Initial, None);
      var one := ToggleWishlist(st, "p1", m, w).store;
      var two := ToggleWishlist(one, "p1", m, w).store;
      && one.state.ids == ["p1"] && one.state.count == 1 && one.saved == Some(["p1"])
      && two.state.ids == [] && two.state.count == 0 && two.saved == Some([])
  {
    Lists.ToggleTwice([], "p1");
  }
}
