# Storefront logic of the Next.js e-commerce client, in Dafny

This project models the client-side logic of a Next.js storefront that runs
over a remote REST shop API. It covers:

- the optimistic cart store;
- the wishlist store in its guest and signed-in modes;
- product-listing URLs, the page window and the filter sidebar;
- the request URL of the product service;
- the session-token helpers and the `/cart` middleware;
- the form rules (password, reset code, phone, address, contact);
- the forgot-password dialog, the address manager and the two checkout forms;
- the order summary, the order list and the flash-sale countdown.

Every operation is a pure function over immutable datatypes. A remote call's
result is a parameter of type `Outcome<T> = Ok(value) | Err(message)`. An
optimistic cart action returns a `Transition(shown, settled)`: what the UI
shows while the call is in flight, and what it settles on. JavaScript
falsiness is modelled explicitly: `Truthy` on optional strings, and NaN and 0
for numbers in `JsNumber`.

Modules and what they model:

- `Wrappers`, `Text`, `Lists`, `JsNumber`, `SearchParams` and `Catalog` are
  the shared vocabulary. `SearchParams` is a `URLSearchParams` list with the
  get/set/delete semantics of the WHATWG URL Standard. `JsNumber` covers
  `Number(s)` and `toString()` on integers and decimal fractions.
- `CartStore` and `Optimistic` model src/context/CartProvider.tsx.
- `WishlistStore` models src/lib/store/wishList.store.ts.
- `Pagination`, `ProductsPage` and `BrandsPage` model
  src/components/products/Products.tsx and src/app/brands/page.tsx. The two
  files carry identical copies of the window and page-change code, so one
  model serves both.
- `SidebarFilters` models src/components/sidebar/sidebar.tsx and its
  duplicate sidebar2.tsx. Their filter logic is the same, and so is this
  model.
- `ProductQuery` models src/lib/services/product.service.ts.
- `SessionToken` models src/app/utilities/getMyToken.tsx. The payload is
  the second segment of the compact serialisation (section 7.1 of RFC 7515).
  It is converted from base64url to base64 (section 5 of RFC 4648).
- `RouteGuard` models src/middleware.ts.
- `Validation` models the zod schemas, written as character predicates.
- `AddressManager`, `ForgotPassword`, `Checkout`, `OrdersCheckout`,
  `OrderSummary`, `OrdersList` and `FlashSale` model the components of the
  same names.

## Model

| member | source | states |
|---|---|---|
| JsNumber.ParseShow | src/components/sidebar/sidebar.tsx:81-82 | A number written with `toString()` reads back under `Number` as the same number: integer, fraction or NaN. |
| JsNumber.ParseFraction | src/components/products/Products.tsx:25 | `Number("5.5")` is the fraction 5.5. |
| JsNumber.ParseTrimsSignAndZeros | src/components/products/Products.tsx:25 | White space, a plus sign and trailing fraction zeros are ignored: " +5.50 " reads as 5.5. |
| JsNumber.ParseZeroFraction | src/components/products/Products.tsx:25 | "3.0" reads as the integer 3. |
| JsNumber.ParseBlankAndJunk | src/components/sidebar/sidebar.tsx:169 | A blank field reads as 0, and "abc" and "." read as NaN. |
| JsNumber.FractionBetweenIntegers | src/components/products/Products.tsx:25 | A fraction lies strictly between the integer below it and the next one, so it is never an integer. |
| SearchParams.Get | src/components/products/Products.tsx:24-26 | `get` finds a value exactly when some pair has the name, and the value it returns is that of the first pair with the name. |
| SearchParams.Set | src/components/products/Products.tsx:36 | After `set`, the name reads as the value and occurs once. Every other name reads as before, and deleting the name afterwards gives the same list as before the set. When the name was present, the new pair takes the place of its first pair and the pairs before it are unchanged. When it was absent, the pair is appended. |
| SearchParams.Delete | src/components/products/Products.tsx:34 | After `delete`, the name is gone. Every other name keeps its value and count, and the kept pairs are an order-preserving subsequence. |
| Text.Split | src/components/sidebar/sidebar.tsx:79-80 | `split` gives at least one piece, none containing the separator. A string without the separator is a single piece. |
| Text.SplitJoin | src/components/sidebar/sidebar.tsx:34 | `join` then `split` gives back any list of separator-free elements, except the empty list, which joins to "" and splits back to [""]. |
| Text.JoinSplit | src/app/utilities/getMyToken.tsx:25 | `split` then `join` gives back every string. |
| CartStore.SetCount | src/context/CartProvider.tsx:126-132 | Every line whose resolved product id equals the target gets the new quantity. Every other line is unchanged. Length and order are kept. |
| CartStore.ReduceTotalIsTotal | src/context/CartProvider.tsx:133-140 | The running `reduce` equals the sum of price times quantity over the rewritten lines. |
| CartStore.OptimisticUpdate | src/context/CartProvider.tsx:117-140 | A null cart stays null. Otherwise the lines are rewritten, and the total is the sum over the new lines. Cart id, owner and line count are kept. |
| CartStore.OptimisticRemove | src/context/CartProvider.tsx:155-171 | A null cart stays null. Otherwise the kept lines are an order-preserving subsequence. None of them refers to the product, and every other line survives. `totalCartPrice` is untouched. |
| CartStore.UpdateItemQuantity | src/context/CartProvider.tsx:117-153 | Signed out, nothing changes. Otherwise the optimistic cart is shown. A failure rolls back to the exact snapshot; success settles on the server's cart. |
| CartStore.RemoveItem | src/context/CartProvider.tsx:155-182 | The same guard, optimistic removal, exact rollback and settling. |
| CartStore.ClearUserCart | src/context/CartProvider.tsx:184-197 | Signed out, nothing changes. Otherwise the cart shows null at once and stays null on success. A failure restores the snapshot. |
| CartStore.AddItemToCart | src/context/CartProvider.tsx:69-115 | Signed out: redirect to login with the cart untouched. Failure: error toast, cart untouched. Success: the cart is the re-fetched cart, or the add reply if the re-fetch fails. The toast appears unless `showToast` is false, and carries that cart. |
| CartStore.RefreshCart | src/context/CartProvider.tsx:56-67 | Signed out, nothing happens. Otherwise loading ends, and the cart becomes the reply or stays as it was on failure. |
| CartStore.OnTokenChange | src/context/CartProvider.tsx:48-54 | Signed out, the cart is dropped. Signed in, the cart is refreshed. |
| CartStore.AddAgreesWithRefresh | src/context/CartProvider.tsx:80-91 | After a successful add, the cart equals what `refreshCart` leaves for the same re-fetch reply. |
| CartStore.TokenEffectIdempotent | src/context/CartProvider.tsx:48-54 | Running the token effect again with the same token and reply changes nothing. |
| CartStore.RemoveCount | src/context/CartProvider.tsx:164-170 | After an optimistic remove, `cartCount` falls by exactly the number of lines that referred to the product. |
| CartStore.RemoveTwice | src/context/CartProvider.tsx:164-170 | Removing a product twice shows the same cart as removing it once. |
| CartStore.DecrementQuantity | src/app/cart/page.tsx:171 | The minus button never goes below 1. It decrements when the count is above 1. |
| CartStore.UpdateKeepsPositive | src/components/CartToast.tsx:85 | Updating with the clamped (positive) quantity keeps every line's quantity positive. |
| CartStore.ExampleOptimisticTotal | src/context/CartProvider.tsx:133-140 | Lines of 40 and 60 with quantity 1, raising the first to 3: the shown total is 180. |
| Optimistic.Run | src/context/CartProvider.tsx:117-153 | The prediction is shown. The snapshot is restored on failure, and the reply is used on success. |
| Lists.Toggle | src/lib/store/wishList.store.ts:65-68 | Membership of the id flips. A present id loses every occurrence, and every other element keeps its number of occurrences and its order. An absent id is appended at the end. |
| Lists.ToggleKeepsRepeats | src/lib/store/wishList.store.ts:65-68 | Toggling "b" in ["a", "a", "b"] gives ["a", "a"]: repeated other ids all stay. |
| Lists.ToggleTwice | src/lib/store/wishList.store.ts:65-68 | Toggling an absent id twice gives back the original list. |
| WishlistStore.Keys | src/lib/store/wishList.store.ts:43-52 | The ids are the products' `_id \|\| id`, in order, one per product. |
| WishlistStore.SetToken | src/lib/store/wishList.store.ts:20-22 | Only the token changes. |
| WishlistStore.LoadWishlist | src/lib/store/wishList.store.ts:24-58 | Guest: the ids are the stored list (or []), the products are [], and the count is the length. Signed in, success: ids equal the keys of the returned products, and the count is the reply's or 0. Signed in, failure: only `error` is set. Loading ends false. |
| WishlistStore.ToggleWishlist | src/lib/store/wishList.store.ts:60-94 | Guest: the ids toggle, storage holds the new list, the count is its length, and products are untouched. Signed in: remove is called when the id is a member, add otherwise, then reload. A failed call sets only `error`. |
| WishlistStore.GuestToggleTwice | src/lib/store/wishList.store.ts:63-73 | A guest toggling an absent id twice restores ids, count and products, and storage holds the original list. |
| WishlistStore.LoadKeepsSynced | src/lib/store/wishList.store.ts:39-57 | A signed-in load keeps ids equal to the keys of the products, whatever the reply. |
| WishlistStore.SignedInToggleFlips | src/lib/store/wishList.store.ts:75-93 | The flip of `isInWishlist` is assumed: its precondition says the reloaded list is the server applying the change. What it adds is that ids stay synced with products. |
| WishlistStore.GuestExample | src/lib/store/wishList.store.ts:63-73 | From empty, toggling "p1" gives ["p1"] with count 1. Toggling again gives [] with count 0. |
| Pagination.CurrentPage | src/components/products/Products.tsx:25 | Corrected reading of the page number from the URL: an integer `Number(...)` is taken as is. Anything else (NaN, or a fraction such as 5.5) reads as page 1. |
| Pagination.GetPages | src/components/products/Products.tsx:61-80 | No total: []. Total at most 5: pages 1..total. Otherwise exactly five slots from 1 to total, shaped by where the current page lies. Links are in range and strictly increasing, every ellipsis hides a page, and the current page appears. |
| Pagination.AsWrittenAgreesOnNumbers | src/components/products/Products.tsx:61-80 | For an integer current page, the window as written equals the integer window. |
| Pagination.NonIntegerPageShowsInWindow | src/components/products/Products.tsx:25 | As written, with 10 pages, `?page=abc` shows [1, …, NaN, …, 10] and `?page=5.5` shows [1, …, 5.5, …, 10]. |
| Pagination.FractionComparisons | src/components/products/Products.tsx:70-72 | A fractional page is `<= k` exactly when the integer below it is below k, and `>= k` exactly when that integer is at least k. |
| Pagination.WindowFromUrlIsCompressed | src/components/products/Products.tsx:61-80 | Corrected reading: with a page parameter that is not an integer read as 1, the window built from any URL is well formed for the page total. |
| Pagination.VisibleIffWindowHasTwoSlots | src/app/brands/page.tsx:136 | The bar is shown exactly when the window has at least two slots, that is when there is more than one page. |
| Pagination.ChangePage | src/components/products/Products.tsx:51-60 | Corrected `changePage`, on an integer page. Without metadata, or for a page below 1 or above the total, the URL is unchanged. Otherwise only `page` changes, and it reads back as the page. Identical at src/app/brands/page.tsx:48-55. |
| Pagination.ChangePageAsWritten | src/components/products/Products.tsx:51-60 | `changePage` on a JavaScript number. Both guard comparisons are false for NaN, so only metadata stops a NaN page. A page that passes is written with `toString()` and reads back as itself, and nothing else in the URL changes. Identical at src/app/brands/page.tsx:48-55. |
| Pagination.ChangePageAgreesOnIntegers | src/components/products/Products.tsx:51-60 | On an integer page the as-written handler is the integer `ChangePage`. |
| Pagination.NaNPassesGuard | src/components/products/Products.tsx:54 | With metadata, a NaN page always gets past the guard, and the URL then carries `page=NaN`. |
| Pagination.StepOnIntegerPage | src/components/products/Products.tsx:166-212 | From an integer page, Previous and Next are the integer `ChangePage` on the neighbouring page. Identical at src/app/brands/page.tsx:140-186. |
| Pagination.StepKeepsNonInteger | src/components/products/Products.tsx:166-212 | From a page that is NaN or a fraction, Previous and Next never write an integer page, and from NaN they keep NaN. |
| Pagination.NextFromNonIntegerPage | src/components/products/Products.tsx:202-212 | With 10 pages, Next on `?page=abc` writes `page=NaN`, and Next on `?page=5.5` writes `page=6.5`. |
| JsNumber.AddInt | src/components/products/Products.tsx:172 | `x + k` for an integer k: NaN stays NaN, an integer stays an integer, a fraction stays a fraction, and the value moves by exactly k. |
| ProductsPage.Defaults | src/components/products/Products.tsx:24-26 | An empty URL sorts by relevance, shows page 1 and uses limit 20. |
| ProductsPage.UpdateFilter | src/components/products/Products.tsx:30-40 | "relevance" deletes `sort`; any other value sets the key. No other parameter changes. |
| ProductsPage.SortSelectionRoundTrip | src/components/products/Products.tsx:30-40 | A chosen sort reads back as itself, and the empty choice reads back as relevance. |
| ProductsPage.LimitSelectionRoundTrip | src/components/products/Products.tsx:30-40 | `updateFilter` called with the key "limit" and a number sets it, and the limit reads back as that number. No handler on the page passes "limit": the page-size field at :130-138 has no change handler. |
| ProductsPage.BrandLinkIgnoredAsWritten | src/components/products/Products.tsx:47-50 | As written, `?brands=<id>` produces a request with no brand segment. |
| ProductsPage.FiltersReachQuery | src/components/products/Products.tsx:85-93 | With the corrected reading, the URL's brand and category reach the request. Sort is sent exactly when it is not relevance, and the page sent is the window's page. |
| ProductsPage.FiltersAgreeWithoutBrand | src/components/products/Products.tsx:47-50 | Without a brand parameter and with a numeric page, the corrected and as-written filters coincide. |
| BrandsPage.Defaults | src/app/brands/page.tsx:28-29 | An empty URL gives page 1 and limit 40. A limit written to the URL reads back unchanged. |
| BrandsPage.BrandLinkParams | src/app/brands/page.tsx:115 | A brand link's URL carries exactly `brands=<id>`. |
| BrandsPage.BrandLinkFiltersByBrand | src/app/brands/page.tsx:115 | Following a brand link, the corrected listing requests exactly that brand and no category. |
| SidebarFilters.UpdateUrlParams | src/components/sidebar/sidebar.tsx:32-37 | A non-empty list is stored comma-joined, and an empty list deletes the key. Other keys are unchanged. Shared with sidebar2.tsx:30-35. |
| SidebarFilters.ListRoundTrip | src/components/sidebar/sidebar.tsx:70-83 | Writing a comma-free list and parsing it back gives the list. |
| SidebarFilters.CheckboxToggle | src/components/sidebar/sidebar.tsx:254-260 | The id is removed if selected and appended otherwise. Only that selection changes, and the new list goes to the URL. |
| SidebarFilters.CheckboxThenSync | src/components/sidebar/sidebar2.tsx:234-240 | A checkbox click followed by the URL-change effect keeps the clicked selection. |
| SidebarFilters.SyncFromParams | src/components/sidebar/sidebar.tsx:70-83 | Selections are parsed from the URL. A price bound is overwritten only when its parameter is present and non-empty. Saved section flags win. |
| SidebarFilters.ClearFilter | src/components/sidebar/sidebar.tsx:39-60 | Categories and brands empty their selection and delete only their key. Price resets to 0 and 5000 and deletes both bounds, leaving every other key alone. |
| SidebarFilters.ClearThenSync | src/components/sidebar/sidebar2.tsx:37-58 | After a clear and the URL-change effect, the filter stays cleared and the price clear button is gone. |
| SidebarFilters.TypePrice | src/components/sidebar/sidebar.tsx:155-170 | A typed bound reads as `Number(value)`, fractions included, and an empty field as 0. Nothing else changes. Shared with sidebar2.tsx:143-158. |
| SidebarFilters.TypeApplySync | src/components/sidebar/sidebar.tsx:159-180 | Typing both bounds, applying them and letting the URL effect run reads back the numbers typed. |
| SidebarFilters.ApplyPrice | src/components/sidebar/sidebar.tsx:175-180 | Applying prices leaves every other key unchanged. |
| SidebarFilters.ApplyThenSync | src/components/sidebar/sidebar.tsx:175-180 | Applied bounds are read back exactly, and the price clear button appears. |
| SidebarFilters.ToggleSection | src/components/sidebar/sidebar.tsx:62-68 | Exactly the chosen section flag flips. |
| SidebarFilters.ToggleSectionTwice | src/components/sidebar/sidebar2.tsx:60-66 | Toggling a section twice restores the flags. |
| SidebarFilters.ShownBrands | src/components/sidebar/sidebar2.tsx:285 | The compact sidebar lists a prefix of at most 10 brands, and exactly 10 when there are enough. |
| ProductQuery.ProductsUrl | src/lib/services/product.service.ts:5-30 | The appending loop builds the endpoint followed by the rendered segments of the filters. |
| ProductQuery.AppendEach | src/lib/services/product.service.ts:20-24 | Appending one segment per value gives the tagged segments in input order. |
| ProductQuery.QueryOrder | src/lib/services/product.service.ts:14-30 | Segments come in the order limit, page, sort, gte, lte, categories, brands. |
| ProductQuery.SegmentsCarryValues | src/lib/services/product.service.ts:14-30 | Reading each field back gives limit and page once, optional fields when present, and the lists in order. |
| ProductQuery.QueryCarriesFilters | src/lib/services/product.service.ts:16-30 | Categories and brands reach the query in order. Sort appears exactly when truthy. A price bound appears exactly when truthy, so 0 is dropped. |
| ProductQuery.QueryStartsWithLimitAndPage | src/lib/services/product.service.ts:5-14 | The query opens with `limit=` and then `&page=`, with the given values or the defaults. |
| ProductQuery.DefaultQueryPrefix | src/lib/services/product.service.ts:6-7 | Without limit or page, the query opens with `limit=20` and `page=1`. |
| ProductQuery.ProductUrl | src/lib/services/product.service.ts:38-39 | The product URL is the products path followed by the id, which can be read back. |
| ProductQuery.ProductUrlInjective | src/lib/services/product.service.ts:38-39 | Different ids give different URLs. |
| SessionToken.SessionCookieValue | src/app/utilities/getMyToken.tsx:4-9 | The secure cookie wins whenever present, even when empty. Otherwise the standard cookie is used. |
| SessionToken.MyToken | src/app/utilities/getMyToken.tsx:11-19 | No decoding without a truthy session cookie. |
| SessionToken.SplitHasTwoPiecesIff | src/app/utilities/getMyToken.tsx:25-26 | Splitting on "." gives two or more parts exactly when the token contains a dot. |
| SessionToken.Normalise | src/app/utilities/getMyToken.tsx:29-32 | Every '-' becomes '+' and every '_' becomes '/', with the rest kept. 0 to 3 '=' are appended to a multiple of four. |
| SessionToken.PayloadBase64 | src/app/utilities/getMyToken.tsx:25-32 | No payload exactly when the token has no dot. Otherwise it is the normalised second segment. |
| SessionToken.PayloadIsSecondSegment | src/app/utilities/getMyToken.tsx:27 | The segment read lies between the first and second dots. The token is rebuilt from its segments. |
| SessionToken.DecodeUserTokenPayload | src/app/utilities/getMyToken.tsx:23-40 | A token without a dot gives null. Otherwise the result is the decoder's result on the normalised payload, with a failure giving null. |
| SessionToken.NormaliseUndoesBase64Url | src/app/utilities/getMyToken.tsx:29-32 | Normalising the base64url form of a base64 text gives that text back, padding included. |
| RouteGuard.Guard | src/middleware.ts:4-22 | A redirect happens exactly for paths starting with "/cart" without a session cookie. It goes to "/login" with `callbackUrl` set to the path and other parameters kept. Every other request passes. |
| RouteGuard.SessionValueIffGuardPasses | src/middleware.ts:9-11 | The token helper finds a session cookie value (src/app/utilities/getMyToken.tsx:4-9) exactly when the middleware sees a session. Whenever the helper yields a token, the request passes. |
| RouteGuard.EitherCookieSuffices | src/middleware.ts:9-11 | Either session cookie alone lets the request through. |
| Validation.CheckStrongPassword | src/lib/validations/forgotPassword.schema.ts:19-24 | The scan accepts exactly: 8 or more characters from the admitted set, with a lowercase letter, an uppercase letter, a digit and a symbol. |
| Validation.EmailIssues | src/lib/validations/forgotPassword.schema.ts:4-6 | No issue exactly when the email rule accepts, and one email issue otherwise. |
| Validation.ResetCodeIssues | src/lib/validations/forgotPassword.schema.ts:9-14 | No issue exactly when the code is six digits. A wrong length draws both issues. |
| Validation.NewPasswordIssues | src/lib/validations/forgotPassword.schema.ts:27-30 | With valid fields, the result is empty when the passwords agree. Otherwise it is the mismatch issue on `confirmPassword`. |
| Validation.NewPasswordAccepted | src/lib/validations/forgotPassword.schema.ts:17-30 | The step accepts exactly a strong password typed twice. |
| Validation.RegisterIssues | src/lib/validations/register.schema.ts:17-20 | With valid fields, a mismatch is reported on `rePassword`, and matching passwords pass. |
| Validation.RegisterAccepted | src/lib/validations/register.schema.ts:3-20 | Registration accepts exactly: names of 3 or more characters, a valid email, a strong password typed twice, and "01" plus 9 digits. |
| Validation.AddressIssues | src/components/AddressManager.tsx:26-31 | No issue exactly when name ≥ 2, details ≥ 5, city ≥ 2 and the phone matches `^01[0-9]{9}$`. Issues name only those fields. |
| Validation.ContactIssues | src/app/contact/page.tsx:9-20 | No issue exactly when name ≥ 2, the email is valid, the phone matches its pattern and the message has 10..1000 characters. |
| Validation.ContactPhoneLengthImplied | src/app/contact/page.tsx:12-15 | A phone shorter than 6 characters also fails the phone pattern. |
| Validation.ContactBodyLines | src/app/contact/page.tsx:40 | The body splits into "Name: …", "Email: …", "Phone: …", "" and "Message:", followed by the message's own lines. |
| AddressManager.FetchAddresses | src/components/AddressManager.tsx:61-71 | Loading ends. The list becomes the reply, or stays on failure. The form state is kept. |
| AddressManager.OnSubmit | src/components/AddressManager.tsx:73-89 | Editing calls update; otherwise add. A failure changes nothing. Success clears the edit, blanks and hides the form, and refetches. |
| AddressManager.SubmitForm | src/components/AddressManager.tsx:26-31 | The submit handler runs exactly when the draft passes the address schema. |
| AddressManager.HandleEdit | src/components/AddressManager.tsx:91-98 | Records the id, copies the four fields and shows the form. |
| AddressManager.HandleCancel | src/components/AddressManager.tsx:112-116 | Hides the form, clears the edit and blanks the draft. |
| AddressManager.EditThenCancel | src/components/AddressManager.tsx:112-116 | Editing then cancelling is the same as cancelling. |
| AddressManager.EditThenSave | src/components/AddressManager.tsx:73-89 | Editing a valid address and saving sends an update for its id with its own fields. Success returns to adding mode with the form hidden and blank. |
| AddressManager.AddingStaysAdding | src/components/AddressManager.tsx:75-82 | A submit while adding never enters edit mode. |
| AddressManager.HandleDelete | src/components/AddressManager.tsx:100-110 | Nothing without confirmation. Otherwise delete is called and success refetches. |
| ForgotPassword.HandleSendCode | src/components/ForgotPasswordModal.tsx:62-74 | Success records the email and moves to the code step. A failure changes nothing but the loading flag. |
| ForgotPassword.HandleVerifyCode | src/components/ForgotPasswordModal.tsx:77-88 | Success moves to the password step, and failure stays. The email is kept. |
| ForgotPassword.HandleResetPassword | src/components/ForgotPasswordModal.tsx:91-102 | Resets with the recorded email. Success returns to the email step with the email cleared; failure stays. |
| ForgotPassword.HandleClose | src/components/ForgotPasswordModal.tsx:52-59 | Back to the email step with the email cleared. |
| ForgotPassword.Back | src/components/ForgotPasswordModal.tsx:185 | Back to the email step, keeping the email. |
| ForgotPassword.SubmitEmail | src/components/ForgotPasswordModal.tsx:132-134 | The send handler runs exactly from the email step with a valid email. |
| ForgotPassword.SubmitCode | src/components/ForgotPasswordModal.tsx:162-164 | The verify handler runs exactly from the code step with a six-digit code. |
| ForgotPassword.SubmitPassword | src/components/ForgotPasswordModal.tsx:202 | The reset handler runs exactly from the password step when both passwords are valid and equal. |
| ForgotPassword.SubmissionsKeepRecorded | src/components/ForgotPasswordModal.tsx:33-35 | Past the email step, the recorded email is always one the email rule accepted. |
| ForgotPassword.FailureKeepsStep | src/components/ForgotPasswordModal.tsx:62-102 | A failed call never changes the step. |
| ForgotPassword.HappyPath | src/components/ForgotPasswordModal.tsx:62-102 | Send, verify and reset: the reset goes to the first step's email, and the dialog ends as opened. |
| ForgotPassword.BackThenResend | src/components/ForgotPasswordModal.tsx:185 | Going back and sending to another address makes the reset use the new address. |
| Checkout.LoadAddresses | src/app/checkout/CheckoutForm.tsx:55-70 | Signed out, no call. Otherwise a non-empty list selects its first address, and a failure keeps the form. Loading ends. |
| Checkout.AddAddress | src/app/checkout/CheckoutForm.tsx:72-100 | No call unless name, details and phone are non-empty (city is not checked). Success replaces the list, selects the last address, blanks the draft and hides the form. |
| Checkout.Find | src/app/checkout/CheckoutForm.tsx:103-112 | Finds an address exactly when one with that id is listed, and returns a listed address with that id. |
| Checkout.FindIsFirst | src/app/checkout/CheckoutForm.tsx:103-112 | The address found is the first with that id. |
| Checkout.PlaceOrder | src/app/checkout/CheckoutForm.tsx:102-149 | A call is made exactly with a cart and a selected, listed address. Card sends details, phone and city, and the page origin's `/orders` as the return address; cash sends the id. Only a failure resets `submitting`. Success navigates. |
| Checkout.LoadThenPlace | src/app/checkout/CheckoutForm.tsx:55-70 | After loading a non-empty list, placing an order with a cart makes a call. |
| Checkout.AddThenPlaceCash | src/app/checkout/CheckoutForm.tsx:72-100 | After adding, a cash order is sent for the new last address. |
| Checkout.TotalPrice | src/app/checkout/CheckoutForm.tsx:153 | The shown total is the cart's `totalCartPrice`, and 0 without a cart. |
| Checkout.ShownTotalAfterUpdate | src/app/checkout/CheckoutForm.tsx:153 | After an optimistic quantity change, the shown total is the sum of price times quantity over the new lines. |
| Checkout.ItemCount | src/app/checkout/CheckoutForm.tsx:152-155 | The item count is the store's `cartCount`, and 0 without a cart. |
| OrdersCheckout.LoadAddresses | src/app/orders/CheckoutForm.tsx:51-67 | For a reply in the `{data}` shape the form expects, the list is `data` or []. A non-empty list selects its first address. |
| OrdersCheckout.LoadAgreesWithCheckout | src/app/orders/CheckoutForm.tsx:51-67 | For a reply that carries its list in `data`, the result equals the other checkout form's load of that list (src/app/checkout/CheckoutForm.tsx:55-70). |
| OrdersCheckout.ServiceLoadIsEmpty | src/lib/services/address.service.ts:13-27 | The imported `getAllAddresses` resolves to a bare array, which has no `data`. So a signed-in load always leaves the list empty and the selection unchanged. |
| OrdersCheckout.AddedAddress | src/app/orders/CheckoutForm.tsx:83-87 | The added address is the last array element, or the object itself. It is absent exactly for an empty array or no data. |
| OrdersCheckout.EmptyReplyAppendsUndefined | src/app/orders/CheckoutForm.tsx:83-87 | As written, an empty-array reply appends an undefined entry to the list. |
| OrdersCheckout.EveryServiceAddAppendsUndefined | src/lib/services/address.service.ts:32-52 | The imported `addAddress` resolves to a bare array, so `data` is missing. As written, every successful add keeps the previous entries and appends an undefined one. |
| OrdersCheckout.AddAddress | src/app/orders/CheckoutForm.tsx:69-99 | Corrected handler: the same guard as the other checkout. A returned address is appended and selected. Without one, the list is unchanged (as written, `undefined` is appended instead). |
| OrdersCheckout.AddAgreesWhenAddressReturned | src/app/orders/CheckoutForm.tsx:83-87 | When the reply carries an address, the corrected list equals the list as written. |
| OrdersCheckout.PlaceOrder | src/app/orders/CheckoutForm.tsx:101-141 | A call is made exactly with a cart and a selected id, and `submitting` always ends false. Card goes to the payment url or the confirmation page; cash goes to the confirmation page with the order id. |
| OrdersCheckout.PlaceCoversCheckout | src/app/orders/CheckoutForm.tsx:101-141 | Every order the other checkout form sends, this form sends too: for the same cart, and for cash with the same address id. |
| OrdersCheckout.PlacesForUnknownId | src/app/orders/CheckoutForm.tsx:102-105 | This variant places an order even when the selected id is not in the list. |
| OrderSummary.Preview | src/components/checkout/OrderSummary.tsx:50 | The preview is a prefix of at most 5 lines. |
| OrderSummary.MoreItems | src/components/checkout/OrderSummary.tsx:60-62 | "+N more" appears exactly when the count exceeds 5, with N the count minus 5. |
| OrderSummary.LineLabel | src/components/checkout/OrderSummary.tsx:53 | An embedded product shows its title, and a bare id shows "Product". |
| OrderSummary.PreviewAndMoreCoverAll | src/components/checkout/OrderSummary.tsx:50 | The previewed lines plus N account for every line. |
| OrderSummary.ReadyHidesHint | src/components/checkout/OrderSummary.tsx:113 | When ready to order, the address hint is hidden. |
| OrderSummary.ReadyPassesCartGuard | src/components/checkout/OrderSummary.tsx:32-37 | If the summary's button is enabled, placing the order makes a call. |
| OrdersList.OrderStatus | src/app/orders/OrdersList.tsx:86-90 | Delivered when delivered; else paid when paid; else pending. Each holds if and only if its condition does. |
| OrdersList.StatusColor | src/app/orders/OrdersList.tsx:74-84 | Known statuses get their colour, and any other gets gray. |
| OrdersList.BadgeColors | src/app/orders/OrdersList.tsx:183-187 | The badge is green for delivered or paid orders, and yellow otherwise. |
| OrdersList.ToggleExpanded | src/app/orders/OrdersList.tsx:100-110 | Exactly one id's membership flips. |
| OrdersList.ToggleExpandedTwice | src/app/orders/OrdersList.tsx:100-110 | Toggling twice restores the set. |
| OrdersList.ReorderIds | src/app/orders/OrdersList.tsx:54-58 | The ids are the items' product keys, with empty ones dropped and order kept. Every non-empty key is present. |
| OrdersList.HandleReorder | src/app/orders/OrdersList.tsx:49-72 | No ids aborts with an error and no call. Otherwise the ids are sent, and success goes to the cart. |
| OrdersList.NoProductsNoCall | src/app/orders/OrdersList.tsx:55-58 | An order whose items carry no product never calls the server. |
| OrdersList.ShortId | src/app/orders/OrdersList.tsx:150 | The last (up to) 8 characters, upper-cased. |
| OrdersList.ItemNoun | src/app/orders/OrdersList.tsx:163 | "item" exactly for a count of 1, and "items" otherwise. |
| FlashSale.NextSaleEnd | src/components/home/FlashSale.tsx:23-28 | The next end lies after now and within one cycle of it, on a cycle boundary from the start. |
| FlashSale.Remaining | src/components/home/FlashSale.tsx:28-30 | The remaining time is positive and at most one cycle (259 200 000 ms). |
| FlashSale.CalculateTimeLeft | src/components/home/FlashSale.tsx:17-42 | Hours < 24, minutes < 60, seconds < 60, days ≤ 3. The shown time is within one second below the remaining time. |
| FlashSale.Decomposes | src/components/home/FlashSale.tsx:36-41 | The day/hour/minute/second split of a positive duration recombines to it, up to the dropped milliseconds. |
| FlashSale.FullCycleAtBoundary | src/components/home/FlashSale.tsx:23-30 | Exactly on a cycle boundary the countdown shows 3 days. |
| FlashSale.Pad2 | src/components/home/FlashSale.tsx:83 | The digits spell the value with at least two digits, and exactly two below 100. |

Definitions without a row of their own, and the rows that state them:

- `Catalog.Key`, `Catalog.RefId` (src/context/CartProvider.tsx:127-130): `CartStore.SetCount`, `WishlistStore.Keys`, `OrdersList.ReorderIds`.
- `CartStore.CartCount` (src/context/CartProvider.tsx:45): `CartStore.RemoveCount`, `Checkout.ItemCount`.
- `WishlistStore.IsInWishlist` (src/lib/store/wishList.store.ts:96-98): `WishlistStore.SignedInToggleFlips`.
- `OrderSummary.ReadyToOrder` (src/components/checkout/OrderSummary.tsx:32-37) and `OrderSummary.AddressHint` (:113): `OrderSummary.ReadyHidesHint`, `OrderSummary.ReadyPassesCartGuard`.
- `OrdersList.ItemCount` (src/app/orders/OrdersList.tsx:163): `OrdersList.ItemNoun`.
- `JsNumber.Parse`, `JsNumber.Show`: the `JsNumber` rows. `Text.Join`: `Text.SplitJoin`, `Text.JoinSplit`.
- `Pagination.CurrentPageAsWritten`, `Pagination.GetPagesAsWritten`: `Pagination.AsWrittenAgreesOnNumbers`, `Pagination.NonIntegerPageShowsInWindow`.
- `Pagination.Below`, `Pagination.Above`, `Pagination.Rejected` (src/components/products/Products.tsx:54) and `Pagination.Step` (src/components/products/Products.tsx:172, 208): `Pagination.ChangePageAsWritten`, `Pagination.StepOnIntegerPage`, `Pagination.StepKeepsNonInteger`, `Pagination.NextFromNonIntegerPage`.
- `ProductsPage.FiltersAsWritten`, `ProductsPage.Filters`: `ProductsPage.BrandLinkIgnoredAsWritten`, `ProductsPage.FiltersReachQuery`, `ProductsPage.FiltersAgreeWithoutBrand`.
- `OrdersCheckout.EntriesAfterAddAsWritten`: `OrdersCheckout.EmptyReplyAppendsUndefined`, `OrdersCheckout.EveryServiceAddAppendsUndefined`, `OrdersCheckout.AddAgreesWhenAddressReturned`.

## Left out

- The network calls in src/lib/services/*.ts: their outcomes are parameters.
- `localStorage`, `JSON.parse`, `Buffer` base64 decoding, next-auth's `decode`, cookies and `encodeURIComponent` are foreign calls. They appear as values or functions passed in.
- The guest `JSON.parse` in `loadWishlist` sits outside the `try`, so malformed stored data throws. The model takes the stored list as already parsed.
- Email syntax is decided by zod's `.email()`. It is the `isEmail` predicate parameter.
- react-hook-form: `reset()` is modelled as blank fields.
- Toasts, routing side effects, timers (including the contact page's status timer and the countdown's interval), carousels and pure presentation components are left out.
- Concurrency between overlapping async actions is left out: one action at a time, and `Promise.all` in the order pages is not modelled.
- `clearWishlist`, the wishlist `{silent}` option and optimistic wishlist rollback are not implemented by the store, so they are not modelled.
- The signed-in wishlist toggle is not optimistic in the code: it calls remove or add and reloads. The model follows the code. The `count ?? ids.length` fallback is dead code, since `count` is already `res.count \|\| 0`.
- Cart and product prices are integers, and `toFixed` formatting is left out.
- JsNumber.Parse: `Number(s)` is modelled for trimmed, optionally signed decimal integers and fractions. Exponent notation ("1e1"), hex, binary and octal prefixes, and "Infinity" read as NaN here, where JavaScript gives a number. A hand-typed URL can contain them.
- JsNumber.Show: fractions are written positionally. JavaScript switches to exponent notation below 1e-6 and from 1e21 up.
- Numbers are exact integers and decimals. JavaScript's double rounding (integers above 2^53, long fractions) is left out.
- Pagination.CurrentPage and Pagination.WindowFromUrlIsCompressed are the corrected reading, and their "from any URL" holds for the spellings `JsNumber.Parse` covers. For `?page=1e1`, JavaScript gives page 10, while the model reads page 1.
- Lengths count characters, not UTF-16 code units.
- The Previous and Next buttons are styled unclickable (`pointer-events-none`) exactly when the page is 1 or the last page. That styling is not modelled; the `changePage` guard rejects those two clicks anyway.
- SearchParams: `toString()` and its percent-encoding are not modelled. The URL is kept as its list of pairs, which the storefront writes and reads back through the same object.
- Categories and brands are passed to the service as one comma-joined value, as the product page passes them.
- Validation.NewPasswordIssues: zod's object refine timing depends on the zod version. The model reports the mismatch only once the field rules pass, so the ensures fixes the result only when the fields are valid. Acceptance (`NewPasswordAccepted`) is the same under either timing.
- Validation.RegisterIssues: stated like `NewPasswordIssues`, for the same reason.
- Validation.MailtoUrl and Validation.ContactSubject are plain templates with no row. The body's line structure is stated by `ContactBodyLines`.
- FlashSale.CalculateTimeLeft: the source uses floating-point `Math.floor` on millisecond counts. The model uses integer division, which agrees at these magnitudes; that agreement is not proved. The all-zero branch is modelled but unreachable, since the remaining time is always positive.
- OrdersList.StatusColor ignores keys inherited from `Object.prototype`.
- OrdersList.ShortId: `toUpperCase` is modelled for ASCII letters only. Order ids are hexadecimal, so nothing is lost.
- OrdersCheckout.LoadAddresses and OrdersCheckout.AddAddress take replies in the `{data}` shape the form expects. The address service the form imports resolves to bare arrays, so with it `data` is always missing. `ServiceLoadIsEmpty` and `EveryServiceAddAppendsUndefined` state what the form does then.
- RouteGuard.Guard models the function body (`startsWith("/cart")`). The exported matcher `["/cart"]` invokes the middleware only for "/cart" itself, so deeper paths never reach it.
- Checkout.PlaceOrder: after success `submitting` stays true, as in the code. The page is expected to navigate away.

## Findings

| source | as written | input that shows it | evidently intended | confidence | as-written member | corrected member |
|---|---|---|---|---|---|---|
| src/components/products/Products.tsx:48 | The listing reads the brand from the `brand` parameter, but the sidebar (sidebar.tsx:326) and the brand links (brands/page.tsx:115) write `brands`. | `/products?brands=b1` requests the unfiltered listing. | Read `brands`, so a chosen brand filters the request. | high (not executed) | ProductsPage.BrandLinkIgnoredAsWritten | ProductsPage.FiltersReachQuery |
| src/components/products/Products.tsx:25 | `Number(params.get("page") \|\| 1)` is NaN for a non-numeric parameter, and a fraction for `?page=5.5`. Both window comparisons then fail, and the window shows that value as a page link. The `changePage` guard (line 54) also lets NaN through, so Next writes `page=NaN`, and on a fraction it writes the next fraction. | With 10 pages, `?page=abc` gives [1, …, NaN, …, 10] and Next writes `page=NaN`; `?page=5.5` gives [1, …, 5.5, …, 10] and Next writes `page=6.5` (`Pagination.NextFromNonIntegerPage`). | Fall back to page 1 for anything that is not an integer, so the window only links to real pages. | high (not executed) | Pagination.NonIntegerPageShowsInWindow | Pagination.WindowFromUrlIsCompressed |
| src/app/orders/CheckoutForm.tsx:83-87 | `Array.isArray(data) ? data[data.length-1] : data` yields `undefined` on an empty array or a missing `data`. That is appended to the address list, and reading its `_id` next throws. The imported `addAddress` (src/lib/services/address.service.ts:32-52) resolves to a bare array, so `data` is always missing. | Any successful add. | Append and select only when an address came back. | medium (not executed); this form is not used by any page | OrdersCheckout.EveryServiceAddAppendsUndefined | OrdersCheckout.AddAgreesWhenAddressReturned |
