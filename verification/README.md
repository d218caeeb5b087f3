# ShopHub session model

ShopHub is a single-page storefront demo: the visitor signs in with any
e-mail and password, browses a fixed catalog filtered by category, fills a
cart, enters shipping and card details and sees a success page. All state
lives in the `App` component. This project models that state and its
handlers in Dafny:

- `Catalog` (`catalog.dfy`): the product record, the eight built-in
  products with prices in integer cents, the category buttons (`"All"`
  followed by each category once, in first-seen order) and the category
  filter.
- `CartStore` (`cart.dfy`): cart lines, `addToCart`, `updateQuantity`,
  `removeFromCart`, and the unit count and total derived from the lines.
- `Account` (`account.dfy`): the signed-in user and the display name,
  which is the part of the e-mail before the first `@`.
- `CheckoutForms` (`checkout.dfy`): the seven-field checkout draft and its
  readiness check.
- `Storefront` (`storefront.dfy`): the session record (page, optional user,
  cart, selected category, checkout draft, sign-in inputs), one pure
  function per handler, the user actions, and `Step`, which fires an action
  only when the button or input that triggers it is rendered on the
  current page. Actions whose control is not on screen leave the session
  unchanged.
- `Seqs` (`seqs.dfy`): order-preserving filtering, the insertion-ordered
  de-duplication that `Array.from(new Set(...))` performs, and the
  subsequence and first-occurrence notions used to state them.

The central facts proved:

- The cart invariant holds after every mutator. It says product ids are
  distinct and every quantity is at least 1.
- Each mutator's effect is stated exactly, along with its effect on the
  count and the total.
- A session invariant holds in every state reachable from the start. It
  says a user is present exactly when the page is not the sign-in page, and
  the cart is empty on the sign-in page. The cart is non-empty on the
  checkout and success pages. The user's name is derived from the e-mail,
  and the cart holds only catalog products.
- The page changes only along the transitions the rendered buttons offer.

Points where the code behaves differently from what a reader might expect, and which the model keeps:

- The checkout form is never reset. Entering checkout, paying and
  continuing all keep it. The contract of `Step` states that only editing a field changes
  the form.
- `handleCheckout` itself does not check the page, and no handler checks
  that a user is signed in. That guarding comes only from what is rendered:
  the header buttons need a user, and the checkout button exists only for a
  non-empty cart. `Available` models this rendering, and the session
  invariant shows that no reachable state escapes it.
- `updateQuantity` changes every line whose id matches, because it uses
  `map`. Under the cart invariant exactly one line matches
  (`UpdateQuantityExisting`).
- Apart from signing out, only the success page's "Continue Shopping"
  button empties the cart. The header is also drawn on the success page, and
  its Products and Cart buttons keep the paid items (`PaidCartKeptByHeader`).
  The model keeps this behaviour.
- A catalog category literally named `"All"` would be listed twice. Only
  the categories after the leading `"All"` are distinct.

## Model

| member | source | states |
|---|---|---|
| Seqs.Filter | src/App.tsx:99-113 | the result keeps exactly the elements that satisfy the predicate (membership both ways), and is no longer than the input |
| Seqs.FilterIsSubsequence | src/App.tsx:99-113 | filtering keeps the relative order of the elements it keeps |
| Seqs.FilterMultiset | src/App.tsx:99-113 | every kept value occurs as often as in the input; rejected values do not occur |
| Seqs.FilterConcat | src/App.tsx:99-113 | filtering distributes over concatenation |
| Seqs.DedupElements | src/App.tsx:108 | the de-duplicated list has no repeats and contains exactly the input's values |
| Seqs.DedupFirstSeenOrder | src/App.tsx:108 | the de-duplicated list is ordered by each value's first occurrence in the input |
| Seqs.DedupAbsorbs | src/App.tsx:108 | values already seen do not change the de-duplicated list |
| Catalog.Categories | src/App.tsx:108 | the category list starts with "All"; the rest lists each catalog category exactly once, no other label, in first-occurrence order |
| Catalog.MockCategories | src/App.tsx:24-33 | the built-in catalog gives the buttons All, Electronics, Fashion, Home |
| Catalog.FilteredProducts | src/App.tsx:111-113 | "All" shows the whole catalog; any other selection shows exactly the catalog products of that category |
| Catalog.FilteredProductsExact | src/App.tsx:111-113 | a selected category shows its products in catalog order with their catalog multiplicity, and nothing else |
| CartStore.AddToCart | src/App.tsx:77-87 | adding keeps the cart invariant; a present product keeps the length, gains one unit on its line and leaves other lines untouched; an absent one is appended with quantity 1 |
| CartStore.AddToCartExisting | src/App.tsx:79-83 | under the invariant, adding a present product changes exactly that one line, by one unit |
| CartStore.AddTwiceOneLine | src/App.tsx:77-87 | adding a new product twice yields one line with quantity 2, never two lines |
| CartStore.AddToCartFigures | src/App.tsx:77-105 | adding raises the unit count by exactly 1; a new product raises the total by its price |
| CartStore.AddExistingFigures | src/App.tsx:79-105 | adding a product already in the cart raises the count by 1 and the total by the price of its line |
| CartStore.UpdateQuantity | src/App.tsx:90-96 | length, order and products are kept; other lines are untouched; a matching line moves by the change when that stays at least 1 and is set to exactly 1 otherwise; an absent id changes nothing; the invariant is kept |
| CartStore.UpdateQuantityExisting | src/App.tsx:90-96 | under the invariant, updating a present product changes exactly its line, to max(1, q + change) |
| CartStore.UpdateQuantityFigures | src/App.tsx:90-105 | updating moves the count and the total by exactly the clamped change of that line |
| CartStore.QuantityFloor | src/App.tsx:93 | a change of -5 on a line of 2 leaves quantity 1 |
| CartStore.RemoveFromCart | src/App.tsx:99-101 | no line with the id remains; the other lines remain and keep their relative order; removing an absent id changes nothing |
| CartStore.RemoveFromCartValid | src/App.tsx:99-101 | removing keeps the cart invariant |
| CartStore.RemoveFromCartMultiset | src/App.tsx:99-101 | on any cart, each line without the id keeps its multiplicity and lines with the id are gone |
| CartStore.RemoveLine | src/App.tsx:99-101 | under the invariant, removal deletes exactly the one line for the id and keeps everything around it |
| CartStore.RemoveFromCartFigures | src/App.tsx:99-105 | removing a line subtracts exactly its units from the count and its price times quantity from the total |
| CartStore.SumConcat | src/App.tsx:104-105 | the running sum over two concatenated carts is the sum of their sums |
| CartStore.FiguresOfValid | src/App.tsx:104-105 | a valid cart counts at least one unit per line, never costs less than 0, and counts 0 exactly when empty |
| CartStore.EmptyCartFigures | src/App.tsx:104-105 | an empty cart has count 0 and total 0 |
| CartStore.TwoPlusOne | src/App.tsx:104-105 | two units of one product and one of another give count 3 and twice the first price plus the second |
| CartStore.MockCartFigures | src/App.tsx:104-105 | products 1, 1, 2 of the built-in catalog give count 3 and total 35997 cents |
| Account.DisplayName | src/App.tsx:60 | the name is a prefix of the e-mail without `@`; it is the whole e-mail when there is no `@`, and is otherwise followed by the first `@` |
| Account.DisplayNameUnique | src/App.tsx:60 | any prefix without `@` that ends at an `@` or at the end of the e-mail is the display name |
| Account.DisplayNameExample | src/App.tsx:60 | "a@b.com" gives "a" |
| Account.SignedIn | src/App.tsx:60-61 | the user record keeps the e-mail; its name is the `@`-free prefix of it that ends at the first `@` or at the end, which is the display name |
| CheckoutForms.Set | src/App.tsx:418-469 | typing into one input replaces that field and keeps the other six |
| CheckoutForms.ReadyIffNoEmptyField | src/App.tsx:117-119 | the form is ready exactly when none of the seven fields is empty |
| Storefront.HandleLogin | src/App.tsx:58-66 | the session changes exactly when both e-mail and password are non-empty; it then shows the products, sets the user with the derived name and clears both inputs; the cart, category and form are kept |
| Storefront.HandleLogout | src/App.tsx:69-74 | signing out leaves no user, an empty cart and the sign-in page; category, form and inputs are kept |
| Storefront.HandleCheckout | src/App.tsx:116-122 | a complete form leads to the success page; an incomplete one changes nothing; user, cart, form, category and sign-in inputs are kept |
| Storefront.ContinueShopping | src/App.tsx:522-525 | continuing shows the products with an empty cart, keeping user, form, category and sign-in inputs |
| Storefront.Step | src/App.tsx:135-529 | a rendered control does what its handler does: the Products and back buttons show the products, the Cart button shows the cart, checkout shows the checkout page, a category button selects that category, Add/±/Remove apply the cart operation, an input sets its form field, and sign-in, sign-out, payment and continue run their handlers; a control that is not rendered changes nothing; only editing a field on the checkout page changes the form; only a category button on the products page changes the category; only sign-out, continue, and the cart buttons on the products and cart pages change the cart |
| Storefront.StepInv | src/App.tsx:36-122 | every action keeps the session invariant |
| Storefront.AddKeepsInv | src/App.tsx:298-311 | adding a shown product keeps the session invariant, in particular only catalog products enter the cart |
| Storefront.RemoveKeepsInv | src/App.tsx:373 | the remove button keeps the session invariant |
| Storefront.RunInv | src/App.tsx:36-122 | every run of actions from a session satisfying the invariant ends in one satisfying it |
| Storefront.ReachableInv | src/App.tsx:36-55 | every session reachable from the initial state satisfies the invariant |
| Storefront.AuthGate | src/App.tsx:135-145 | on the sign-in page, only a sign-in with both inputs non-empty leaves it; the cart stays empty, and a user is present exactly off the sign-in page |
| Storefront.PageTransitions | src/App.tsx:135-525 | the page changes only by sign-in, sign-out, the header's products and cart buttons, the empty cart's back button, checkout from a non-empty cart, payment with a complete form, or continuing from success with the cart emptied |
| Storefront.PaidCartKeptByHeader | src/App.tsx:144 | from the success page, the header's cart button shows the paid, non-empty cart, and checkout can be entered again |
| Storefront.SubmitPaymentGuard | src/App.tsx:116-122 | on the checkout page, paying reaches success exactly when the form is complete; otherwise nothing changes |
| Storefront.SignInScenario | src/App.tsx:58-66 | typing a@b.com and x and signing in shows the products to user "a" |
| Storefront.SignOutEmptiesCart | src/App.tsx:69-74 | signing out of a non-empty cart and back in finds the cart empty |
| Storefront.EmptyCvvScenario | src/App.tsx:116-122 | an empty security code alone blocks payment |
| Storefront.ContinueScenario | src/App.tsx:522-525 | continuing after success shows the products with count 0 for the same user |

## Left out

- Rendering, styling, icons and image URLs (`src/App.tsx:124-554`) are presentation. Image fields of the built-in products are empty strings.
- The mobile menu flag (`src/App.tsx:39, 170, 184, 193`) is a display transient. The mobile Products and Cart buttons are the same actions as the desktop ones.
- Prices are integer cents instead of floating point, so totals are exact. `toFixed(2)` formatting is not modelled.
- React's `useState` mechanics are not modelled: each handler is one pure function from session to session.
- The `default` branch of `renderPage` cannot be reached, because `Page` is a closed datatype.
- CartStore.UpdateQuantity: the change is an integer. The rendered buttons only pass -1 and +1, so fractional changes are not modelled.
- The Enter key in the sign-in inputs calls the same handler as the button and is modelled as the same action.
