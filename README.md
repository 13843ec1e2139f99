# Shopping-cart store

A model of the cart hook of a React storefront (`src/hooks/useCart.tsx`). The
hook keeps an ordered list of products, each with an identifier and an
`amount` (its quantity in the cart). It offers three operations:

- `addProduct` adds one unit of a product. It first asks the stock endpoint
  how many units exist.
- `removeProduct` drops a product from the cart.
- `updateProductAmount` overwrites a product's quantity. It also asks the
  stock endpoint first.

After every successful operation the whole new cart is written to one
browser-storage slot. The cart is read back from that slot when the provider
starts.

The project has two modules:

- `Cart` (cart.dfy) is the pure part. It holds the records (`Product`,
  `Outcome`, `Step`) and the list operations the hook uses. `find` is `Find`,
  `some` is `HasId`, `filter` is `Without` and the amount-setting `map` is
  `SetAmount`. Each cart operation is also a function (`AddStep`, `RemoveStep`,
  `UpdateStep`) that gives the reported outcome and the resulting cart. The
  lemmas state the cart's properties about these functions.
- `CartProvider` (cart_store.dfy) is the stateful part. Class `CartStore` has
  a `cart` field (the React state) and a `stored` field (the storage slot). Its
  methods perform the source's steps on a copy of the cart. Each method is
  proved to return the outcome and to leave the cart given by its function in
  `Cart`. On success it writes the new cart to `stored`; on failure it changes
  neither field. `InSync()` says that reloading the slot gives back the cart in
  memory. The constructor establishes it and every method preserves it.

Inputs from the outside world are parameters:

- The stock lookup is `stock: Option<int>`. `None` means the request failed.
- The product lookup is `fetched: Option<Product>`. The source only uses it
  when the identifier is not yet in the cart.
- A failed lookup is reported as `Error` and changes nothing. This is the
  source's `catch` branch.
- Notifications (toasts) appear only as the returned `Outcome`.

The model follows the code where it differs from what a reader might expect
of a cart:

- One might expect `updateProductAmount` to reject a requested amount above
  the stock. Line 102 tests the entry's *current* amount instead
  (`amount + 1 > stock`), so such a request is accepted and written;
  `UpdateAboveStockAccepted` shows a concrete case.
- `updateProductAmount` does not reject a requested amount of zero or less.
- When the identifier is absent, `updateProductAmount` reports success, leaves
  the cart as it was and writes it to storage anyway (lines 108-114).
- One might expect every cart amount to stay between 1 and the stock. The code
  keeps neither bound: an update writes any integer. The model proves only
  identifier uniqueness as an invariant.
- Duplicate identifiers can reach the cart: through storage at start-up
  (lines 28-29), or when the product endpoint returns a record whose identifier
  differs from the one requested (lines 56-64). `find` then picks the first
  match, and the lemmas about `addProduct` and `updateProductAmount` that do
  not assume unique identifiers are stated for that first match. An accepted
  update then writes the requested amount into every matching entry, since the
  `map` at lines 108-111 visits them all (`UpdateWritesEveryMatch`).

## Model

| member | source | states |
|---|---|---|
| Cart.HasId | src/hooks/useCart.tsx:77 | true exactly when some entry of the cart carries the identifier |
| Cart.AtLimitFirstMatch | src/hooks/useCart.tsx:45-47 | the second half of the stock test holds exactly when the first entry with the identifier has amount + 1 above the stock (the same test stands at lines 100-102) |
| Cart.Restore | src/hooks/useCart.tsx:28-32 | the stored snapshot when there is one, otherwise the empty cart |
| Cart.Find | src/hooks/useCart.tsx:43 | finds nothing exactly when no entry has the identifier; otherwise gives the index of the first entry that has it |
| Cart.Without | src/hooks/useCart.tsx:80 | the filtered cart holds exactly the entries whose identifier differs, and is no longer than the cart |
| Cart.SetAmount | src/hooks/useCart.tsx:108-111 | same length; every entry with the identifier gets the new amount, every other entry is unchanged |
| Cart.AddStep | src/hooks/useCart.tsx:35-72 | any failure leaves the cart unchanged; out of stock exactly when stock < 1 or the found entry's amount + 1 exceeds the stock; success exactly when both stock tests pass and either the entry exists or the product lookup succeeded |
| Cart.RemoveStep | src/hooks/useCart.tsx:74-87 | succeeds exactly when some entry has the identifier; failure leaves the cart unchanged; afterwards no entry has the identifier and every other entry is kept |
| Cart.UpdateStep | src/hooks/useCart.tsx:89-118 | any failure leaves the cart unchanged; `Error` exactly when the stock lookup failed; success exactly when stock >= 1 and the current amount (if any) + 1 is within stock, whatever amount is requested; the length is kept |
| Cart.FindUnique | src/hooks/useCart.tsx:43 | with unique identifiers, the lookup finds the one entry that has the identifier |
| Cart.WithoutAbsent | src/hooks/useCart.tsx:80 | filtering out an identifier no entry has returns the cart unchanged |
| Cart.WithoutConcat | src/hooks/useCart.tsx:80 | the filter of a concatenation is the concatenation of the filters, so kept entries keep their relative order |
| Cart.WithoutAtUnique | src/hooks/useCart.tsx:80 | with unique identifiers, removing the identifier at index k gives the cart minus exactly entry k, in order |
| Cart.WithoutKeepsUnique | src/hooks/useCart.tsx:80 | filtering keeps identifiers unique |
| Cart.SetAmountKeepsUnique | src/hooks/useCart.tsx:108-111 | setting amounts keeps identifiers unique |
| Cart.AddNewAppends | src/hooks/useCart.tsx:53-65 | an absent identifier with stock >= 1 and a successful product lookup: success, one more entry, earlier entries unchanged, the fetched product appended at the end with amount 1 |
| Cart.AddExistingIncrements | src/hooks/useCart.tsx:43-54 | in any cart, when the first entry with the identifier is at index k, stock >= 1 and its amount + 1 is within stock: success, same length, only entry k's amount grows by one |
| Cart.AddOutOfStock | src/hooks/useCart.tsx:43-51 | stock < 1, or the first entry with the identifier has amount + 1 above stock: out of stock and the cart unchanged |
| Cart.AddKeepsUnique | src/hooks/useCart.tsx:43-64 | addProduct keeps identifiers unique when the product lookup returns the requested product |
| Cart.RemoveAbsentFails | src/hooks/useCart.tsx:77-78 | removing an absent identifier reports an error and leaves the cart unchanged |
| Cart.RemovePresent | src/hooks/useCart.tsx:77-80 | removing a present identifier succeeds with the filtered cart; with unique identifiers that is the cart minus exactly the matching entry |
| Cart.RemoveKeepsUnique | src/hooks/useCart.tsx:80 | removeProduct keeps identifiers unique |
| Cart.UpdateSetsAmount | src/hooks/useCart.tsx:98-111 | in any cart, when the first entry with the identifier is at index k, stock >= 1 and its amount + 1 is within stock: success, same length, every entry with the identifier gets the requested amount and every other entry is unchanged; with unique identifiers only entry k changes |
| Cart.UpdateWritesEveryMatch | src/hooks/useCart.tsx:98-111 | two entries with identifier 7 (amounts 1 and 9), stock 2, five requested: accepted on the first entry's test and five written into both |
| Cart.UpdateAbsentSucceeds | src/hooks/useCart.tsx:98-111 | an absent identifier with stock >= 1 reports success and leaves the cart unchanged |
| Cart.UpdateIgnoresRequestedAmount | src/hooks/useCart.tsx:100-103 | the outcome of updateProductAmount does not depend on the requested amount |
| Cart.UpdateAboveStockAccepted | src/hooks/useCart.tsx:100-111 | one unit in the cart, two in stock, five requested: accepted and five written |
| Cart.UpdateKeepsUnique | src/hooks/useCart.tsx:108-111 | updateProductAmount keeps identifiers unique |
| CartProvider.CartStore.constructor | src/hooks/useCart.tsx:25-33 | the cart is the stored snapshot when there is one, else empty; the store starts in sync with storage |
| CartProvider.CartStore.Commit | src/hooks/useCart.tsx:67-68 | the state and the storage slot both receive the new cart |
| CartProvider.CartStore.AddProduct | src/hooks/useCart.tsx:35-72 | outcome and new cart are those of AddStep; success stores the new cart, failure changes neither field; sync with storage and unique identifiers are preserved |
| CartProvider.CartStore.RemoveProduct | src/hooks/useCart.tsx:74-87 | outcome and new cart are those of RemoveStep; success stores the new cart, failure changes neither field; sync and unique identifiers are preserved |
| CartProvider.CartStore.UpdateProductAmount | src/hooks/useCart.tsx:89-118 | outcome and new cart are those of UpdateStep; success stores the new cart, failure changes neither field; sync and unique identifiers are preserved |

## Left out

- React context, provider component and the `useCart` hook (lines 1-24, 120-133): UI framework wiring.
- The HTTP calls to the stock and product endpoints: network I/O. Their results are the `stock` and `fetched` parameters, and a failed call is `None`.
- Toast notifications: UI side effects. They appear only as the returned `Outcome`.
- `localStorage` and `JSON.stringify`/`JSON.parse`: browser I/O and serialisation. The slot is the `stored` field, holding the cart sequence itself. The model takes serialisation to round-trip exactly, and treats a storage write as never failing.
- Shared mutable objects: the source increments and overwrites amounts on objects it shares with the previous state through a shallow copy. The model replaces the entry at that index in a copy. The new cart is the same, but the model does not capture the old state being altered too.
- Concurrency: async interleavings, and the race between concurrent calls that read the same stale cart. Each operation is modelled as atomic.
- Product display fields (title, price, image) are carried along but play no part. Price is a `real`, and numbers are unbounded integers: JavaScript floating-point numbers are not modelled.
- Cart.AddKeepsUnique: assumes that the product endpoint returns a product whose identifier is the one requested. The source pushes whatever record the endpoint returns.
