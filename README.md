# Shopping-cart provider, modelled in Dafny

This project models the cart-mutation core of a React shopping-cart hook
(`CartProvider` in `src/hooks/useCart.tsx`). The cart is an ordered sequence
of line items (product data plus a quantity). Three operations change it:

- `addProduct` adds one unit of a product after checking the stock.
- `removeProduct` drops a product from the cart.
- `updateProductAmount` sets a product's quantity after checking the stock.

Every change is mirrored to a storage slot, and every failure shows one of
four notifications.

The project has three modules:

- `CartModel` (`cart_model.dfy`) holds the values and the source's array
  helpers: `some` as `Contains`, `find` as `IndexOf`, `filter` as `Without`.
  It also defines each operation's outcome as a function of the cart before
  the call and of the answers of the two lookups. An outcome is `Commit` (a
  new cart, persisted), `Fail` (a notification) or `Skip` (an early return).
  The functions `AddCalls` and `UpdateCalls` give the lookups each operation
  makes.
- `CartProperties` (`cart_properties.dfy`) holds the lemmas: the result of
  each branch of each operation, and how the operations relate to each
  other. It also proves that any run of operations keeps every quantity at
  least 1, and keeps ids unique as long as the catalog answers for the
  products asked for.
- `CartProvider` (`cart_store.dfy`) holds the class `CartStore`. Its fields
  are the cart and the storage slot. Its methods follow the source step by
  step: copy the cart, find the entry, update it or append, then `setCart`.
  Each method's `ensures` ties the new cart, the new slot, the notification
  and the list of lookups made to the outcome functions. The object invariant
  `Valid()` says that reloading the slot gives back the cart in memory.

The external calls are parameters. `api('/stock/'+id)` becomes a
`Response<int>` (a stock reading or `Failed`). `api('/products/'+id)` becomes
a `Response<ProductData>`. The `toast` calls become the returned
`Option<Notice>`. `Message` gives the text of each notice.

Behaviours of the code worth noting:

- Adding a product already in the cart is like `updateProductAmount` with
  the quantity one higher, except that a failed stock lookup shows the add
  error, and a negative stored quantity is incremented where the update
  would be skipped. `AddIsUpdateByOne` proves that the two outcomes agree if
  and only if the stock lookup answered and the quantity is not negative.
- The new line item takes every field of the catalog's answer, the id
  included (`{...newProduct.data, amount}`). The model does the same. Ids
  therefore stay unique after an add only when the catalog answers for the
  requested id (`Answers`).
- `find` takes the first matching entry and `filter` drops every matching
  entry. The model keeps both behaviours, so it is also exact for a stored
  cart with duplicate ids.
- The stored cart is not validated when it is loaded. The invariant is
  therefore stated as "well-formed before implies well-formed after", not as
  a requirement on the constructor.

## Model

| member | source | states |
|---|---|---|
| CartModel.Message | src/hooks/useCart.tsx:51-111 | each notice has a non-empty text, and only the out-of-stock text does not open with "Erro"; `MessagesDistinct` proves the four texts pairwise different |
| CartModel.Load | src/hooks/useCart.tsx:25-33 | the initial cart is the stored one, or empty when nothing is stored |
| CartModel.AddOutcome | src/hooks/useCart.tsx:43-71 | adding never silently skips; it fails only with the out-of-stock or add error; a commit needs a stock reading, keeps the ids of existing entries and grows the cart by at most one, and only for an absent id with a catalog answer; the Add lemmas below give each branch |
| CartModel.AddCalls | src/hooks/useCart.tsx:47-59 | the stock is read first, always; the catalog is read second, exactly when the id is absent and the stock reading is at least 1, so an out-of-stock add reads no catalog |
| CartModel.RemoveOutcome | src/hooks/useCart.tsx:73-86 | removing fails only with the removal error and only for an absent id; a commit shrinks the cart and keeps exactly the entries with another id |
| CartModel.UpdateOutcome | src/hooks/useCart.tsx:88-115 | skips exactly when the quantity is below 1; fails only with the out-of-stock error (quantity above the stock reading) or the update error; a commit has a stock reading at least the quantity and sets the first entry with the id |
| CartModel.UpdateCalls | src/hooks/useCart.tsx:90-92 | at most one lookup, of the stock for the id, and none exactly when the quantity is below 1 |
| CartModel.Contains | src/hooks/useCart.tsx:76 | true exactly when some line item has the id |
| CartModel.IndexOf | src/hooks/useCart.tsx:97 | the index of the first line item with the id; None exactly when no line item has it |
| CartModel.Without | src/hooks/useCart.tsx:77 | keeps exactly the line items whose id differs, is never longer than the cart, and is shorter when some item has the id |
| CartProperties.WithoutAbsent | src/hooks/useCart.tsx:77 | filtering an id no line item has returns the cart unchanged |
| CartProperties.WithoutAppend | src/hooks/useCart.tsx:77 | filtering distributes over concatenation, so surviving line items keep their relative order |
| CartProperties.WithoutSplit | src/hooks/useCart.tsx:77 | filtering the id of one entry that its neighbours lack leaves the entries before and after it, in order |
| CartProperties.WithoutUnique | src/hooks/useCart.tsx:76-78 | in a cart with unique ids, removing the id of entry i gives `cart[..i] + cart[i+1..]` |
| CartProperties.WithoutKeepsUnique | src/hooks/useCart.tsx:77 | filtering keeps ids unique |
| CartProperties.SetAmountKeepsUnique | src/hooks/useCart.tsx:56 | changing one entry's quantity keeps ids unique |
| CartProperties.SetAmountKeepsPositive | src/hooks/useCart.tsx:100 | setting a quantity of at least 1 keeps every quantity at least 1 |
| CartProperties.AppendKeepsUnique | src/hooks/useCart.tsx:60-63 | appending an entry with a new id keeps ids unique |
| CartProperties.AddAbsentAppends | src/hooks/useCart.tsx:45-66 | an absent id with stock at least 1 and both lookups answered appends the catalog data with quantity 1 after the unchanged entries; the new entry has the id when the catalog answers for it; both lookups are made |
| CartProperties.AddPresentIncrements | src/hooks/useCart.tsx:46-57 | a present id with stock for one more increments only its first entry; length and all other entries are unchanged; only the stock is read and the catalog answer is irrelevant |
| CartProperties.AddOutOfStock | src/hooks/useCart.tsx:48-53 | a requested quantity above the stock reading fails with the out-of-stock notice, leaves the cart unchanged and reads only the stock |
| CartProperties.AddLookupFailure | src/hooks/useCart.tsx:47-69 | a failed stock lookup, or a failed catalog lookup on the new-item path, fails with the add error and leaves the cart unchanged; after a failed stock lookup the catalog is not read |
| CartProperties.AddIsUpdateByOne | src/hooks/useCart.tsx:43-115 | for a present entry, adding gives the same outcome as setting the quantity one higher if and only if the stock lookup answered and the quantity is at least 0; for such a quantity both make the same lookups |
| CartProperties.AddTwice | src/hooks/useCart.tsx:43-71 | adding a new product twice, with stock 2 or more, leaves one new entry with quantity 2 |
| CartProperties.RemovePresent | src/hooks/useCart.tsx:76-78 | a present id commits the filtered cart: no entry with the id remains and the rest keep their order; with unique ids exactly that entry goes |
| CartProperties.RemoveAbsent | src/hooks/useCart.tsx:79-84 | an absent id fails with the removal error and leaves the cart unchanged |
| CartProperties.UpdateBelowOne | src/hooks/useCart.tsx:90 | a quantity below 1 is a strict no-op: the outcome is Skip for any stock answer, no notice is shown and no lookup is made |
| CartProperties.UpdateOutOfStock | src/hooks/useCart.tsx:92-108 | a quantity above the stock reading fails with the out-of-stock notice whether or not the id is present, and that notice's text differs from the generic update error |
| CartProperties.UpdateSets | src/hooks/useCart.tsx:96-101 | a quantity from 1 up to the stock reading on a present id sets exactly that entry's quantity and nothing else |
| CartProperties.UpdateFails | src/hooks/useCart.tsx:92-111 | a failed stock lookup, or an absent id within the stock, fails with the generic update error and leaves the cart unchanged |
| CartProperties.MessagesDistinct | src/hooks/useCart.tsx:51-111 | the four notifications have four different texts |
| CartProperties.StepKeepsWellFormed | src/hooks/useCart.tsx:43-115 | each operation keeps ids unique (catalog answering for the requested id) and keeps every quantity at least 1 if it was before |
| CartProperties.RunKeepsPositive | src/hooks/useCart.tsx:43-115 | any run of operations from a cart whose quantities are all at least 1 ends in such a cart, whatever the lookups answer |
| CartProperties.RunKeepsUnique | src/hooks/useCart.tsx:43-115 | any run of operations from a cart with unique ids ends in such a cart, provided every catalog answer is about the product asked for (`CatalogAnswers`) |
| CartProperties.CommitWithinStock | src/hooks/useCart.tsx:50-100 | in a cart with unique ids, after a committed add or update, every entry with the product's id is no larger than the stock reading, whatever the catalog answers |
| CartProperties.ScenarioFirstAdd | src/hooks/useCart.tsx:43-71 | empty cart, stock 5, catalog answers a shoe: the cart becomes that shoe with quantity 1 |
| CartProperties.ScenarioUpdateBeyondStock | src/hooks/useCart.tsx:88-111 | quantity 3 with stock 3: setting 4 fails out of stock and changes nothing |
| CartProvider.CartStore.constructor | src/hooks/useCart.tsx:25-33 | the cart is the stored one, or empty when nothing is stored; the object invariant holds |
| CartProvider.CartStore.SetCart | src/hooks/useCart.tsx:39-41 | replacing the cart also writes it to the storage slot, so reloading reproduces it |
| CartProvider.CartStore.AddProduct | src/hooks/useCart.tsx:43-71 | new cart, slot, notice and lookups made are those of `AddOutcome` and `AddCalls`; ids stay unique (truthful catalog) and quantities stay positive |
| CartProvider.CartStore.RemoveProduct | src/hooks/useCart.tsx:73-86 | new cart, slot and notice are those of `RemoveOutcome`; ids stay unique and quantities stay positive |
| CartProvider.CartStore.UpdateProductAmount | src/hooks/useCart.tsx:88-115 | new cart, slot, notice and lookups made are those of `UpdateOutcome` and `UpdateCalls`; ids stay unique and quantities stay positive |

## Left out

- React plumbing (context, `useState`, `useRef`, `useEffect`, the JSX provider, `useCart`): framework glue. The effect that persists the cart is modelled only as `SetCart` writing the slot on every `setCart`.
- JSON serialisation and `localStorage`: the slot holds the cart value itself. A corrupt stored string (where `JSON.parse` would throw) is not modelled. An empty stored string counts as `Empty`.
- Network calls and `toast`: lookups are parameters and notices are return values. `Failed` stands for a rejected call, or for a stock response without `data`, whose property access throws into the `catch`.
- Malformed but successful responses: `Ok` always carries a number or a complete `ProductData`. The source behaves differently on such responses. A stock response without `data.amount` makes `amount > undefined` false, so the stock check passes and the operation goes on as if the stock sufficed (useCart.tsx lines 50 and 94). A catalog response without `data` spreads to `{amount}`, and an entry without an id is appended (lines 60-63).
- Asynchronous interleaving: each operation is atomic. The stale-snapshot lost updates and the sharing of line-item objects between the old and new arrays (in-place `amount` assignment) are not modelled; the model uses value semantics.
- `price` is a `real` carried along unchanged. Floating point and JavaScript number semantics are not modelled, and quantities and ids are unbounded integers.
- CartProvider.CartStore.AddProduct: ids stay unique only when the catalog answers for the requested id, because the code copies the id from the catalog's answer.
