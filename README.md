# Shopping-cart state of `CartProvider`

This project models the cart state machine of a storefront's `CartProvider`
(`src/hooks/useCart.tsx`). The cart is an ordered sequence of line items.
Each item has a product id, an amount and other product attributes. Three
operations change the cart:

- `addProduct` asks for the product's stock. It then either adds one unit to
  the item already in the cart, if that item is still below stock, or asks
  the catalog for the product and appends it with amount 1.
- `removeProduct` splices out the first item with the id. If there is none,
  it fails.
- `updateProductAmount` ignores a non-positive amount. Otherwise it asks for
  the stock, refuses an amount above it, and sets the amount of the matching
  item.

Every accepted change writes the whole cart to the storage slot
`@RocketShoes:cart` and then replaces the in-memory state. Every refused change
emits one notification and leaves the cart and the slot untouched.

Everything is in `use_cart.dfy`, module `UseCart`:

- The datatypes are `Item`, `Msg` (the notification categories `OutOfStock`,
  `AddError`, `RemoveError`, `UpdateError`), `Remote<T>` (the answer of a remote
  lookup: `Ok(value)` or `Fail`) and `Outcome`. An `Outcome` is `Changed(cart)`,
  `Refused(msg)` or `Ignored`.
- The pure specification functions are `IndexOf` (what `findIndex` returns),
  `Add`, `Remove` and `Update`. Each operation function decides the outcome
  from the old cart and the remote answers.
- Lemmas state the properties of these functions.
- `FindIndex` is the `findIndex` loop, proved equal to `IndexOf`.
- The class `CartStore` has the fields `cart`, `stored` (the storage slot) and
  `lastToast` (the notification the most recent operation emitted, `None` when
  it emitted none). Its methods copy the cart, change the copy and commit it,
  as the source does. Each method is proved to leave exactly the state that
  the matching specification function decides (`Took`). Each method also keeps
  `Valid()`: the in-memory cart is what reading the slot back would give.
- `StockScenario` is a client of `CartStore`. It walks through adds up to a
  stock of 5, a refused sixth add, an update to 0 and the removal of an absent
  product.

The remote calls, the storage slot and the notifications are modelled as
follows:

- The stock and catalog lookups (`api.get`) are parameters of the methods:
  `stock: Remote<int>` (only the reported amount is read) and
  `catalog: Remote<Item>`. The catalog answer is read only when the product is
  not yet in the cart.
- `localStorage` is the field `stored: Option<seq<Item>>`. The constructor takes
  the slot's prior content as a parameter. `JSON.stringify` and `JSON.parse` are
  the identity.
- `toast.error` is recorded as its message category in `lastToast`.

Two edge cases the model keeps as the code has them:

- For an id absent from the cart, `updateProductAmount` indexes the copy at -1.
  Setting `.amount` on `undefined` throws, and the catch emits the generic
  update error (`UpdateError`). The stock check comes first, so an absent id
  with an amount above stock gives `OutOfStock`.
- A stored value that is present is used as the cart as it is. No repair or
  fallback is applied.

## Model

| member | source | states |
|---|---|---|
| `UseCart.IndexOf` | src/hooks/useCart.tsx:39 | The result is -1 exactly when no item has the id. Otherwise it is the position of the first item with the id. |
| `UseCart.FindIndex` | src/hooks/useCart.tsx:39 | The search loop returns the first position whose item has the id, or -1 when none has it. This equals `IndexOf`. |
| `UseCart.Add` | src/hooks/useCart.tsx:36-60 | Add never ignores silently. It refuses only with `OutOfStock` or `AddError`. It changes the cart only after a successful stock call. An existing id keeps the length; a new id appends one item after the unchanged old cart. |
| `UseCart.AddRemoteFailure` | src/hooks/useCart.tsx:36-60 | Add yields `AddError` exactly when the stock call fails, or when the id is absent and the catalog call fails. |
| `UseCart.AddExisting` | src/hooks/useCart.tsx:42-48 | For an item already present, add yields `OutOfStock` iff its amount is at least the stock. Otherwise exactly that item's amount rises by 1, and length, order and all other items stay the same. An accepted add never takes the item above stock. |
| `UseCart.AddNew` | src/hooks/useCart.tsx:49-53 | For an absent id and any reported stock, add appends the catalog product with amount 1 at the end. All earlier items are unchanged, and no stock check applies. |
| `UseCart.AddPreservesWellFormed` | src/hooks/useCart.tsx:39-53 | If the catalog returns the requested id, add keeps at most one item per id and all amounts positive. |
| `UseCart.AddTimesCapsAtStock` | src/hooks/useCart.tsx:42-48 | After n adds of a present product with the same stock, its amount is min(start + n, stock), or stays at the start amount if that already reached stock. No other item changes. |
| `UseCart.Remove` | src/hooks/useCart.tsx:64-79 | Remove refuses, always with `RemoveError`, exactly when the id is absent. Otherwise the cart shrinks by one. |
| `UseCart.RemoveAbsent` | src/hooks/useCart.tsx:66-69 | Removing an absent id yields `Refused(RemoveError)`, so the cart and the slot are unchanged. |
| `UseCart.RemovePresent` | src/hooks/useCart.tsx:66-72 | Removing a present id deletes exactly its first item. Earlier items keep their places, later ones shift down by one, and the multiset loses exactly that item. |
| `UseCart.RemoveUniqueLeavesNone` | src/hooks/useCart.tsx:66-72 | In a cart with unique ids, the removed id no longer occurs afterwards. |
| `UseCart.RemovePreservesWellFormed` | src/hooks/useCart.tsx:66-72 | Remove keeps ids unique and amounts positive. |
| `UseCart.Update` | src/hooks/useCart.tsx:86-107 | Update is ignored exactly when amount <= 0. It refuses only with `OutOfStock` or `UpdateError`. An accepted update had a successful stock call, has 0 < amount <= stock, and keeps the length. |
| `UseCart.UpdateRejections` | src/hooks/useCart.tsx:88-106 | `OutOfStock` iff amount > 0 and the stock call succeeded with amount > stock. `UpdateError` iff amount > 0 and either the stock call failed, or amount <= stock and the id is absent. |
| `UseCart.UpdateSetsAmount` | src/hooks/useCart.tsx:98-100 | With 0 < amount <= stock (equality accepted), the matching item's amount becomes exactly the given value. Its id and attributes, and all other items, are unchanged. |
| `UseCart.UpdatePreservesWellFormed` | src/hooks/useCart.tsx:88-100 | Update keeps ids unique and amounts positive. |
| `UseCart.WriteThrough` | src/hooks/useCart.tsx:55-56 | If the slot mirrored the cart before, reading it back after any outcome gives the in-memory cart. Refused and ignored outcomes leave the slot as it was. |
| `UseCart.CartStore.constructor` | src/hooks/useCart.tsx:25-33 | The cart starts as the stored value when the slot holds one, and as the empty cart otherwise. No notification is pending. |
| `UseCart.CartStore.Commit` | src/hooks/useCart.tsx:55-56 | The slot is written with the new cart, and the in-memory cart becomes that same cart. |
| `UseCart.CartStore.AddProduct` | src/hooks/useCart.tsx:35-61 | The new cart, slot and notification are exactly those that `Add` decides from the old cart and the remote answers. The slot stays a mirror of the cart, and a well-formed cart stays well-formed when the catalog answers with the requested id. |
| `UseCart.CartStore.RemoveProduct` | src/hooks/useCart.tsx:63-80 | The new cart, slot and notification are exactly those that `Remove` decides. The slot stays a mirror, and well-formedness is kept. |
| `UseCart.CartStore.UpdateProductAmount` | src/hooks/useCart.tsx:82-108 | The new cart, slot and notification are exactly those that `Update` decides. The slot stays a mirror, and well-formedness is kept. |

## Left out

- The React wiring is left out because it holds no logic: `createContext`, `CartContext.Provider`, the `useCart` hook and re-rendering after `setCart`.
- The HTTP calls (`api.get`) are foreign code. They are parameters with a success or failure answer, and the cause of a failure is not distinguished.
- `toast.error` is a UI side effect. Only the message category is recorded.
- The storage and JSON layer is foreign I/O and serialisation. `localStorage` and JSON round-trips are the identity. So the model does not cover a malformed or non-array stored value (a value that makes `JSON.parse` throw in the initialiser, or one such as `null` that parses but makes every later `findIndex` throw into the operation's catch), nor an empty-string slot (which the source treats as absent). It also assumes `setItem` never throws. In the source, a failed write hits the catch and emits the operation's error at the slot write, before `setCart`. Because the copy is shallow, a write that fails after useCart.tsx:48 or :100 leaves the shared in-memory item object already changed, while neither the slot nor `setCart` has been updated.
- Concurrency is not modelled. Interleavings of concurrent `addProduct` and `updateProductAmount` calls across their `await` points are out of scope, and each operation runs atomically on the state it started from.
- The model assumes a re-render between operations: each `CartStore` method starts from the cart the previous one committed. In the source, each callback reads the `cart` captured by the render it came from (useCart.tsx:39, 66, 98), and `setCart` takes effect only at the next render. Calls made within one render therefore all start from the same cart, and the last `setItem`/`setCart` wins. For example, `removeProduct(1); removeProduct(2)` in one handler leaves item 1 in the cart and in the slot, whereas the model's `RemoveProduct(1); RemoveProduct(2)` removes both.
- Object aliasing is not modelled because items are values. The source's shallow copy `[...cart]` means lines 48 and 100 also mutate the item object that the previous state shares.
- Numbers are unbounded integers. JavaScript's floating-point numbers, non-integer amounts and non-numeric ids are not modelled.
- Product attributes other than id and amount are an uninterpreted type `Attributes`, because the `Product` type is not part of this model.
- UseCart.CartStore.AddProduct: its well-formedness clause holds only when the catalog answers with the requested id, for the same reason as the next line.
- UseCart.AddPreservesWellFormed: it assumes the catalog returns a product whose id is the requested id. The source appends the catalog record as it is, so a catalog that answered with another id could duplicate an id.
