# Cart and favorites store of the Glow Beauty storefront, in Dafny

The storefront keeps one piece of session state: a store holding the shopper's
**cart**, an ordered list of line items (a product plus a quantity), and the
shopper's **favorites**, an ordered list of product identifiers. Eight
operations act on it: the cart mutators `addToCart`, `removeFromCart`,
`updateQuantity` and `clearCart`, the favorites mutator `toggleFavorite`, and
the queries `isFavorite`, `getCartTotal` and `getCartItemsCount`.

The model has three modules, one file each:

- `CartLines` (`cart_lines.dfy`): the `Product` and `CartItem` values, the new
  cart each cart mutator builds (`Added`, `Without`, `Updated`, written like the
  original's `find`/`map`/`filter`/spread), the two totals as left folds
  (`Total`, `ItemsCount`, both instances of one fold `Sum`), and the lemmas
  about them.
- `FavoriteIds` (`favorite_ids.dfy`): the filter and the toggle on the
  favorites list (`Removed`, `Toggled`) and the laws of toggling.
- `UseStore` (`use_store.dfy`): the class `Store` with the fields `cart` and
  `favorites`. Each mutator is a method that replaces one field, as each
  `set(...)` call does in the original. Its `ensures` give the new field as a
  function of the old state and say that the other field is untouched. The
  queries are functions that read the object.

The store's invariant `Store.Valid()` says that the cart has at most one line
per product id, that every line holds at least one unit, and that no id is
favorited twice. The original never requires it of its callers, so the methods
do not require it either. Each method promises `old(Valid()) ==> Valid()`.

The query `isFavorite` is `Store.IsFavorite`, the `includes` test on the
favorites. It has no contract of its own; `Store.ToggleFavorite` states what
toggling does to it.

Prices are whole cents (`nat`). Quantities are unbounded integers.

The model follows the code where it does something a reader of the store's interface might not expect:

- The favorites are a list, not a set. Toggling an id twice gives back the
  same list only when the id was absent or already last. Otherwise the id
  moves to the end (`ToggleTwicePresent`).
- `updateQuantity` stores whatever positive number it is given. Nothing makes
  it an integer or bounds it.
- `addToCart` and `updateQuantity` change every line with the id, and
  `removeFromCart` drops every such line, not just the first one. The two
  behaviours agree while the cart invariant holds (`AddedPresent`, `UpdatedAt`,
  `WithoutAt`).
- `addToCart` on a product that is already in the cart keeps the line's stored
  price. The total therefore goes up by `product.price` only when the stored
  price is the product's current price (`PriceCurrent`).

## Model

| member | source | states |
|---|---|---|
| `CartLines.Added` | src/store/useStore.ts:28-43 | after `addToCart(p)` the cart has a line for p; if it had one, the length is unchanged and every line with p's id (all of them, even duplicates) gains one unit while the other lines stay equal; if not, the old lines stay in order and one line `(p.id, p.price, 1)` is appended |
| `CartLines.AddedPresent` | src/store/useStore.ts:30-39 | in a cart with distinct ids whose line k has p's id, `addToCart(p)` adds exactly one unit to line k and changes no other line or position |
| `CartLines.AddedWellFormed` | src/store/useStore.ts:28-43 | `addToCart` keeps ids distinct and every quantity at least 1 |
| `CartLines.AddedCount` | src/store/useStore.ts:28-43 | with distinct ids, `addToCart` raises the unit count by exactly 1 |
| `CartLines.AddedTotal` | src/store/useStore.ts:28-43 | with distinct ids and p's line (if any) at p's price, `addToCart(p)` raises the total by exactly `p.price` |
| `CartLines.Without` | src/store/useStore.ts:45-47 | `removeFromCart(id)` keeps exactly the lines whose id differs (an item is in the result iff it was in the cart with another id), and never grows the cart |
| `CartLines.WithoutMultiplicity` | src/store/useStore.ts:45-47 | for any cart, even one with duplicate lines, removal keeps no copy of a line with the id and every other line exactly as many times as before |
| `CartLines.WithoutAbsent` | src/store/useStore.ts:45-47 | removing an id with no line leaves the cart unchanged |
| `CartLines.WithoutIdempotent` | src/store/useStore.ts:45-47 | removing the same id twice is the same as removing it once |
| `CartLines.WithoutAt` | src/store/useStore.ts:45-47 | with distinct ids, removing the id of line k deletes exactly position k and keeps the other lines in their order |
| `CartLines.WithoutWellFormed` | src/store/useStore.ts:45-47 | removal keeps ids distinct and quantities at least 1 |
| `CartLines.WithoutTotals` | src/store/useStore.ts:45-47 | with distinct ids, removing line k lowers the unit count by its quantity and the total by its `price * quantity` |
| `CartLines.Updated` | src/store/useStore.ts:49-60 | for a positive quantity the cart keeps its length, and every position keeps its id and price; matching lines get the new quantity and the others keep theirs; for zero or less the id no longer has a line |
| `CartLines.UpdatedAbsent` | src/store/useStore.ts:49-60 | `updateQuantity` on an id with no line changes nothing, whatever the quantity; no line is created |
| `CartLines.UpdatedAt` | src/store/useStore.ts:55-59 | with distinct ids and a positive quantity, only line k's quantity changes, to the given value |
| `CartLines.UpdatedWellFormed` | src/store/useStore.ts:49-60 | `updateQuantity` keeps ids distinct and quantities at least 1, since it only writes positive quantities |
| `CartLines.UpdatedTotals` | src/store/useStore.ts:55-59 | a positive update of line k moves the unit count by the new minus the old quantity, and the total by its price times that difference |
| `CartLines.SumConcat` | src/store/useStore.ts:79-85 | the `reduce` fold behind both totals is additive over concatenation: each line contributes its own weight exactly once |
| `CartLines.TotalsBounds` | src/store/useStore.ts:79-85 | when every quantity is at least 1, the unit count is at least the number of lines and the total is not negative |
| `FavoriteIds.Removed` | src/store/useStore.ts:69 | the filter keeps exactly the other ids and never grows the list |
| `FavoriteIds.Toggled` | src/store/useStore.ts:66-73 | toggling flips the id's membership and leaves every other id's membership unchanged |
| `FavoriteIds.RemovedMultiplicity` | src/store/useStore.ts:69 | for any list, the filter keeps no copy of the id and every other id exactly as many times as before |
| `FavoriteIds.RemovedAbsent` | src/store/useStore.ts:69 | filtering out an id that is not listed leaves the list unchanged |
| `FavoriteIds.RemovedAt` | src/store/useStore.ts:69 | in a list without duplicates, filtering out the id at position k deletes exactly that position and keeps the order |
| `FavoriteIds.ToggledNoDuplicates` | src/store/useStore.ts:66-73 | toggling never introduces a duplicate id |
| `FavoriteIds.ToggleTwiceMembership` | src/store/useStore.ts:66-73 | two successive toggles restore the membership of every id |
| `FavoriteIds.ToggleTwiceAbsent` | src/store/useStore.ts:66-73 | two successive toggles of an id that was not favorited restore the exact list |
| `FavoriteIds.ToggleTwicePresent` | src/store/useStore.ts:66-73 | two successive toggles of a favorited id (without duplicates) move it from position k to the end |
| `UseStore.Store.constructor` | src/store/useStore.ts:24-26 | a session starts with an empty cart and no favorites, which satisfies the invariant |
| `UseStore.Store.CartTotal` | src/store/useStore.ts:79-81 | `getCartTotal` is 0 for an empty cart and never negative when every quantity is at least 1 |
| `UseStore.Store.CartItemsCount` | src/store/useStore.ts:83-85 | `getCartItemsCount` is 0 for an empty cart and, with every quantity at least 1, at least the number of lines |
| `UseStore.Store.AddToCart` | src/store/useStore.ts:28-43 | the cart becomes `Added(old cart, product)` and favorites are untouched; the invariant is kept; with distinct ids the count rises by 1, and with a current price the total rises by `product.price` |
| `UseStore.Store.RemoveFromCart` | src/store/useStore.ts:45-47 | the cart becomes `Without(old cart, id)` and has no line for the id; favorites are untouched; the invariant is kept |
| `UseStore.Store.UpdateQuantity` | src/store/useStore.ts:49-60 | the cart becomes `Updated(old cart, id, quantity)`; for a quantity of zero or less this is exactly `removeFromCart`; an absent id changes nothing; favorites are untouched; the invariant is kept |
| `UseStore.Store.ClearCart` | src/store/useStore.ts:62-64 | the cart becomes empty, so both totals are 0; favorites are untouched; the invariant is kept |
| `UseStore.Store.ToggleFavorite` | src/store/useStore.ts:66-77 | favorites become `Toggled(old favorites, id)`; `IsFavorite(id)` afterwards is the negation of before; the cart is untouched; the invariant is kept |

## Left out

- Persistence: the `persist` middleware and its `'glowbeauty-storage'` record (src/store/useStore.ts:2,23,87-89). This is browser storage I/O, and the serialising and rehydrating are done by the zustand library, which is not part of this model. A rehydrated state need not satisfy `Valid()`, which is why no method requires it.
- zustand's `create`/`set`/`get` plumbing (src/store/useStore.ts:1,22-24): the store is a plain object whose methods assign its fields.
- Floating-point arithmetic: prices are whole cents and quantities integers. `price * quantity` is exact, with no rounding and no `.toFixed(2)` display.
- Fractional or non-finite quantities passed to `updateQuantity`: the model takes an `int`.
- Product fields other than `id` and `price` (title, brand, images, ...): the store copies them along unchanged and never reads them.
- The pages and components (src/pages, src/components, src/App.tsx): React rendering, routing, toasts, share links. Also left out are the catalog filter and sort in the shop page and the shipping rule in the cart page, which are render code over floats, and the product catalog itself, which is static data not part of this model.
- Store.AddToCart: the change in count and total is stated only for a cart with distinct ids. With duplicate lines the original adds a unit to each of them. The total is stated only when the stored price is current.
- CartLines.AddedCount: stated only for a cart with distinct ids, for the same reason.
- CartLines.AddedTotal: stated only for a cart with distinct ids whose line for the product carries the product's current price.
