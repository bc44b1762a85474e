# Products store of the sneakers storefront, in Dafny

This project models the catalog-and-basket store of a Vue storefront
(`src/stores/products.js`). The store keeps the product catalog and the
filter criteria. It derives the visible product list from them. It also
keeps the shopping basket, an ordered list of lines
`{product, size, quantity, addedAt}` with at most one line per
(product id, size) key. The model proves these things about the store:

- the four basket mutations do what the code does and nothing else;
- the durable storage slot always holds the current basket;
- the two basket sums react to each mutation as expected;
- the filtered view is sound and complete, and its sort is a stable sort.

Modules, one per concern of the source file:

- `Wrappers`: `Option`, the model's stand-in for `null`/`undefined`.
- `Seqs`: `filter`, `reduce` (as a sum) and `map` on sequences, with their laws.
- `Text`: `toLowerCase`, `trim` and `includes` on strings.
- `Catalog`: the product record, the filter criteria, the `filterProducts` view.
- `Basket`: the basket line and the pure effect of each basket operation.
  It also holds the lemmas about key uniqueness, positivity and the sums.
- `Store`: the class `ProductsStore`. Its fields are the store's state,
  plus the storage slot, the notifications shown and the requests sent.
  Its methods are the store's operations. Each method's `ensures` ties the
  new state to the `Basket`/`Catalog` function of the old state, and the
  lemmas about those functions carry the properties.

External effects are parameters or logs:

- the `basket` entry of `localStorage` is the field `saved`, a snapshot
  `Option<seq<Line>>`;
- `window.showToast` calls are appended to `notices` as the kind of
  notice, with its severity given by `SeverityOf`;
- the `fetch` calls of `syncBasketToDatabase` are appended to `outbox`;
- whether a session is active (`auth.isLoggedIn`) is the parameter
  `loggedIn`;
- `new Date().toISOString()` is the parameter `now`;
- the HTTP responses of `getProducts`/`showProduct` are `Option`
  parameters, where `None` stands for a failed request.

On three points the model follows what the code does rather than what the
store evidently means:

- A basket line is meant to hold at least one unit: the guard at
  src/stores/products.js:134 refuses smaller quantities for updates.
  `addToBasket` does not check its `quantity` argument, so the model does
  not either. `Basket.AddLineAcceptsZero` shows a zero-quantity line being
  created. `Basket.AddLineKeepsPositive` proves positivity is kept only
  when the caller passes `quantity >= 1`. `Basket.SetQuantityKeepsPositive`
  proves that updates keep positivity always.
- Products are meant to come in several sizes, but a product has one `size` field, compared with the selected sizes at
  src/stores/products.js:237-239, so `Product.size` is a single optional
  size rather than a set of size options.
- Gender is meant to be one of Men, Women or Kids, but it is compared as a string at src/stores/products.js:242-244, and
  `""` counts as no gender selected, so the model keeps it a string and
  not a three-valued enumeration.

## Model

| member | source | states |
|---|---|---|
| `Text.Lower` | src/stores/products.js:190 | `toLowerCase` keeps the length, leaves no upper-case letter and is the identity on text that has none |
| `Text.LowerIdempotent` | src/stores/products.js:190 | lower-casing twice is lower-casing once: `Lower(Lower(s)) == Lower(s)` for every string |
| `Text.TrimStart` | src/stores/products.js:190 | the leading part `trim` drops is all white space and what is left is a suffix of the input starting with a non-space character (or empty) |
| `Text.TrimEnd` | src/stores/products.js:190 | the trailing part `trim` drops is all white space and what is left is a prefix of the input ending with a non-space character (or empty) |
| `Text.TrimEnds` | src/stores/products.js:190 | a trimmed string has no white space at either end |
| `Text.TrimEmptyIffAllSpace` | src/stores/products.js:190 | `trim` returns `""` exactly when the input is all white space |
| `Text.TrimKeepsTrimmed` | src/stores/products.js:190 | a string with no white space at either end is its own trim |
| `Text.TrimKeepsNoUpper` | src/stores/products.js:189-191 | trimming lower-cased text leaves it lower-cased, so the search normalisation's output has no upper-case letter |
| `Text.Trim` | src/stores/products.js:190 | `trim`: white space dropped from both ends (`TrimEnd` of `TrimStart`); the result is never longer than the input |
| `Text.TrimIdempotent` | src/stores/products.js:190 | trimming twice is trimming once |
| `Text.NormalizeIdempotent` | src/stores/products.js:189-191 | the search normalisation (lower-case, then trim) applied twice equals applying it once |
| `Text.Normalize` | src/stores/products.js:189-191 | the stored search query, `query.toLowerCase().trim()`; it has no upper-case letter and is never longer than the query |
| `Text.NormalizedQueryIsLower` | src/stores/products.js:215 | the filter lower-cases the stored query once more, and that changes nothing: `Lower(Normalize(q)) == Normalize(q)` |
| `Text.Includes` | src/stores/products.js:216-219 | `includes` is true exactly when the term occurs at some offset of the field |
| `Catalog.MatchesIffAllActivePass` | src/stores/products.js:210-253 | the filter callback's chain of early returns accepts a product exactly when it passes every active criterion (search over brand, model, colour or category; brand; maximum price; size; gender; in stock) |
| `Catalog.InactiveFiltersMatchAll` | src/stores/products.js:214-250 | with no criterion active every product passes |
| `Catalog.ZeroMaxPriceIsInactive` | src/stores/products.js:233 | a maximum price of 0 is falsy and filters exactly like no maximum price |
| `Catalog.Matches` | src/stores/products.js:210-253 | the filter callback: false at the first active criterion the product fails (search text, brand, maximum price, size, gender, in stock, in that order), true otherwise |
| `Catalog.Select` | src/stores/products.js:210-253 | the filtered list holds each matching product as often as the catalog does and no non-matching product |
| `Catalog.SelectPreservesOrder` | src/stores/products.js:210 | filtering distributes over concatenation, so the kept products are in catalog order |
| `Catalog.Insert` | src/stores/products.js:256-260 | one insertion step of the price sort adds exactly the one product to the list |
| `Catalog.InsertSorted` | src/stores/products.js:256-260 | inserting into a list sorted by price keeps it sorted |
| `Catalog.SortByPrice` | src/stores/products.js:256-260 | the price sort returns a permutation of its input ordered non-decreasing (asc) or non-increasing (desc) by price |
| `Catalog.SortByPriceStable` | src/stores/products.js:256-260 | products of equal price keep their relative order, as `Array.prototype.sort` guarantees |
| `Catalog.FilterProducts` | src/stores/products.js:204-263 | the view holds exactly the matching products with their catalog multiplicity, sorted by price for "asc"/"desc" and in catalog order for any other sort order |
| `Catalog.FilterProductsMembership` | src/stores/products.js:210-253 | a product is in the view if and only if it is in the catalog and matches |
| `Catalog.DefaultViewIsCatalog` | src/stores/products.js:204-262 | with every criterion inactive and no sort order the view is the catalog itself, in order |
| `Catalog.MaxPriceScenario` | src/stores/products.js:233-235 | with products priced 50 and 100 and a maximum price of 60 only the first is shown |
| `Catalog.SearchScenario` | src/stores/products.js:214-225 | the query "red" matches a product whose colour is "Red Suede" |
| `Basket.FindLine` | src/stores/products.js:72-74 | `find` returns the index of the first line for (id, size), or none exactly when no line has that key |
| `Basket.AddLine` | src/stores/products.js:70-88 | the basket `addToBasket` leaves: the first line for (id, size) grows by `quantity` if there is one, else a new line is appended; the length grows by one exactly when the key was absent, and the key is present afterwards |
| `Basket.RemoveLines` | src/stores/products.js:114-116 | the basket `removeFromBasket` leaves: `filter` keeping the lines not for (id, size); every other line keeps its multiplicity and none for the key is kept |
| `Basket.SetQuantity` | src/stores/products.js:133-140 | the basket `updateQuantity` leaves: unchanged below 1 or for an absent key, else the first line for the key gets the new quantity; length, products, sizes and timestamps never change |
| `Basket.ItemsCount` | src/stores/products.js:179-181 | `basketItemsCount`: the sum of the lines' quantities (`Seqs.Sum` with `Quantity`) |
| `Basket.Total` | src/stores/products.js:169-173 | `basketTotal`: the sum over the lines of price times quantity (`Seqs.Sum` with `LineTotal`) |
| `Basket.AddLineAppends` | src/stores/products.js:82-88 | adding a key not in the basket appends exactly one line `{product, size, quantity, addedAt}` at the end |
| `Basket.AddLineMerges` | src/stores/products.js:72-78 | adding a key already present raises only the first line for it by `quantity`; its product and timestamp, the length and all other lines are unchanged |
| `Basket.AddLineKeepsKeysUnique` | src/stores/products.js:72-88 | if no two lines share a key before an add, none do after |
| `Basket.AddLineMergeLaw` | src/stores/products.js:72-88 | adding `q1` then `q2` for one key gives the basket of one add of `q1 + q2` |
| `Basket.AddLineItemsCount` | src/stores/products.js:179-181 | an add of `quantity` raises `basketItemsCount` by exactly `quantity` |
| `Basket.AddLineTotal` | src/stores/products.js:169-173 | an add raises `basketTotal` by `quantity` times the price of the line's stored product (the existing line's, not the argument's) |
| `Basket.AddLineKeepsPositive` | src/stores/products.js:83-86 | an add of a positive quantity keeps every line positive |
| `Basket.AddLineAcceptsZero` | src/stores/products.js:70-88 | an add of quantity 0 creates a line that holds no unit, because nothing guards the argument |
| `Basket.RemoveLinesContents` | src/stores/products.js:114-116 | removal keeps every line of another key with its multiplicity and no line of the removed key |
| `Basket.RemoveLinesKeepsOrder` | src/stores/products.js:114-116 | removal preserves the order of the surviving lines |
| `Basket.RemoveAbsentIsIdentity` | src/stores/products.js:108-112 | removing a key that is not in the basket leaves it unchanged |
| `Basket.RemoveUniqueLine` | src/stores/products.js:114-116 | with unique keys, removing a present key deletes exactly its one position |
| `Basket.RemoveLinesKeepsKeysUnique` | src/stores/products.js:114-116 | removal keeps keys unique |
| `Basket.RemoveLinesItemsCount` | src/stores/products.js:179-181 | removal lowers `basketItemsCount` by the units of the removed lines |
| `Basket.RemoveLinesKeepsPositive` | src/stores/products.js:114-116 | removal keeps every line positive |
| `Seqs.Filter` | src/stores/products.js:114-116 | `Array.prototype.filter`: each element occurs in the result as often as in the input when it is kept, and not at all otherwise (also used at src/stores/products.js:210) |
| `Seqs.Sum` | src/stores/products.js:170-172 | `reduce((acc, x) => acc + f(x), 0)`: the sum of `f` over the elements, 0 for the empty list (also used at src/stores/products.js:180) |
| `Seqs.Map` | src/stores/products.js:297-309 | the per-line step of the mirror loop, one image per element, in order; the result has the input's length |
| `Basket.SetQuantityRejectsBelowOne` | src/stores/products.js:134 | an update to a quantity below 1 leaves the basket unchanged |
| `Basket.SetQuantityUpdates` | src/stores/products.js:137-140 | otherwise the first line for the key gets the new quantity; the length and all other lines are unchanged |
| `Basket.SetQuantityAbsentIsIdentity` | src/stores/products.js:137-139 | updating a key that is not in the basket leaves it unchanged |
| `Basket.SetQuantityKeepsKeysUnique` | src/stores/products.js:137-140 | updates keep keys unique |
| `Basket.SetQuantityKeepsPositive` | src/stores/products.js:134-140 | because of the guard, updates keep every line positive whatever quantity is asked for |
| `Basket.SetQuantityItemsCount` | src/stores/products.js:179-181 | an accepted update changes `basketItemsCount` by the new minus the old quantity of the line; a refused one changes nothing |
| `Store.SyncMirrorsBasket` | src/stores/products.js:287-310 | when all its requests succeed, the clear-then-add mirror leaves the server holding exactly the local lines, in order |
| `Store.SyncRequests` | src/stores/products.js:285-310 | the requests one mirror sends: none when signed out; otherwise one `DELETE`, then one `POST {sneaker_id, size, quantity}` per line, the i-th for the i-th line |
| `Store.Replay` | src/stores/products.js:287-310 | what the server basket becomes when it handles the requests in order, all succeeding: a `DELETE` empties it and a `POST` appends one line |
| `Store.ProductsStore.BasketTotal` | src/stores/products.js:169-173 | the computed `basketTotal` of the current basket (`Basket.Total`) |
| `Store.ProductsStore.BasketItemsCount` | src/stores/products.js:179-181 | the computed `basketItemsCount` of the current basket (`Basket.ItemsCount`) |
| `Store.ProductsStore.FilterProducts` | src/stores/products.js:204-263 | the computed `filterProducts` of the current catalog, criteria and sort order (`Catalog.FilterProducts`) |
| `Store.ProductsStore.constructor` | src/stores/products.js:316-317 | a new store restores the basket from the storage slot (empty if the slot is absent), and the slot then holds the basket |
| `Store.ProductsStore.GetProducts` | src/stores/products.js:37-45 | a successful catalog response replaces the catalog; a failed one leaves it |
| `Store.ProductsStore.ShowProduct` | src/stores/products.js:51-59 | a successful product response replaces the product on display; a failed one leaves it |
| `Store.ProductsStore.LoadBasketFromStorage` | src/stores/products.js:269-274 | a stored basket replaces the current one, an absent slot changes nothing, and reloading what the store persisted gives back the same lines |
| `Store.ProductsStore.SyncBasketToDatabase` | src/stores/products.js:280-314 | signed out, no request; signed in, one clear and then one add per line, in basket order |
| `Store.ProductsStore.AddToBasket` | src/stores/products.js:70-99 | the basket becomes the upsert of the line; the slot holds the new basket; an info notice for a merge or a success notice for a new line; one mirror; the item count grows by `quantity`; unique keys stay unique |
| `Store.ProductsStore.RemoveFromBasket` | src/stores/products.js:106-125 | the lines of the key are filtered out; if there were any, the slot is written, a warning notice shown and the basket mirrored; if there were none, nothing changes at all |
| `Store.ProductsStore.UpdateQuantity` | src/stores/products.js:133-146 | a quantity below 1 or an absent key changes nothing; otherwise the line gets the new quantity, the slot is written and the basket mirrored; never a notice |
| `Store.ProductsStore.ClearBasket` | src/stores/products.js:152-161 | the basket is empty, the slot is absent, an info notice is shown and an empty basket is mirrored |
| `Store.ProductsStore.SearchProducts` | src/stores/products.js:189-191 | the query criterion becomes the lower-cased, trimmed query; the other criteria stay |
| `Store.ProductsStore.ClearSearch` | src/stores/products.js:197-199 | the query criterion becomes `""`; the other criteria stay |

## Left out

- Network I/O is not modelled. Responses of `getProducts` and `showProduct` are parameters. The mirror records the requests it sends. It assumes no request throws: a `fetch` that fails mid-way stops the source's loop, and the model does not capture that partial state.
- Concurrency is not modelled. Overlapping mirrors can race, and `basket` can be reassigned while a mirror awaits. The model runs each mirror to completion inside its mutation.
- JSON serialisation is not modelled. The storage slot holds the lines themselves, so the model cannot lose `undefined` fields or turn `NaN` into `null` on a round trip. The model has no storage entry that fails to parse and no slot holding a non-array.
- Object aliasing is not modelled. A line stores the caller's product object by reference. Lines are values here, so a later change to that object does not reach the basket.
- The guard for a missing or non-array catalog and for `null` entries in it (src/stores/products.js:205-211) is not modelled. The catalog is a sequence of products.
- The default argument `quantity = 1` of `addToBasket` is not modelled. The model always passes the quantity explicitly.
- The exact toast messages and the `console` output are not modelled. Only the kind of notice is kept.
- `viewMode` and Vue's reactivity (`ref`, `reactive`, `computed`) are not modelled. The derived values are functions of the state, recomputed when read.
- The bearer token sent with each mirror request is not modelled.
- JavaScript numbers become unbounded integers. Fractional prices and sizes are not modelled, and neither is floating-point rounding in the sums.
- `Text.Lower` folds only Latin A–Z and the Cyrillic capitals U+0400–U+042F, not all of Unicode. JavaScript strings, and so `trim`, `includes` and `length`, work on UTF-16 code units; the model's `char` is a Unicode scalar value, so a character outside the Basic Multilingual Plane is one element here and two there.
- `src/stores/auth.js` is not part of this model: it is HTTP calls plus request interceptors. `src/router/index.js` is not part of this model either: it is a route table and a one-line guard.
