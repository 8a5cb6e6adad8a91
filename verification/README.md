# Storefront cart and catalog filter

A Dafny model of the logic inside the storefront page component
`src/pages/Index.tsx`. The page is a single React component. It holds a
hard-coded catalog of six products and a shopping cart kept in a `useState`
cell. It derives two views of the catalog: the grid, filtered by the search
box and the selected category, and the recommended section.

The model has six modules:

- `Options` (options.dfy): the optional value used for `originalPrice` and
  for the result of `Array.prototype.find`.
- `Sequences` (sequences.dfy): the two list primitives the page builds
  everything from. `Filter` is the stable `Array.prototype.filter`. `Sum` is
  the `reduce((acc, x) => acc + f(x), 0)` fold. Their lemmas cover stability
  (an order-preserving selection of exactly the kept positions), append,
  point update and removal.
- `Text` (text.dfy): `toLowerCase` and `String.prototype.includes`.
- `Catalog` (catalog.dfy): the `Product` record, the catalog constant, the
  grid filter and the recommended filter.
- `ShoppingCart` (cart.dfy): the `CartItem` record and the pure cart
  operations `AddTo`, `RemoveFrom`, `Total`, `ItemCount` and `Badge`. It also
  holds the `Cart` class, which stands for the page's `cart` state cell: its
  `Add` and `Remove` methods replace the `items` field the way `setCart`
  replaces the state.
- `Scenarios` (scenarios.dfy): worked examples on the real catalog. Adding
  products 1, 2, 1 gives lines with quantities 2 and 1 and a total of
  139990 · 2 + 29990 = 309970. The headphones category shows only the
  AirPods. The recommended section is products 1, 2 and 4.

The cart invariant is `Valid`: at most one line per product id, and every
quantity at least 1. Every reachable cart satisfies it: the empty cart does,
and both `Add` and `Remove` preserve it.

Three consequences of the code are worth stating outright:

- Add followed by remove restores the cart only when the product had no
  line (`AddThenRemove`). When it already had one, the add bumps that line
  and the remove then drops the whole line (`AddThenRemovePresent`).
- An add raises the total by the price stored on the product's line, which
  was captured at its first add. That is the product's current price only
  while the two agree. `TotalAdd` states the exact increase, with the
  `p.price` case as a corollary.
- `addToCart`'s `map` increments every line carrying the id. So the "+1"
  properties need the uniqueness invariant, which every reachable cart has.

## Model

| member | source | states |
|---|---|---|
| `ShoppingCart.Find` | src/pages/Index.tsx:105 | `find` returns a line of the cart with the id, and returns nothing exactly when no line has that id |
| `ShoppingCart.IncrementLines` | src/pages/Index.tsx:106-110 | the `map` keeps every line in place, raises the quantity of every line carrying the id by exactly 1 (all of them, not just the first), changes nothing else on those lines, and leaves lines with other ids untouched |
| `ShoppingCart.AddTo` | src/pages/Index.tsx:103-121 | after `addToCart` the product always has a line, and the cart grows by one line exactly when it had none for the product |
| `ShoppingCart.AddExisting` | src/pages/Index.tsx:105-111 | adding a product that has a line gives the same cart with only that line's quantity raised by 1; its name, price and image and every other line stay as they were, in place |
| `ShoppingCart.AddAbsent` | src/pages/Index.tsx:113-119 | adding a product with no line appends exactly one line at the end, carrying the product's id, name, price and image with quantity 1; the earlier lines are unchanged |
| `ShoppingCart.AddKeepsValid` | src/pages/Index.tsx:103-121 | adding keeps one line per id and every quantity at least 1, and the product has a line afterwards |
| `ShoppingCart.QuantityOfLine` | src/pages/Index.tsx:22-28 | in a cart with unique ids, the units held of a product equal its line's quantity, or 0 when it has no line |
| `ShoppingCart.AddQuantity` | src/pages/Index.tsx:103-121 | one add raises the units held of the added product by exactly 1 and of every other product by 0 |
| `ShoppingCart.AddAllQuantity` | src/pages/Index.tsx:103-121 | any run of adds keeps the invariant and raises each product's units by the number of times it was added |
| `ShoppingCart.QuantityIsNumberOfAdds` | src/pages/Index.tsx:103-121 | from the empty cart, after any run of adds: one line per id, a product has a line if and only if it was added, and that line's quantity is the number of adds of it |
| `ShoppingCart.AddKeepsLine` | src/pages/Index.tsx:105-119 | an add never moves an existing line nor changes anything on it but its quantity |
| `ShoppingCart.AddAllKeepsLine` | src/pages/Index.tsx:105-119 | the same holds across any run of adds |
| `ShoppingCart.CapturedAtFirstAdd` | src/pages/Index.tsx:113-119 | a line carries the name, price and image the product had at its first add, whatever was added later (the price is frozen at add time) |
| `ShoppingCart.RemoveFrom` | src/pages/Index.tsx:123-125 | after removal no line has the id, and the lines kept are exactly the cart's lines with other ids |
| `ShoppingCart.RemoveInOrder` | src/pages/Index.tsx:124 | the kept lines are an order-preserving selection of the cart that leaves out no line with another id |
| `ShoppingCart.RemoveAbsent` | src/pages/Index.tsx:124 | removing an id with no line leaves the cart exactly unchanged |
| `ShoppingCart.RemoveAt` | src/pages/Index.tsx:123-125 | in a cart with unique ids, removing line k's id cuts out exactly line k; all other lines stay, in order |
| `ShoppingCart.RemoveKeepsValid` | src/pages/Index.tsx:123-125 | removing keeps one line per id and every quantity at least 1 |
| `ShoppingCart.AddThenRemove` | src/pages/Index.tsx:113-125 | adding a product with no line and then removing its id restores the original cart |
| `ShoppingCart.AddThenRemovePresent` | src/pages/Index.tsx:105-125 | when the product already had a line, add then remove drops that whole line rather than restoring the cart |
| `ShoppingCart.Total` | src/pages/Index.tsx:127-129 | the total is the sum of price × quantity; it is 0 exactly when every line has price 0 or quantity 0 (so 0 for the empty cart) |
| `ShoppingCart.ItemCount` | src/pages/Index.tsx:180 | the badge number is the sum of quantities; it is 0 exactly when every quantity is 0 (so 0 for the empty cart) |
| `ShoppingCart.Badge` | src/pages/Index.tsx:178-182 | the badge, when shown, shows the item count, and a hidden badge never hides an item |
| `ShoppingCart.BadgeShowsItems` | src/pages/Index.tsx:178-182 | with positive quantities, the badge is shown if and only if the item count is positive, and it shows at least one item per line |
| `ShoppingCart.TotalAdd` | src/pages/Index.tsx:103-129 | an add raises the total by the line's captured price, or by the product's price for a new line; by exactly `p.price` when the captured price is the product's price |
| `ShoppingCart.ItemCountAdd` | src/pages/Index.tsx:103-121 | every add raises the badge count by exactly 1 |
| `ShoppingCart.RemoveLowersTotals` | src/pages/Index.tsx:123-129 | removing a line lowers the total by exactly its price × quantity and the item count by its quantity |
| `ShoppingCart.TotalBound` | src/pages/Index.tsx:127-129 | the total never exceeds the highest line price times the item count |
| `ShoppingCart.Cart.constructor` | src/pages/Index.tsx:32 | the cart state starts empty, which satisfies the invariant |
| `ShoppingCart.Cart.Add` | src/pages/Index.tsx:103-121 | `addToCart` replaces the cart with `AddTo` of the old cart and keeps the invariant |
| `ShoppingCart.Cart.Remove` | src/pages/Index.tsx:123-125 | `removeFromCart` replaces the cart with `RemoveFrom` of the old cart: no line with the id is left, the invariant is kept, and an absent id changes nothing |
| `Sequences.Filter` | src/pages/Index.tsx:124 | `filter` returns no more elements than it was given, and only kept ones |
| `Sequences.FilterMembers` | src/pages/Index.tsx:135-141 | an element is in a filtered list exactly when it is in the list and kept |
| `Sequences.FilterIsSelection` | src/pages/Index.tsx:135-141 | `filter` is stable: its result is the kept elements at increasing positions of the source, none left out |
| `Sequences.Sum` | src/pages/Index.tsx:128 | the `reduce` sum is 0 exactly when every term is 0 |
| `Catalog.ProductsWellFormed` | src/pages/Index.tsx:36-101 | every catalog entry carries a real category from the category bar, never the 'Все товары' sentinel, and no two entries share an id |
| `Catalog.FilteredProducts` | src/pages/Index.tsx:135-139 | a product is in the grid exactly when its lower-cased name contains the lower-cased query and the category is the sentinel or equals its own |
| `Catalog.FilteredProductsInOrder` | src/pages/Index.tsx:135-139 | the grid keeps catalog order and leaves out no matching product |
| `Catalog.FilterNothing` | src/pages/Index.tsx:135-139 | an empty query with the 'Все товары' sentinel shows the whole catalog, in order |
| `Catalog.FilterByCategoryOnly` | src/pages/Index.tsx:137 | an empty query with a real category shows exactly the products of that category, in order, whatever their names |
| `Catalog.SearchIgnoresCase` | src/pages/Index.tsx:136 | lower-casing the query first never changes the grid |
| `Catalog.RecommendedProducts` | src/pages/Index.tsx:141 | a product is in the recommended section exactly when it is flagged `isRecommended` |
| `Catalog.RecommendedInOrder` | src/pages/Index.tsx:141 | the recommended section keeps catalog order and leaves out no flagged product |
| `Text.LowerChar` | src/pages/Index.tsx:136 | a lower-cased character is never a capital, and a non-capital is left unchanged |
| `Text.Lower` | src/pages/Index.tsx:136 | `toLowerCase` keeps the length, leaves no capital, and leaves every non-capital character as it was |
| `Text.LowerIdempotent` | src/pages/Index.tsx:136 | lower-casing twice is lower-casing once |
| `Text.IncludesIff` | src/pages/Index.tsx:136 | `includes` holds if and only if the query occurs at some position of the string |
| `Text.Includes` | src/pages/Index.tsx:136 | `includes` holds for the empty query on every string, and never for a query longer than the string |
| `Text.IncludedChars` | src/pages/Index.tsx:136 | every character of an included query occurs in the string |
| `Scenarios.TotalExample` | src/pages/Index.tsx:36-59 | the cart holding two iPhones and one pair of AirPods totals 309970 and shows 3 on the badge |
| `Scenarios.RecommendedExample` | src/pages/Index.tsx:36-99 | the recommended section of the catalog is products 1, 2 and 4 |
| `Scenarios.HeadphonesExample` | src/pages/Index.tsx:36-99 | the 'Наушники' category with an empty query shows only the AirPods |
| `Scenarios.SearchExample` | src/pages/Index.tsx:36-59 | the query "IPHONE" matches the iPhone's name and not the AirPods' |

## Left out

- All JSX rendering, styling, and the header, hero, about, footer and cart-panel markup (src/pages/Index.tsx:143-498). They are presentation only.
- React reactivity and re-rendering. `setCart(prev => next)` is modelled as an assignment to `Cart.items`. The derived views are functions of the current state.
- `formatPrice`. It delegates to `Intl.NumberFormat('ru-RU')`, whose locale grouping rules are outside this model.
- The `rating` field and the star rendering from `Math.floor(rating)`. These are floating-point values used for display only.
- The search input, the category buttons and the `isCartOpen` toggle. They are plain flag assignments. The query and the selected category appear as parameters of `FilteredProducts`.
- ShoppingCart.Find: does not state that the line returned is the first one with the id. `addToCart` only tests whether a line exists.
- Text.LowerChar: lower-cases only the Latin capitals A-Z and the basic Cyrillic capitals U+0400-U+042F. The rest of Unicode's `toLowerCase` mapping (other scripts, length-changing special cases) is not modelled.
- JavaScript number semantics. Prices and quantities are unbounded naturals, so double-precision rounding and overflow of very large totals are not modelled. `TotalBound` bounds the total by the highest price times the item count.
- The checkout button. It is a stub with no behaviour.
