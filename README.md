# Sneakerverse cart and listing logic in Dafny

This project models the storefront's logic that has to be right. The rest of the
storefront is 3D rendering and animation.

- **The cart store** (`Cart`, `cart_context.dfy`). The reducer takes a cart state
  `{items, total, itemCount}` and one of four commands (`ADD_ITEM`, `REMOVE_ITEM`,
  `UPDATE_QUANTITY`, `CLEAR_CART`) and returns the next state. Line items are unique
  by product id and kept in insertion order. `total` and `itemCount` are recomputed
  from the whole item list on every transition. The reducer is a pure function over
  `seq`. A `CartStore` object holds the one state and applies the reducer in `Dispatch`.
- **The cart page** (`CartPage`, `cart_page.dfy`). `updateQuantity` turns a requested
  quantity of zero or less into a removal. The minus and plus buttons request
  `quantity - 1` and `quantity + 1`, and the cross button always removes. These are
  methods on a `CartStore`. The store itself stores any quantity verbatim. The model
  proves that along the page's paths (add from a product card, ±1, set, remove) every
  stored quantity stays at least 1.
- **The shop listing** (`Shop`, `shop_page.dfy`). It starts from the six-product
  catalogue and applies:
  1. an optional case-insensitive search on name or brand;
  2. an inclusive price-range filter;
  3. an optional brand filter;
  4. a stable sort: featured (catalogue order), price ascending, price descending or
     by name.

  The page's controls (`toggleBrand`, `clearAllFilters`, the search box, the sort
  selector, the two range sliders) are methods of a `ShopPage` class. The
  active-filter count is a function.
- **The filter panel** (`Filters`, `filter_panel.dfy`). It toggles colours and sizes
  with the same add-or-remove rule as brands and has a reset. It also has the Min,
  Max and slider price inputs with their fallbacks: `parseInt(v) || 0` and
  `parseInt(v) || 500`.
- **Shared list operations** (`Lists`, `lists.dfy`). These are `Array.prototype.filter`,
  the sub-sequence relation a filter establishes, and the toggle rule.

Prices and quantities are `int`. The catalogue prices are whole numbers, and the
store accepts zero or negative quantities. `SumTotal` and `SumCount` fold left to
right, as `reduce` does. Two consequences of following the reducer as written:

- `UPDATE_QUANTITY` stores whatever quantity it carries, so a quantity is an `int`.
  That every quantity is at least 1 is proved only along the cart page's paths.
- `REMOVE_ITEM` and `UPDATE_QUANTITY` filter or map every item with the id. Under
  the proved id uniqueness, exactly one position is affected.

The Max number input turns a typed `0` into `500`, because `0` is falsy in
`parseInt(v) || 500`. The model keeps this, and `Filters.SliderVersusMaxInput`
states it next to the slider, which does set a maximum of 0.

## Model

| member | source | states |
|---|---|---|
| Lists.Filter | context/CartContext.tsx:69 | the result holds exactly the input's elements that pass the predicate, and it is no longer than the input |
| Lists.FilterIsSubsequence | app/shop/page.tsx:99-101 | a filter only deletes elements; the kept ones stay in their original order |
| Lists.FilterIdempotent | context/CartContext.tsx:69 | filtering twice with one predicate equals filtering once |
| Lists.Toggle | app/shop/page.tsx:124-128 | the toggled value is present afterwards iff it was absent; every other value keeps its membership; an absent value is appended at the end |
| Lists.ToggleTwiceAbsent | app/shop/page.tsx:126 | toggling an absent value on and off restores the exact list |
| Lists.ToggleTwiceMembership | components/FilterPanel.tsx:34-40 | toggling the same value twice restores the set of selected values |
| Lists.ToggleKeepsDistinct | components/FilterPanel.tsx:26-32 | toggling keeps a selection free of duplicates |
| Cart.SumCount | context/CartContext.tsx:49 | the item count, folded left to right, is never negative when no quantity is negative |
| Cart.TotalNonNegative | context/CartContext.tsx:48 | the total, folded left to right, is never negative when no price or quantity is negative |
| Cart.SumAppend | context/CartContext.tsx:48-49 | both folds over a concatenation are the sums of the folds over the two parts |
| Cart.Reduce | context/CartContext.tsx:37-104 | after every command, total is the sum of price times quantity and itemCount is the sum of quantities; clearing empties the items; after a removal no item has that id |
| Cart.AddExisting | context/CartContext.tsx:40-55 | adding a present id raises that one item's quantity by exactly 1, keeps its stored product rather than the payload, changes no other item or position; itemCount grows by 1 and total by the stored price |
| Cart.AddNew | context/CartContext.tsx:56-65 | adding an absent id appends one item of quantity 1 after the unchanged earlier items; itemCount grows by 1 and total by its price |
| Cart.AddTwiceAccumulates | context/CartContext.tsx:40-65 | adding an absent product twice yields one new line of quantity 2, itemCount + 2 and total + 2 × price |
| Cart.RemoveKeepsOthers | context/CartContext.tsx:68-77 | removal keeps exactly the items with another id, in their original relative order |
| Cart.RemovePresent | context/CartContext.tsx:68-77 | on unique ids, removing a present id deletes exactly its position and subtracts its quantity and line total |
| Cart.RemoveAbsent | context/CartContext.tsx:68-77 | removing an absent id leaves the items unchanged, and a consistent state unchanged |
| Cart.RemoveIdempotent | context/CartContext.tsx:69 | removing the same id twice gives the same state as removing it once |
| Cart.AddThenRemove | context/CartContext.tsx:56-77 | adding an absent product and removing its id restores the prior items, and the prior state when it was consistent |
| Cart.UpdatePresent | context/CartContext.tsx:79-92 | update stores the requested quantity verbatim (zero or negative too) in the one matching item; nothing else changes; the aggregates move by the difference |
| Cart.UpdateAbsent | context/CartContext.tsx:79-92 | updating an absent id leaves the items unchanged, and a consistent state unchanged |
| Cart.ClearIsInitial | context/CartContext.tsx:94-110 | clearing yields the initial state from any state |
| Cart.ReducePreservesUnique | context/CartContext.tsx:37-104 | no command introduces a second item with an existing id |
| Cart.RunKeepsInvariants | context/CartContext.tsx:37-104 | any sequence of commands keeps ids unique and aggregates equal to their recomputation |
| Cart.ReachableInvariants | context/CartContext.tsx:106-113 | every state reachable from the initial state has unique ids and exact aggregates |
| Cart.Scenario | context/CartContext.tsx:37-92 | add product 1 (299), add product 2 (259), set product 1 to 3 gives items [1×3, 2×1], total 1156, itemCount 4 |
| Cart.CartStore.constructor | context/CartContext.tsx:106-113 | the store starts at the empty initial state |
| Cart.CartStore.Dispatch | context/CartContext.tsx:113 | dispatching replaces the state with the reducer's result and keeps the store invariant |
| CartPage.QuantityPolicy | app/cart/page.tsx:61-67 | a requested quantity ≤ 0 acts as REMOVE_ITEM and leaves no item with that id; a positive one acts as UPDATE_QUANTITY with exactly that id and quantity |
| CartPage.Command | app/cart/page.tsx:61-70 | a page never clears the cart and never stores a quantity below 1: `updateQuantity` removes exactly when the new quantity is 0 or less, and `removeItem` always removes the id |
| CartPage.CommandKeepsPositive | app/cart/page.tsx:61-70 | add, set-quantity and remove from the pages keep every stored quantity ≥ 1 |
| CartPage.RunEventsKeepsInvariants | app/cart/page.tsx:61-70 | any sequence of page events keeps ids unique, aggregates exact and quantities ≥ 1 |
| CartPage.ReachableThroughPage | app/cart/page.tsx:61-70 | every cart reached through the pages from the empty cart has all quantities ≥ 1 |
| CartPage.EmptyViewIffNoUnits | app/cart/page.tsx:82 | on such a cart, the empty-cart branch is taken exactly when itemCount is 0 |
| CartPage.DecrementRemoves | app/cart/page.tsx:206 | the minus button on a quantity of 1 or less removes that line and keeps the others in order |
| CartPage.DecrementAboveOne | app/cart/page.tsx:206 | the minus button on quantity above 1 lowers that line by one |
| CartPage.IncrementRaisesByOne | app/cart/page.tsx:215 | the plus button always dispatches UPDATE_QUANTITY and raises that line by one |
| CartPage.ChangeQuantity | app/cart/page.tsx:61-67 | `updateQuantity` dispatches REMOVE_ITEM for n ≤ 0 and UPDATE_QUANTITY(id, n) otherwise, keeping positive quantities positive |
| CartPage.RemoveLine | app/cart/page.tsx:69-80 | `removeItem` always dispatches REMOVE_ITEM whatever the quantity; the id is gone afterwards |
| CartPage.Decrement | app/cart/page.tsx:203-210 | the rendered minus button removes a line of quantity 1 or less and otherwise lowers it by one |
| CartPage.Increment | app/cart/page.tsx:212-219 | the rendered plus button raises the line by one and keeps all quantities positive |
| Shop.IncludesIff | app/shop/page.tsx:94-95 | `includes` holds exactly when the query occurs at some position |
| Shop.IncludesSound | app/shop/page.tsx:94-95 | when `includes` succeeds, it returns a position at which the query occurs |
| Shop.IncludesComplete | app/shop/page.tsx:94-95 | an occurrence of the query at any position makes `includes` succeed |
| Shop.MatchesSearch | app/shop/page.tsx:92-96 | a product matches exactly when the lowercased query occurs in its lowercased name or brand; the empty query matches every product |
| Shop.LowerNoCapitals | app/shop/page.tsx:94-95 | lowercased text keeps its length and holds no ASCII capital |
| Shop.LowerIdempotent | app/shop/page.tsx:94-95 | lowercasing twice gives the same text as lowercasing once |
| Shop.LowerIdentity | app/shop/page.tsx:94-95 | text without ASCII capitals is unchanged by lowercasing |
| Shop.Filtered | app/shop/page.tsx:88-105 | every result is within the inclusive price range, has a selected brand when brands are selected, and matches a non-empty query; a product is kept exactly when it is in the catalogue and passes each active filter (an empty query or brand list filters nothing) |
| Shop.FilteredIsSubsequence | app/shop/page.tsx:89-105 | before sorting, the listing is a sub-sequence of the catalogue |
| Shop.InvertedRangeIsEmpty | app/shop/page.tsx:99-101 | a minimum above the maximum lists nothing |
| Shop.Compare | app/shop/page.tsx:108-119 | 'featured' ties everything; 'price-low' puts a below b exactly when a is cheaper; 'price-high' exactly when a is dearer; 'name' defers to the collation |
| Shop.Insert | app/shop/page.tsx:108-119 | inserting adds exactly one occurrence of the element |
| Shop.Sort | app/shop/page.tsx:108-119 | the sort is a permutation of its input |
| Shop.SortSorted | app/shop/page.tsx:108-113 | for the two price orders and featured, the result is ordered by the comparator's key |
| Shop.PriceLowSorted | app/shop/page.tsx:110-111 | 'price-low' gives non-decreasing prices |
| Shop.PriceHighSorted | app/shop/page.tsx:112-113 | 'price-high' gives non-increasing prices |
| Shop.SortStable | app/shop/page.tsx:108-119 | products that compare equal keep their relative order |
| Shop.FeaturedKeepsOrder | app/shop/page.tsx:116-117 | with 'featured' the comparator is 0 and the sort returns its input unchanged |
| Shop.Visible | app/shop/page.tsx:88-122 | the listing is a permutation of the filtered products and respects the price range |
| Shop.FeaturedListingInCatalogueOrder | app/shop/page.tsx:89-119 | with 'featured', the listing equals the filtered products and is a sub-sequence of the catalogue |
| Shop.VisibleMembers | app/shop/page.tsx:88-122 | every listed product is a catalogue product, within the price range, of a selected brand when brands are selected, and matching a non-empty query |
| Shop.CatalogueInDefaultRange | app/shop/page.tsx:16-34 | every catalogue price lies within the initial range 0 to 500 |
| Shop.UnfilteredListing | app/shop/page.tsx:88-122 | with an empty query, no brands, the range [0, 500] and featured order, any product list priced within that range is listed whole and in its own order |
| Shop.DefaultListingIsCatalogue | app/shop/page.tsx:16-34 | with the initial controls the listing is the whole catalogue in catalogue order |
| Shop.CatalogueWellFormed | app/shop/page.tsx:16-25 | catalogue ids are distinct and every catalogue brand is offered in the brand filter |
| Shop.ActiveFiltersCount | app/shop/page.tsx:137 | the count is the number of selected brands, plus one exactly when the range is not [0, 500] |
| Shop.ActiveFiltersZero | app/shop/page.tsx:137 | the count is never negative and is 0 exactly when no brand is selected and the range is [0, 500] |
| Shop.ShopPage.constructor | app/shop/page.tsx:29-34 | the page starts with an empty query, range [0, 500], no brands, 'featured' and the whole catalogue listed |
| Shop.ShopPage.ApplyFilters | app/shop/page.tsx:88-122 | the effect sets the listing to the filter-and-sort result; every listed product is in the catalogue, within the range and of a selected brand |
| Shop.ShopPage.ToggleBrand | app/shop/page.tsx:124-128 | toggling flips only that brand's membership and keeps the selection duplicate-free |
| Shop.ShopPage.ClearAllFilters | app/shop/page.tsx:130-137 | reset gives brands [], range [0, 500], query '' and 'featured', after which the active-filter count is 0 |
| Shop.ShopPage.SetSearchQuery | app/shop/page.tsx:409-410 | the search box sets the query |
| Shop.ShopPage.SetSortBy | app/shop/page.tsx:427-428 | the sort selector sets the order |
| Shop.ShopPage.SetMinPrice | app/shop/page.tsx:182-183 | the lower slider changes only the lower bound |
| Shop.ShopPage.SetMaxPrice | app/shop/page.tsx:194-195 | the upper slider changes only the upper bound |
| Filters.MinInput | components/FilterPanel.tsx:104-106 | the Min input changes only the lower bound, which is 0 exactly when the input is unparsable or 0 |
| Filters.MaxInput | components/FilterPanel.tsx:114-116 | the Max input changes only the upper bound; an unparsable or zero input gives 500 |
| Filters.SliderVersusMaxInput | components/FilterPanel.tsx:111-127 | the slider and the Max box set the same range for every non-zero value; on 0 the slider sets a maximum of 0 while the Max box requests 500 |
| Filters.BoundInputsCommute | components/FilterPanel.tsx:104-116 | the Min and Max inputs touch different bounds, so their order does not matter |
| Filters.FilterPanel.constructor | components/FilterPanel.tsx:17-24 | the panel starts with no colours and no sizes selected |
| Filters.FilterPanel.ToggleColor | components/FilterPanel.tsx:26-32 | an unselected colour is appended, a selected one removed, other colours untouched, no duplicates |
| Filters.FilterPanel.ToggleSize | components/FilterPanel.tsx:34-40 | the same add-or-remove rule for sizes |
| Filters.FilterPanel.ClearAllFilters | components/FilterPanel.tsx:42-46 | reset requests [0, 500] and empties both selections |
| Filters.FilterPanel.OnMinInput | components/FilterPanel.tsx:104-106 | the Min input pushes the range of `MinInput` |
| Filters.FilterPanel.OnMaxInput | components/FilterPanel.tsx:114-116 | the Max input pushes the range of `MaxInput` |
| Filters.FilterPanel.OnSlider | components/FilterPanel.tsx:225-227 | both sliders push a new upper bound and keep the lower bound |

## Left out

- Name sort: `localeCompare` is a parameter of the sort, not a model of the platform's collation. For the 'name' order only "is a permutation" is proved, not sortedness or stability.
- Case folding: `toLowerCase` is modelled for ASCII letters only. Full Unicode case mapping is not modelled.
- Number parsing: `parseInt` in the panel's number inputs is an abstract `Option<int>` (None for NaN). `Number(...)` and `parseInt(...)` of a range slider are taken to always give an integer, because a range input always holds a number.
- JavaScript numbers are doubles. The model uses unbounded integers, which agree with the source for whole prices and quantities below 2^53.
- Tax and grand total: the `* 0.08`, `* 1.08` and `toFixed(2)` display arithmetic is floating-point formatting and is not modelled.
- React plumbing: `CartProvider`, `useReducer` and `useState` wiring, and the error `useCart` throws outside a provider. The filtering effect re-runs automatically in React; here it is the explicit `ShopPage.ApplyFilters` call.
- The reducer's `default: return state` branch is not modelled, because the command type is closed and the branch cannot be reached.
- Product-page "add to cart" (a loop of `ADD_ITEM` with a chosen size) is not part of this model. Its effect is that of repeated `Cart.Reduce` with `AddItem`, and `Cart.AddExisting` shows the stored size is kept.
- Presentation state is not modelled: view mode, the mobile-filter drawer, the animations, the 3D scenes and particles, the navbar, the layout, the contact page and the build configuration.
- Sort: `Array.prototype.sort` is modelled as a stable insertion sort with the page's comparator. For a consistent comparator every stable sort gives the same result. The intermediate steps of the engine's own algorithm are not modelled.
- CartPage.Decrement, CartPage.Increment: the button is identified by the index of its rendered line. The precondition that the index is in range is what rendering from `state.items` guarantees.
- Panel price range: `priceRange` is a prop owned by the parent component. The field stands for that state as updated through `onPriceRangeChange`. Which parent renders the panel is not part of this model.
