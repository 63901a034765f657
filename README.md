# Shopnar-Shop storefront core in Dafny

This is a model of the client-side logic of the Shopnar-Shop single-page storefront (`script.js`). The model covers these parts:

- **Catalog**: the 120 placeholder products, 30 for each of the categories `mens`, `girls`, `baby` and `accessories`. Ids run from 1 to 120, and each price is drawn from 500..3499.
- **Listing pipeline**: the category filter, the search over the name and description (trimmed and lower-cased), and the `price-asc` / `price-desc` sort. The product grid grows in pages of 18. A "load more" button stays visible while more items are left.
- **Cart**: add, change the quantity, remove, the badge count, and the subtotal, delivery charge (60) and total.
- **Checkout**: placing an order. An empty cart places nothing. When the stored orders parse to something other than a list, `orders.push` throws, so nothing is stored and the cart is kept. Otherwise an `ORD<timestamp>` order is stored and the cart is cleared.
- **Helpers**: HTML escaping, the address autocomplete's 3-character rule and lookup debounce, the keyboard highlighting of suggestions, and the category-navigation label mapping.

State that `script.js` keeps in module-level variables and updates in place becomes a class:

- `Storefront` holds the listing globals.
- `Shop` holds the cart and the stored orders.

Each method is proved against pure functions of the old state, and the properties are proved as lemmas about those functions. Pure computations become functions. These inputs become method parameters:

- the random prices;
- `Date.now()` and the ISO timestamp;
- the values of the search box, the sort select and the checkout form;
- the catalogue that `addToCart` looks products up in (the `products` global).

Modules (one per file): `Wrappers`, `Seqs`, `Strings`, `HtmlEscape`, `Autocomplete`, `Catalog`, `Listing`, `Storefront`, `Cart`, `Checkout`.

## Model

| member | source | states |
|---|---|---|
| Strings.Trim | script.js:53 | The result is a contiguous slice of the input. Everything removed from either end is whitespace. A non-empty result begins and ends with a non-whitespace character. |
| Strings.TrimIdempotent | script.js:334 | Trimming an already trimmed string changes nothing. |
| Strings.ToLower | script.js:53-54 | Lower-casing keeps the length and every character other than A–Z. Each capital becomes the lower-case letter whose upper case it is, so no capital is left. |
| Strings.ToLowerIdempotent | script.js:53-54 | Lower-casing an already lower-cased string changes nothing. |
| Strings.Contains | script.js:54 | No contract of its own: `includes`. Its meaning is given by ContainsIffOccurs and ContainsEmpty. |
| Strings.ContainsIffOccurs | script.js:54 | `includes` holds exactly when the query occurs at some position of the text. |
| Strings.ContainsEmpty | script.js:54 | Every text includes the empty query. |
| Strings.NatToString | script.js:241 | The decimal rendering of a number is non-empty, made only of digits, and has no leading zero. Together with NatToStringRoundTrip this makes it the text a template literal prints. |
| Strings.NatToStringRoundTrip | script.js:241 | Reading the decimal rendering back gives the original number. |
| HtmlEscape.Entity | script.js:400 | Each special character maps to a text that starts with `&` and is longer than one character, and every other character maps to itself. Which entity each one is (`&amp;`, `&lt;`, `&gt;`, `&quot;`, `&#39;`, `&#96;`) is pinned by UnescapeEscape, through the separately written decoder. |
| HtmlEscape.EscapeHtml | script.js:399-401 | The output is at least as long as the input and contains none of `< > " ' \``. |
| HtmlEscape.EscapeAppend | script.js:399-401 | Escaping works character by character: escaping a concatenation concatenates the escapes. |
| HtmlEscape.EscapeUnchangedIff | script.js:399-401 | Escaping leaves a string unchanged exactly when it has none of the six special characters. |
| HtmlEscape.UnescapeEscape | script.js:399-401 | Escaping loses no information: decoding the entities restores the original string. |
| Autocomplete.OnAddressInput | script.js:333-340 | The suggestions are cleared exactly when the trimmed value is shorter than 3 characters. Otherwise a lookup is scheduled for the trimmed value. |
| Autocomplete.OnTimerFired | script.js:341-343 | The debounced callback fetches exactly when its query differs from the last one fetched, and it records that query as the last one. |
| Autocomplete.RepeatedQueryLookedUpOnce | script.js:341-343 | When the same query fires twice in a row, the second firing fetches nothing. |
| Autocomplete.SetActiveItem | script.js:381-384 | At most one item is highlighted. It is the requested index when that index is within the list, and no item otherwise. |
| Autocomplete.OnKeyDown | script.js:370-379 | ArrowDown moves the highlight to min(count-1, i+1), starting from -1 when nothing is highlighted. ArrowUp moves it to max(0, i-1). Neither arrow changes whether the list is shown, and neither chooses anything. Enter on a highlighted item chooses it and only hides the list. Enter with no highlight, any other key, or a hidden list changes nothing. |
| Autocomplete.Press | script.js:376-377 | Repeated key presses keep the suggestion state well formed and the item count unchanged. |
| Autocomplete.ArrowDownWalks | script.js:376 | After n ArrowDown presses from no highlight, item min(n, count)-1 is highlighted, so the highlight stops at the last item. |
| Autocomplete.DownThenUp | script.js:376-377 | From a highlighted item that is not the last one, ArrowDown then ArrowUp returns the list to exactly its former state. |
| Catalog.ItemName | script.js:30 | No contract of its own: the capitalised category, ` item ` and the slot number. It is pinned per slot by GeneratedCatalog's ensures. |
| Catalog.SlotProduct | script.js:28-35 | No contract of its own: the object literal pushed for slot k. GeneratedCatalog's ensures state each of its fields. |
| Catalog.GeneratedCatalog | script.js:23-38 | There are 120 products. Slot k has id k+1, category `Categories[k / 30]`, name `ItemName(Categories[k / 30], k%30+1)` (for example `Mens item 7`), its drawn price, an empty image and the placeholder description. |
| Catalog.ExtendPrefix | script.js:27-35 | Pushing slot i of category c extends a correct prefix of the catalog by one product. |
| Catalog.CatalogPrices | script.js:31 | When the drawn prices lie in [500, 3499], every product's price does too. |
| Catalog.FindProduct | script.js:144 | The lookup returns the first product in the list with the requested id, and returns nothing exactly when no product has that id. |
| Catalog.FindInCatalog | script.js:23-38 | In the generated catalog, ids 1..120 find slot id-1 and every other id finds nothing. |
| Catalog.CategorySize | script.js:12-37 | Filtering the catalog by a category gives 30 products for each of the four categories and none for any other name. |
| Listing.SelectedIsListable | script.js:51-54 | The category step and the search step together equal a single filter by "in the category (or `all`) and matching the normalised query". |
| Listing.InsertByPrice | script.js:57-58 | Insertion adds exactly the new product (as a multiset). |
| Listing.SortByPrice | script.js:57-58 | Sorting is a permutation of its input. |
| Listing.SortByPriceOrdered | script.js:57-58 | The sorted list is in ascending price order for `price-asc` and in descending order for `price-desc`. |
| Listing.SortBy | script.js:56-58 | No contract of its own: the sort chosen by the control's value. ListedSpec states its effect. |
| Listing.Listed | script.js:51-58 | No contract of its own: the filtered and sorted `list` of `renderProducts`. ListedSpec states what it holds and in which order. |
| Listing.ListedSpec | script.js:51-58 | The listed items are a permutation of the products that pass the category and search filters. They are in price order under either price sort, and in catalog order under any other sort value. |
| Listing.ListedWithoutFilters | script.js:119-123 | With category `all`, an empty search box and a sort value that is neither price sort, the listing is the catalogue in its own order, as `resetFilters` relies on. |
| Listing.PageItems | script.js:60-61 | No contract of its own: `list.slice(start, start + perPage)`. AfterLoadsShowsPrefix states what the pages add up to. |
| Listing.LoadMoreShown | script.js:68-69 | No contract of its own: the button test `start + perPage >= list.length`. LoadMoreHiddenIffAllShown gives its meaning. |
| Listing.Render | script.js:47-62 | No contract of its own: one `renderProducts(reset)` on the page and the grid. AfterLoadsShowsPrefix states the grid after a reset and k loads. |
| Listing.LoadMoreStep | script.js:97-100 | No contract of its own: `currentPage++` and a render without reset. AfterLoadsShowsPrefix states its effect. |
| Listing.AfterLoads | script.js:97-108 | No contract of its own: a reset render followed by k `loadMore` calls. AfterLoadsShowsPrefix states its value. |
| Listing.AfterLoadsShowsPrefix | script.js:60-62 | A reset render followed by k "load more" clicks shows page k+1, and the grid holds exactly the first 18·(k+1) listed items. |
| Listing.LoadMoreHiddenIffAllShown | script.js:67-69 | After k clicks the button is hidden exactly when every listed item is on the grid. |
| Listing.NavLabel | script.js:428-430 | A trimmed, lower-cased button text maps to itself when it is `all` or a category, and to the empty string otherwise. The body is the source's five-way conditional, LabelChain. |
| Listing.LabelChainIsMembership | script.js:430 | The five-way conditional keeps a text exactly when it is one of the labels `all`, `mens`, `girls`, `baby`, `accessories`, and gives the empty string otherwise. |
| Listing.NavActiveIff | script.js:428-431 | For any non-empty current category, a nav button is active exactly when its normalised text is one of the labels and equals the current category. So for a category outside the labels, such as `sale`, no button is active. |
| Listing.NavActiveOnEmptyCategory | script.js:428-431 | With an empty current category, exactly the buttons whose normalised text is not a label are active, because their text maps to the empty string. |
| Storefront.Storefront.constructor | script.js:41-44 | The listing starts empty, on category `all`, page 1. |
| Storefront.Storefront.GenerateProducts | script.js:23-38 | The nested loops leave `products` equal to the generated catalog for the drawn prices. |
| Storefront.Storefront.RenderProducts | script.js:46-69 | The new page and grid equal `Render` of the old ones over the current list. A reset goes back to page 1 and an empty grid before that page's items are appended. The button is shown exactly when items beyond this page remain. |
| Storefront.Storefront.LoadMore | script.js:97-100 | The page advances by one, and that page's items are appended to the grid. |
| Storefront.Storefront.ShowCategory | script.js:103-108 | The category is set, and the view is the first page of the new list. |
| Storefront.Storefront.SelectHeroCategory | script.js:407-412 | The hero click handler sets the category and leaves the page and the grid unchanged. |
| Storefront.Storefront.PerformSearch | script.js:109-113 | The view is the first page of the list under the given query. |
| Storefront.Storefront.ApplySort | script.js:114-118 | The view is the first page of the list under the given sort. |
| Storefront.Storefront.ResetFilters | script.js:119-123 | The category becomes `all` and the page 1. The grid holds the first 18 products in catalog order. The button is shown exactly when there are more than 18 products. |
| Cart.FindIndex | script.js:146 | The index of the first cart entry with the id, or none exactly when no entry has it. |
| Cart.NewLine | script.js:148 | No contract of its own: the line `{id, name, price, qty: 1}`. CartAfterAdd and AddEffects state its use. |
| Cart.CartAfterAdd | script.js:143-148 | An unknown id leaves the cart unchanged. A new id appends the product with quantity 1. In a cart with distinct ids, an id already in the cart raises that entry's quantity by 1 and leaves every other entry alone. |
| Cart.AddEffects | script.js:143-148 | Adding a known product keeps the cart valid (distinct ids, quantities at least 1) and raises the badge count by 1. The subtotal rises by the entry's price when the product is in the cart, and by the catalog price when it is not. |
| Cart.CartAfterRemove | script.js:189-190 | Afterwards no entry has the id, and exactly the other entries remain. |
| Cart.RemoveAbsent | script.js:190 | Removing an id that is not in the cart changes nothing. |
| Cart.RemoveAppend | script.js:190 | Removal works entry by entry over a concatenation. |
| Cart.CartAfterChange | script.js:181-185 | Its own contract: an id that is not in the cart leaves the cart unchanged. The two other branches are stated by ChangeSpec. |
| Cart.ChangeSpec | script.js:181-185 | The entries with other ids are unchanged, and the changed id's entry, if it remains, has quantity old+delta. |
| Cart.ChangeEffects | script.js:181-188 | A change keeps a valid cart valid. When the entry stays, the count moves by delta and the subtotal by price·delta. When the entry is removed, its quantity and line total are subtracted. |
| Cart.RemoveEffects | script.js:189-190 | Removing any id, present or not, keeps a valid cart valid. |
| Cart.Subtotal | script.js:195 | No contract of its own: `cart.reduce((s,i) => s + i.price * i.qty, 0)`. SumsAppend, SumsBumped, SumsRemoved and the effect lemmas state how each cart operation moves it. |
| Cart.ItemCount | script.js:155 | No contract of its own: the badge's `cart.reduce((s,i) => s + i.qty, 0)`; the trailing `or 0` there only maps 0 to 0. CountZeroIffEmpty and the effect lemmas state its properties. |
| Cart.Total | script.js:198 | No contract of its own: subtotal plus 60. Shop.Totals and NewOrderSpec state it. |
| Cart.SumsAppend | script.js:194-195 | The count and the subtotal are additive over concatenation. |
| Cart.SumsRemoved | script.js:189-195 | The count and the subtotal after removal are the old values minus the removed entry's share. |
| Cart.CountZeroIffEmpty | script.js:155 | For a valid cart the badge count is at least the number of entries, and it is 0 exactly when the cart is empty. |
| Checkout.OrderId | script.js:241 | No contract of its own: `'ORD' + Date.now()`. OrderIdsDiffer and NewOrderSpec state its properties. |
| Checkout.NewOrder | script.js:234-248 | No contract of its own: the order record built from the cart and the trimmed form. NewOrderSpec states its fields. |
| Checkout.ReadOrders | script.js:251-252 | No contract of its own: the parsed list, or `[]` when the key is missing or the text does not parse. SubmitOrder states its use. |
| Checkout.CanAppend | script.js:253 | No contract of its own: `orders.push` works only when the parsed value is a list. SubmitOrder states what happens otherwise. |
| Checkout.NewOrderSpec | script.js:240-248 | The order carries the cart's items, the subtotal, a delivery charge of 60 and total = subtotal + 60. The digits of its id after `ORD` read back as the timestamp. |
| Checkout.OrderIdsDiffer | script.js:241 | Orders placed at different timestamps get different ids. |
| Checkout.Shop.constructor | script.js:133 | The shop starts with an empty cart and the given stored orders. |
| Checkout.Shop.AddToCart | script.js:143-148 | The cart becomes `CartAfterAdd` of the old cart and stays valid. The catalogue is passed in; in the page it is the `products` global that `Storefront` holds. |
| Checkout.Shop.ChangeQty | script.js:181-188 | The cart becomes `CartAfterChange` of the old cart and stays valid. |
| Checkout.Shop.RemoveFromCart | script.js:189-190 | The cart becomes `CartAfterRemove` of the old cart, and a valid cart stays valid. |
| Checkout.Shop.Totals | script.js:194-198 | The shown subtotal, delivery and total are the cart's subtotal, 60, and their sum. |
| Checkout.Shop.SubmitOrder | script.js:228-257 | An order is placed exactly when the cart is non-empty and the stored value is not valid JSON other than a list. When nothing is placed, nothing changes: for such a value `orders.push` throws before anything is saved, and the cart is kept. Otherwise the new order is appended after the stored orders (a missing or unparseable value counts as empty) and the cart becomes empty. |

## Left out

- The DOM is not modelled: `productCardHTML`, the grid's `innerHTML`, the products title, the cart sidebar markup, the toggles, `quickView`, `alert`, `showTransient`, the modal open/close, `onPaymentMethodChange`, `updateHeroActionsActive` and the hero buttons' active classes are presentation only. The hero handler's write to `currentCategory` is modelled by SelectHeroCategory. The `onclick` attribute that runs `showCategory` for a hero button lives in the page markup, which is not part of this model, so neither is the order in which the two handlers run.
- `initUI` (script.js:446-459) is not modelled as one method. Of its start-up steps, `generateProducts` is modelled by GenerateProducts and `showCategory('all')` by ShowCategory. `loadCart` is left out (see below), and the remaining steps set up the page.
- `loadCart`/`saveCart` and the persisted cart are not modelled. `Shop` starts from an empty cart. A cart read back from localStorage is not checked for distinct ids or positive quantities.
- `JSON.parse` and `JSON.stringify` are not modelled as text. The stored orders value is one of four cases: absent, a list of orders, valid JSON that is not a list, or text that does not parse.
- `fetchAddressSuggestions` (network), `showSuggestions`' markup and the suggestion click handler's text fill are not modelled. Only the decisions about when to clear and when to fetch are.
- The 350 ms debounce timer and `clearTimeout` are left out. `OnTimerFired` models only the callback's decision once it runs.
- `Math.random()` is a parameter: a sequence of 120 prices. `Date.now()` and `new Date().toISOString()` are parameters too.
- `Shop.AddToCart` takes the catalogue as a parameter instead of reading the `products` global, because the cart and the listing state are two separate classes.
- Strings.ToLower: only ASCII letters are case-mapped, whereas `toLowerCase` and `toUpperCase` map all of Unicode.
- Strings: lengths count Unicode characters, not UTF-16 code units, so `q.length < 3` differs for characters outside the Basic Multilingual Plane.
- Prices, the count and the subtotal are unbounded integers. JavaScript numbers are doubles, which agree only below 2^53.
- Listing.SortByPrice: stability is not stated. `Array.prototype.sort` is stable, and so the order among equal prices is not proved.
- The search box and sort select are read on each render. The model passes them as parameters, so after a search, consecutive "load more" calls may see different values, just as the page can.
- `submitGiveawayForm`, its `FileReader` and the giveaway modal are not modelled.
- `order.items` aliasing the cart array is not modelled. The cart is reassigned to a fresh empty list afterwards, so the stored order keeps the old entries either way.
