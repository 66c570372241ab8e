# dulin2 storefront: a Dafny model

This project models the logic of the dulin2 furniture storefront. The shop has a
small Express and Prisma backend and a set of browser scripts. The model covers:

- **Order placement** (`POST /api/orders`). The request is validated, each line
  becomes an item snapshot priced from the catalogue, and shipping, tax and
  total are computed in kobo. The customer is upserted by email, an order row
  is written, and the receipt is rounded to naira.
- **The account input checks**: signup, change-password and change-email. These
  are the required-field checks, the email pattern and the password length.
- **The `q` filter** of `GET /api/products`.
- **The cart** (cart.js). The page-global array is changed by `addToCart`,
  `removeFromCart` and `updateQuantity`. The count and the summary are derived
  from it.
- **The product page** (products.js). Database rows and static catalogue items
  are mapped to one shape, the static items are filtered by the search box, the
  two groups are merged and optionally sorted by price, each card gets an
  add-to-cart payload, and the suggestion dropdown is built.
- **The header** (main.js). This covers `toNaira`, `searchProducts` and its input
  and submit handlers, and the mobile-menu toggle.

How the JavaScript is represented:

- Money is an integer count of kobo on the server and of naira in the cart.
- `Number(v)` is `NaN` or an integer (`JsValues.Num`).
- `Math.round(x/100)` is `(x + 50) div 100`.
- JavaScript strings are sequences of `char`.
- Stateful parts are classes whose methods are tied to pure functions of the old
  state: `ServerStore.Store` (users and orders), `ClientCart.Cart` (the cart
  array) and `MobileMenu.Menu` (the menu's classes and attributes). The price
  sort works in place on an `array`.
- Everything fetched is passed in as a parameter: the product rows, the static
  catalogue and the response status.

In these respects the model follows the code as written:

- The receipt rounds each kobo amount half up to whole naira (`Math.round`).
- The customer upsert and the order insert are two separate, non-atomic writes.
- The order path upserts the customer by the email exactly as sent. It is not
  lowercased, unlike the account endpoints.
- An order line that is `null` makes the handler throw while reading its
  `productId`, so the request answers 500 "Failed to create order".

## Model

| member | source | states |
|---|---|---|
| ServerOrders.ProductIds | src/server.js:261-264 | The converted ids are as many as the lines exactly when every `productId` is numeric, and then they are the lines' ids in order |
| ServerOrders.Objects | src/server.js:255-261 | Once no element of `items` is `null`, the fields read are one per line, in order |
| ServerOrders.FindMany | src/server.js:266 | `findMany({id: {in: ids}})` returns catalogue rows only, each with a requested id, and every catalogue row with a requested id |
| ServerOrders.FindById | src/server.js:273 | `find` succeeds exactly when some row has the id, and returns a row with that id; with unique ids it is that row |
| ServerOrders.ClampQuantity | src/server.js:274 | `max(1, Number(q) \|\| 1)` is at least 1, equals q when q ≥ 1, and is 1 for 0, negatives and NaN |
| ServerOrders.Snapshot | src/server.js:275-281 | A snapshot copies the product's id, name, image and kobo price with the clamped quantity; Snapshots and PriceOrder state it line by line |
| ServerOrders.Snapshots | src/server.js:272-282 | One snapshot per request line, in order, copying id, name, image and price from the matching row with the clamped quantity; it fails exactly when some line's product is missing |
| ServerOrders.Subtotal | src/server.js:284 | The sum of price × quantity over the snapshots; Totals ties it to the stored subtotal and SubtotalNonNegative bounds it |
| ServerOrders.Shipping | src/server.js:285 | Shipping is 0 exactly when the subtotal exceeds 5,000,000 kobo, and otherwise 150,000 kobo, at the threshold too |
| ServerOrders.Tax | src/server.js:286 | Tax is 7.5% of the subtotal rounded half up to a whole kobo: 1000·tax − 500 ≤ 75·subtotal < 1000·tax + 500 |
| ServerOrders.Totals | src/server.js:284-287 | The priced order keeps its items, and its subtotal, shipping, tax and total are related as the source computes them, with the total equal to subtotal + shipping + tax |
| ServerOrders.PriceOrder | src/server.js:255-287 | Missing or empty items, a non-numeric id, and a match count different from the line count are each rejected exactly when they occur, in that order; a `null` line answers the catch-all failure; on success every line has a snapshot from its own product, every quantity is at least 1, and the amounts are priced |
| ServerOrders.PriceLines | src/server.js:261-287 | For a non-empty array of lines: a non-numeric id and a short lookup are each rejected exactly when they occur; on success each line's snapshot comes from its own catalogue product and the amounts are priced |
| ServerOrders.SnapshotsFromCatalogue | src/server.js:266-282 | The snapshots built from the fetched rows are the snapshots of the catalogue's rows, one per line, each with a quantity of at least 1 |
| ServerOrders.FindByIdInRows | src/server.js:266-273 | Looking up a requested id in the fetched rows gives the same result as looking it up in the whole catalogue |
| ServerOrders.ElementsCount | src/server.js:261-267 | A sequence of ids has at most as many distinct values as entries, and exactly as many when no id repeats |
| ServerOrders.FindManyCount | src/server.js:266-267 | With unique catalogue ids, `findMany` returns one row per distinct requested id that the catalogue holds |
| ServerOrders.FindManyCountIff | src/server.js:266-269 | The row count equals the id count exactly when the ids are distinct and all listed |
| ServerOrders.AcceptedExactly | src/server.js:256-287 | With unique catalogue ids, an order is priced exactly when its items are non-empty, none is `null`, and their ids are all numeric, listed in the catalogue and pairwise distinct; the catch-all failure answers exactly when some line is `null` |
| ServerOrders.LinesAcceptedExactly | src/server.js:261-282 | With unique catalogue ids, a non-empty array of object lines is priced exactly when its ids are all numeric, listed and pairwise distinct, and the lookup inside `map` never misses |
| ServerOrders.UnknownIdRejects | src/server.js:266-269 | One unknown product id among object lines rejects the whole order as "Some products not found" |
| ServerOrders.RepeatedIdRejects | src/server.js:266-269 | A product id repeated on two object lines rejects the whole order as "Some products not found" |
| ServerOrders.ToReceipt | src/server.js:312-319 | Each receipt amount is its kobo amount rounded half up to naira, and the status is "pending" |
| ServerOrders.ReceiptPartsNeedNotAddUp | src/server.js:312-319 | For one ₦5.40 item the rounded parts add up to ₦1,505 while the rounded total is ₦1,506 |
| ServerOrders.PricingExamples | src/server.js:285-286 | 100,000 kobo pays 7,500 kobo of tax; 29,900 kobo pays 2,243 (2,242.5 rounded up); exactly ₦50,000 (5,000,000 kobo) still pays shipping and one kobo more does not |
| ServerOrders.SubtotalNonNegative | src/server.js:284-287 | With non-negative prices and quantities, the subtotal and tax are non-negative and the total is at least the subtotal |
| ServerStore.Upsert | src/server.js:290-298 | The email becomes a key and nothing else changes. An existing customer keeps their id and password hash and has their name replaced only by a truthy name. A new customer gets the next id, the name or null, and an empty password hash |
| ServerStore.GivenName | src/server.js:294-295 | `name \|\| null` keeps only a non-empty name; Upsert states how it is stored |
| ServerStore.UpsertKeepsValid | src/server.js:290-298 | Upserting keeps customer ids unique, keyed by their own email, and below the next id |
| ServerStore.UpsertTwiceSameUser | src/server.js:290-298 | Upserting the same email twice links both orders to the same customer id and adds no second customer |
| ServerStore.OrderRow | src/server.js:300-310 | The stored row has the given id and customer link, the snapshots and the four kobo amounts of the priced order, and status "pending" |
| ServerStore.Store.constructor | src/server.js:253-324 | An empty store over a catalogue with unique ids is valid |
| ServerStore.AppendKeepsOrdersValid | src/server.js:300-310 | Appending a priced row under the next id keeps the ids increasing and below the next id, and every row's total the sum of its parts |
| ServerStore.FailsOnlyOnNullLine | src/server.js:261-282 | With unique catalogue ids the lookup inside `map` never misses, so the catch-all failure answers exactly when some line is `null` |
| ServerStore.Place | src/server.js:253-324 | The whole request: pricing, then the writes of Record; RejectionWritesNothing, AcceptanceWritesOneOrder and PlaceKeepsValid state its effect |
| ServerStore.Record | src/server.js:288-319 | The writes once pricing is known; RecordAppendsOne and RejectionWritesNothing state its effect |
| ServerStore.RejectionWritesNothing | src/server.js:256-269 | A rejected request upserts no customer, writes no order and answers with its rejection |
| ServerStore.AcceptanceWritesOneOrder | src/server.js:288-319 | An accepted request appends exactly one row under the next id with the priced snapshots and amounts, answers with that row's receipt, and links the row to the customer stored under the email exactly when the email is truthy |
| ServerStore.RecordAppendsOne | src/server.js:288-319 | Recording any priced order appends one row under the next id with its items and amounts, answers with its receipt, and links the row to the customer stored under a truthy email |
| ServerStore.PlaceKeepsValid | src/server.js:253-324 | Every request keeps the customer and order tables valid, and answers with the catch-all failure exactly when a line is `null` |
| ServerStore.RecordKeepsValid | src/server.js:288-319 | Recording keeps the customer and order tables valid, passes a rejection through unchanged, and answers a priced order with success |
| ServerStore.Store.PlaceOrder | src/server.js:253-324 | The new tables, next id and answer are what `Place` gives for the old tables, the request and the catalogue; the store stays valid, and the catch-all failure answers exactly when a line is `null` |
| ServerStore.Store.RecordOrder | src/server.js:288-319 | The writes of a priced request: the customer upsert when the email is truthy, then the order row, leaving the tables, next id and answer `Record` gives |
| ServerAuth.IndexOfAt | src/server.js:96 | The position of the first `@`, or the length when there is none |
| ServerAuth.MatchesEmailPattern | src/server.js:96 | The regular expression as a split of the whole string into local part, domain and top-level part, with no `@` or whitespace in any |
| ServerAuth.IsValidEmail | src/server.js:96 | The executable test of the regular expression; EmailCheckIsPattern proves it agrees with MatchesEmailPattern |
| ServerAuth.EmailCheckIsPattern | src/server.js:96 | The executable email check accepts exactly the strings of the form local@domain.tld where no part is empty and none contains `@` or whitespace |
| ServerAuth.EmailCheckIgnoresCase | src/server.js:95-96 | Lowercasing before the check does not change its verdict |
| ServerAuth.SameMarksSameVerdict | src/server.js:96 | The check sees only whitespace, `@` and `.`: two strings alike in those positions get the same verdict |
| ServerAuth.ValidateSignup | src/server.js:93-97 | A missing email or password, an invalid email and a password shorter than 6 are each reported exactly when they are the first failure, and success returns the lowercased email |
| ServerAuth.ValidatePasswordChange | src/server.js:179-181 | A missing password is reported, then a new password shorter than 6, each exactly when it applies |
| ServerAuth.ValidateEmailChange | src/server.js:199-202 | A missing field is reported, then an invalid email, each exactly when it applies, and success returns the lowercased new email |
| ServerProducts.FilterByQuery | src/server.js:73-81 | A falsy `q` keeps every row; otherwise a row is kept exactly when its lowercase name, category or description contains the lowercase query |
| ServerProducts.MatchesQuery | src/server.js:75-79 | Some of name, category and description, lowercased, contains the lowercased query; FilterByQuery keeps exactly the rows it holds for |
| ServerProducts.QueryCaseInsensitive | src/server.js:75-79 | A query and its lowercase form select the same rows |
| ServerProducts.NameMatchKept | src/server.js:75-79 | A row whose name contains the query in any letter case is kept |
| ClientCart.FirstIndexOf | cart.js:15 | `find` locates the first element with the id, or reports that none has it |
| ClientCart.NewItem | cart.js:20-26 | A new element copies the product's id, name, price and image with quantity 1; AddNewAppends states the effect |
| ClientCart.Added | cart.js:14-27 | The cart after `addToCart`; AddExistingIncrements, AddNewAppends and AddKeepsInvariants state it |
| ClientCart.SpliceStart | cart.js:52 | `splice` starts at the index when it lies in range, counts a negative index from the end, and clamps both ends |
| ClientCart.Spliced | cart.js:52 | The cart after `splice(index, 1)`; RemoveInRange, RemoveOutOfRange and RemoveKeepsInvariants state it |
| ClientCart.CartSummary | cart.js:110-115 | The subtotal is Σ price × quantity. Shipping is 0 exactly when the subtotal exceeds ₦50,000 and ₦1,500 otherwise. Tax is exactly 3/40 of the subtotal, and the total is their sum |
| ClientCart.TotalQuantity | cart.js:8 | The sum of the quantities; TotalQuantityAppend, TotalQuantityUpdate and CountCoversLines state its properties |
| ClientCart.Subtotal | cart.js:112 | The sum of price × quantity; CartSummary and SummaryAgreesWithServer state its use |
| ClientCart.SummaryAgreesWithServer | cart.js:112-115 | For the same whole-naira subtotal the page's shipping is the server's, and the server's kobo tax is the page's within half a kobo |
| ClientCart.TotalQuantityAppend | cart.js:8 | The count of two carts laid end to end is the sum of their counts |
| ClientCart.TotalQuantityUpdate | cart.js:8 | Replacing one element changes the count by the difference of the two quantities |
| ClientCart.CountCoversLines | cart.js:8 | With every quantity at least 1, the count is at least the number of lines |
| ClientCart.AddExistingIncrements | cart.js:15-18 | Adding a product already in the cart increments only that element's quantity, keeps the length, and raises the count by one |
| ClientCart.AddNewAppends | cart.js:19-26 | Adding a new product appends it with quantity 1, keeps unique ids unique, and raises the count by one |
| ClientCart.AddKeepsInvariants | cart.js:14-27 | Adding keeps every quantity at least 1 and every id unique |
| ClientCart.RemoveInRange | cart.js:51-52 | Removing an index in range drops exactly that element, keeps the others in order, and lowers the count by its quantity |
| ClientCart.RemoveOutOfRange | cart.js:52 | An index at or past the end removes nothing; index −k removes the k-th element from the end |
| ClientCart.RemoveKeepsInvariants | cart.js:51-52 | Removing keeps every quantity at least 1 and every id unique |
| ClientCart.UpdateQuantityEffect | cart.js:59-64 | The element's quantity becomes max(1, old + change), nothing else changes, the invariants hold, and the count moves by the difference |
| ClientCart.Bumped | cart.js:59-64 | The cart after `updateQuantity` at an index in range; UpdateQuantityEffect states it |
| ClientCart.ClampedSum | cart.js:60-64 | The new quantity is at least 1 and at least old + change, and it is one of those two: the smallest such value |
| ClientCart.Cart.constructor | cart.js:2 | The cart starts as the stored array, or empty when nothing is stored |
| ClientCart.Cart.Count | cart.js:5-10 | The count shown is the sum of the quantities, at least the number of lines when all are positive |
| ClientCart.Cart.Summary | cart.js:109-115 | The amounts shown for the current cart are CartSummary of its items |
| ClientCart.Cart.AddToCart | cart.js:14-27 | The search loop finds the first matching element; the new cart is the added cart, the count rises by one, and the invariants are kept |
| ClientCart.Cart.RemoveFromCart | cart.js:51-52 | The new cart is the spliced cart, and the invariants are kept |
| ClientCart.Cart.UpdateQuantity | cart.js:59-64 | An index out of range throws without change (`ok` is false); otherwise the element is clamped as specified and the invariants are kept |
| ProductListing.DbEntry | products.js:41-50 | A row becomes a database entry keyed by its row id (id "db-" and the row id), with its row id, its kobo price, and that price rounded half up to naira |
| ProductListing.StaticEntry | products.js:57-65 | A kept static item becomes an entry keyed by its position and its own image, or "" when it has none (id "static-", the position, "-" and that image); the entry carries the same image, no row id, and the naira price `Number(price) \|\| 0` |
| ProductListing.IdText | products.js:44-60 | The rendered id: "db-" and the row id, or "static-", the position, "-" and the image; IdTextDistinct proves different keys render differently |
| ProductListing.DbEntries | products.js:41-50 | One entry per row, in row order |
| ProductListing.StaticEntries | products.js:57-65 | One entry per kept item, numbered by its position among the kept items |
| ProductListing.DbSuggestions | products.js:182-184 | One suggestion per row, in row order, with no naira price |
| ProductListing.StaticSuggestions | products.js:186-188 | One suggestion per kept item, in order, with its naira price |
| ProductListing.DbSuggestion | products.js:182-184 | A row becomes a suggestion with its row id and kobo price; DbSuggestions and ListsAlign state its use |
| ProductListing.StaticSuggestion | products.js:186-188 | A kept item becomes a suggestion with no row id and its naira price `Number(price) \|\| 0`; StaticSuggestions and ListsAlign state its use |
| ProductListing.ShownPrice | products.js:149 | The naira price a suggestion shows: a non-zero naira price, else the kobo price rounded half up, else 0; SuggestionsPreviewListing proves it is the naira price of the corresponding entry of the merged list (the listing before its price sort) |
| ProductListing.MergedLayout | products.js:68 | The merged list is every database entry in order, then every kept static entry in order |
| ProductListing.QueryOf | products.js:53 | The search box value trimmed and lowercased; KeptStaticsExactly and BlankQueryKeepsAll state its effect |
| ProductListing.StaticMatches | products.js:56 | The lowercase name or category of a static item contains the query; KeptStaticsExactly states when an item is kept |
| ProductListing.KeptStatics | products.js:54-57 | The static items the search box keeps, in order; KeptStaticsExactly and BlankQueryKeepsAll state it |
| ProductListing.Merged | products.js:68 | The database entries followed by the kept static entries; MergedLayout and MergedIdsDistinct state it |
| ProductListing.KeptStaticsExactly | products.js:53-57 | A static item is kept exactly when the trimmed lowercase query is empty or its lowercase name or category contains the query |
| ProductListing.KeptBy | products.js:54-56 | The filter callback: an empty query keeps an item, and otherwise it is kept when StaticMatches holds; KeptStaticsExactly states which items the filter keeps |
| ProductListing.BlankQueryKeepsAll | products.js:53-55 | With an empty or blank search box every static item is kept, in order |
| ProductListing.DbIdsDistinct | products.js:44 | Different row ids give different entry ids |
| ProductListing.StaticIdsDistinct | products.js:60 | Different positions give different static ids, whatever their images |
| ProductListing.IdPrefixesDiffer | products.js:44-60 | A database id never equals a static id |
| ProductListing.IdTextDistinct | products.js:44-60 | Different keys give different id strings |
| ProductListing.EntryKeysDistinct | products.js:41-68 | With unique row ids, the database entries and the numbered static entries all have different keys |
| ProductListing.MergedIdsDistinct | products.js:41-68 | With unique row ids, every merged entry has its own key and its own id |
| ProductListing.CardImage | products.js:80 | A card shows its own image when it has one, and `img/placeholder.png` when it has none |
| ProductListing.AddPayload | products.js:80-84 | A database card sends its row id and its kobo price rounded to naira; a static card sends its synthetic id and naira price; both send the card image |
| ProductListing.PayloadsMatchCards | products.js:41-84 | With unique row ids, every card's payload charges the naira price the card holds, and no two cards send the same cart id |
| ProductListing.ShowSuggestions | products.js:152-162 | The dropdown is never closed here: an empty list shows "No products found", and a non-empty one shows its first min(8, n) suggestions, in order |
| ProductListing.LoadSuggestions | products.js:169-191 | The dropdown closes exactly when the trimmed query is shorter than two characters |
| ProductListing.SuggestionsPreviewListing | products.js:149-191 | For a query of two or more characters the dropdown shows the notice exactly when the merged list is empty, and otherwise shows the merged list's first eight entries (the listing before its price sort) in order, with the same source, row id, name, category, image and naira price |
| ProductListing.ListsAlign | products.js:182-189 | Suggestions and entries built from the same rows and kept items correspond one for one |
| ProductListing.ShownPreviews | products.js:152-162 | Showing suggestions that correspond one for one to a list of entries shows the notice exactly when the list is empty, and otherwise shows items previewing that list's first min(8, n) entries |
| ProductSort.InsertPermutes | products.js:70-71 | Inserting adds exactly the one entry |
| ProductSort.Precedes | products.js:70-71 | The comparator's verdict that one entry goes strictly before another, by ascending or descending price |
| ProductSort.Insert | products.js:70-71 | One insertion step of the stable sort; InsertPermutes, InsertSorted and InsertStable state it |
| ProductSort.SortByPrice | products.js:70-71 | The stable price sort; SortSorted, SortPermutes and SortStable state it |
| ProductSort.InsertSorted | products.js:70-71 | Inserting into a price-sorted list keeps it sorted |
| ProductSort.InsertStable | products.js:70-71 | Inserting appends the entry to the entries of its own price and leaves every other price's entries alone |
| ProductSort.SortSorted | products.js:70-71 | The sorted list is in non-decreasing price order, or non-increasing for the descending comparator |
| ProductSort.SortPermutes | products.js:70-71 | The sorted list is a permutation of the merged list |
| ProductSort.SortStable | products.js:70-71 | Entries of equal price keep their merged order |
| ProductSort.InsertSkipsTail | products.js:70-71 | Insertion passes over a tail of entries that the new one precedes |
| ProductSort.Shifted | products.js:70-71 | The array prefix left by one pass is the insertion of the moved entry into the sorted prefix |
| ProductSort.InsertAt | products.js:70-71 | One pass of the in-place sort moves `a[i]` into the sorted prefix and leaves the rest of the array alone |
| ProductSort.SortInPlace | products.js:70-71 | Sorting the array in place leaves it holding the stable price sort of its old contents |
| ProductSort.OrderedFacts | products.js:69-72 | The grid holds a permutation of the merged list, in price order when a price sort is chosen, with equal prices in merged order |
| ProductSort.DropdownPreviewsUnsortedGrid | products.js:68-191 | For a query of two or more characters, with no price sort chosen, the dropdown previews the grid exactly as shown: its first eight cards, and the notice exactly when the grid is empty |
| ProductSort.Ordered | products.js:69-72 | The grid order for the selected sort; OrderedFacts states it |
| ProductSort.LoadProducts | products.js:27-120 | A failed product request shows the error. Otherwise "No products available." is shown exactly when the merged list is empty, and the cards are the merged list in the chosen order |
| HeaderSearch.ToNaira | main.js:3 | The naira shown is the kobo amount rounded half up to whole naira; a non-number shows 0 |
| HeaderSearch.StaticHitOf | main.js:120 | A static match carries its price times 100 as kobo, and its id, or null for a falsy id |
| HeaderSearch.ApiHits | main.js:115-116 | One result per returned row, in order |
| HeaderSearch.StaticHits | main.js:118-120 | One result per static match, in order |
| HeaderSearch.SearchProducts | main.js:109-124 | The results are the returned rows followed by the static matches, truncated to ten |
| HeaderSearch.SearchLayout | main.js:115-122 | At most ten results: the rows first, in order, then the static matches in catalogue order |
| HeaderSearch.TakeLayout | main.js:122 | Cutting at ten keeps the rows-then-matches layout |
| HeaderSearch.HitsLayout | main.js:122 | The merged results are the rows, then the static matches |
| HeaderSearch.StaticMatchesExactly | main.js:117-119 | A static item matches exactly when its lowercase name or category contains the lowercase trimmed query |
| HeaderSearch.StaticMatchesOf | main.js:117-119 | The static items that match the lowercase trimmed query, in order; StaticMatchesExactly states it |
| HeaderSearch.StaticPriceShown | main.js:120 | A static match shows its catalogue naira price after the ×100 and `toNaira` round trip |
| HeaderSearch.OnSearchInput | main.js:126-134 | Typing searches exactly when the trimmed value has two or more characters, and hides the results otherwise |
| HeaderSearch.OnSearchSubmit | main.js:136-143 | Submitting searches under the same rule, and leaves the box alone otherwise |
| HeaderSearch.InputAndSubmitAgree | main.js:126-143 | Typing and submitting the same text show the same results, those for the text itself, because trimming twice changes nothing |
| MobileMenu.Displayed | main.js:179-192 | Every part of the menu shows the same open or closed state |
| MobileMenu.IsMobile | main.js:167 | A window is mobile exactly when it is at most 768 px wide; ToggleEffect and ResizeCloses state its effect |
| MobileMenu.Toggled | main.js:174-193 | The menu after `toggleMenu(open)`; ToggleEffect, ToggleTwiceRestores and SetIdempotent state it |
| MobileMenu.ToggleEffect | main.js:174-192 | On a wide window nothing changes; otherwise hamburger, nav and links all end in the new state (NextOpen: the argument when one is given, else the opposite of the nav's state), with matching ARIA attributes and scroll lock |
| MobileMenu.ToggleTwiceRestores | main.js:196-199 | Two hamburger clicks restore a consistent menu |
| MobileMenu.SetIdempotent | main.js:203-221 | Closing a closed menu, or opening an open one, changes nothing |
| MobileMenu.ResizedAsWritten | main.js:225-232 | The resize reset as written: on a wide window it calls the toggle, which does nothing there |
| MobileMenu.ResizeLeavesMenuOpen | main.js:225-232 | A menu opened at 500 px stays open and scroll-locked after widening to 1024 px |
| MobileMenu.ResizeCloses | main.js:225-232 | After the corrected reset (Resized: a wide window closes the menu, a narrow one leaves it alone) a wide window shows a closed, consistent menu with scrolling unlocked |
| MobileMenu.Menu.constructor | main.js:170-172 | The menu starts closed, with `aria-expanded` false and `aria-hidden` true |
| MobileMenu.Menu.Toggle | main.js:174-193 | The elements end in the toggled state of their old state |
| MobileMenu.Menu.OnHamburgerClick | main.js:196-199 | A hamburger click toggles with no argument |
| MobileMenu.Menu.Close | main.js:202-221 | A link click, an outside click or Escape toggles with `false` |
| MobileMenu.Menu.OnResize | main.js:225-232 | The corrected reset is applied to the elements |
| JsText.TrimBounds | main.js:127 | `trim` removes exactly the leading and trailing whitespace: the result is a slice with only whitespace outside it, and it neither starts nor ends with whitespace |
| JsText.Trim | main.js:110 | `trim`; TrimBounds and TrimIdempotent state it |
| JsText.IsWhitespace | main.js:110 | Membership in the ECMAScript white space and line terminator characters |
| JsText.StartFrom | main.js:110 | `trim` starts at the first character that is not whitespace: everything before it is whitespace |
| JsText.EndFrom | main.js:110 | `trim` ends just after the last character that is not whitespace: everything after it is whitespace |
| JsText.Lower | main.js:117 | `toLowerCase` keeps the length and lowercases each character on its own |
| JsText.LowerChar | main.js:117 | An ASCII capital becomes the letter 32 code points on, and every other character is kept |
| JsText.LowerIdempotent | src/server.js:74 | Lowercasing twice is lowercasing once |
| JsText.NatToString | products.js:60 | The decimal form of a number is a non-empty run of digits |
| JsText.IntToString | products.js:44 | The decimal form of an integer starts with `-` exactly when it is negative |
| JsText.TrimIdempotent | main.js:110 | Trimming twice is trimming once |
| JsText.Includes | main.js:119 | `includes` holds exactly when the needle occurs at some position |
| JsText.NatToStringInjective | products.js:60 | Different non-negative integers have different decimal forms |
| JsText.IntToStringInjective | products.js:44 | Different integers have different decimal forms |
| JsValues.RoundDiv100 | main.js:3 | `Math.round(x/100)` is the nearest whole hundredth, with halves rounded up |
| JsValues.OrZero | products.js:64 | `Number(v) \|\| 0`: NaN becomes 0 and an integer is kept; StaticEntry and StaticPriceShown state its use |
| JsValues.Truthy | src/server.js:291 | A string is truthy exactly when it is present and not empty; AcceptanceWritesOneOrder states its effect on the customer link |
| JsValues.RoundDiv100OfHundreds | main.js:120 | A naira price sent as kobo (×100) rounds back to itself |
| Seqs.Filter | products.js:54 | `filter` keeps exactly the elements that pass, each taken from the input |
| Seqs.FilterAppend | products.js:54 | Filtering a concatenation filters each part, in order |
| Seqs.Take | products.js:158 | `slice(0, n)` is the first min(n, length) elements |

## Left out

- HTTP plumbing is not modelled. This covers Express setup, middleware, static serving, status codes and
  response bodies; the model returns error kinds instead.
- JWT cookies and bcrypt hashing and comparison are not modelled. They are cryptographic library calls.
- The rest of the account endpoints are not modelled. This covers the signup existence check (409) and the
  user creation, login, the profile endpoints, the current-password comparisons, and the email-uniqueness
  check of change-email. Each depends on bcrypt or the user table beyond the input checks.
- Several server endpoints are not part of this model: the order lookup, the customer's orders list and
  the product detail endpoint.
- Nothing in the model is atomic. The customer upsert and the order insert are independent writes in the
  source, and a failure between them is not modelled.
- Product stock is not read by the order path, so it is not modelled.
- I/O is replaced by parameters. This covers `fetch`, `Promise.all`, the response status, debounce timers,
  the static-catalogue caches and `localStorage`.
- A JSON response that is not an array counts as no rows. A missing search box counts as an empty one.
- DOM rendering is not modelled. This covers HTML strings, notifications, ARIA labels other than the two
  menu attributes, and `toLocaleString` formatting.
- ProductSort.LoadProducts: does not model the `name` sort (`localeCompare`), because its order depends on
  the locale's collation; any other select value is treated as no sort.
- JsText.Lower: lowercases ASCII letters only, because Unicode case mapping is not available.
- JsText.Trim: works on `char` sequences, not UTF-16 code units. The same goes for the `length` checks.
- `encodeURIComponent` followed by `decodeURIComponent` in `searchProducts` is treated as the identity. The
  error it throws on a lone surrogate is not modelled.
- JSON bodies are typed. A parsed line is `null` or an object whose two fields are read; other
  non-object lines read their fields as `undefined`, which the model gives as NaN.
- Amounts are exact integers. JavaScript numbers are doubles, exact only up to 2^53, so for very
  large quantities `sum + price * quantity` and `subtotal + shipping + tax` round in the source while
  the model's totals stay exact.
- The search handlers run alone and to completion. In the source, the `input` handler awaits
  `searchProducts` without cancelling an older request, so an older response can replace the results
  of a newer one; and the timer of `hideResults` can hide results shown after it was set.
- JsValues.Num: `Number` results are NaN or integers. Fractional and infinite values, and prices that are
  not whole kobo or naira, are not modelled.
- JsText.IntToString: the decimal form is the plain one. JavaScript's exponent form for magnitudes of
  10^21 and above is not modelled.
- ServerOrders.Tax: uses the exact integer formula. It does not model IEEE rounding of `subtotal * 0.075`
  at half-kobo boundaries.
- ClientCart.CartSummary: the page's tax and total are exact rationals, not IEEE doubles.
- ClientCart.Cart.constructor: takes the stored cart as given. Parsing it and the lack of checks on its
  shape are not modelled.
- MobileMenu.Menu.constructor: assumes the page's markup starts with no `active` classes and scrolling
  unlocked.
- MobileMenu.Menu.Close: models the effect of `toggleMenu(false)`. The conditions written into the
  outside-click and Escape handlers are not modelled; on an already closed menu the call changes nothing.
- ProductListing.AddPayload: sends a missing name as the empty string. JSON drops it instead.
- The product details page is not part of this model.
- The checkout page and the carousel, accordion and modal scripts are not part of this model.

## Findings

| source | as written | input that shows it | evidently intended | confidence | as-written member | corrected member |
|---|---|---|---|---|---|---|
| main.js:225-232 | The resize handler calls `toggleMenu(false)` only when the window is not mobile. `toggleMenu` returns at once on a non-mobile window (main.js:175), so the reset never takes effect | Open the menu at 500 px width, then resize to 1024 px. The nav stays `active` and the body keeps `overflow: hidden` | Widening the window past 768 px closes the menu and unlocks scrolling | not executed | MobileMenu.ResizeLeavesMenuOpen | MobileMenu.ResizeCloses |
