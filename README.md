# Retailer cart, checkout, addresses and catalogue — a Dafny model

This project models the retailer-facing core of a wholesale ordering back end. It covers:

- **Cart.** A retailer keeps one cart of product lines. Each line is priced from the product's price
  table (or its legacy per-unit fields), and the cart total is the sum of the line subtotals.
- **Checkout.** Checkout splits the cart by wholesaler. For each wholesaler it checks the payment
  term, the minimum order value and the delivery address, stores one `pendente` order per group,
  and then deletes the cart.
- **Duplicate.** A previous order can be copied back into the cart.
- **Addresses.** A retailer's embedded address list keeps at most one primary address.
- **Catalogue.** Products are listed page by page (only those of active wholesalers) or fetched
  one at a time. Each carries a normalised price table and the three legacy shown prices.

Money is kept in integer cents; the default minimum order is 15000 (150.00). The stored
collections are fields of two classes:

- `CartStore.CartService` holds carts by retailer and the order list. An order's id is its
  position in the list.
- `AddressBook.AddressService` holds each retailer's address list. Its `Valid()` says each list
  has distinct ids and at most one primary address. The endpoints do not check this of what they
  read, so the methods do not require it; each keeps it when it held.

Everything the services read but do not own is passed in as a parameter:

- the product catalogue;
- the wholesaler documents, found by id whether or not the wholesaler is active;
- the retailer documents;
- the active wholesaler ids;
- the clock (`now`);
- the generated uuid (`newId`).

Each state-changing method is proved against a pure function (`AddItem`, `UpdateItem`,
`RemoveItem`, `DuplicateOrder`, `CheckoutRun`, `Created`, `Updated`, `Deleted`, `PrimarySet`).
The lemmas beside those functions state what the service promises.

Module layout:

- `Common`, `Errors`, `Text`: shared helpers, the error cases with their HTTP status, and
  strip/upper-case.
- `Catalog`: product documents and their prices.
- `Wholesalers`: display name, minimum order, payment terms.
- `Addresses`, `AddressBook`: the address list.
- `Orders`, `Carts`, `Checkout`, `CartStore`: orders, the cart operations, checkout, and the
  cart service.
- `Products`: the product listing.

Where the code does something other than what a reader might expect, the model follows the code:

- Checkout never falls back to the primary address. Every wholesaler in the cart needs an explicit
  address choice.
- Orders are stored one group at a time. A later group's failure leaves the earlier orders stored
  and the cart in place.
- A successful checkout deletes the whole cart.
- Duplicating an order adds quantities to matching lines. It aborts on the first item whose unit
  has no price.
- Quantities are not capped. Adding needs quantity ≥ 1. Updating accepts 0, which removes the line.

## Model

| member | source | states |
|---|---|---|
| Errors.HttpStatus | backend/app/services/carrinho_service.py:96-107 | Every service error maps to 404 (a missing product, cart, item, retailer, order or address) or otherwise to 400 |
| Text.CanonicalIdempotent | backend/app/services/carrinho_service.py:560 | Stripping and upper-casing a label twice gives the same label as doing it once |
| Text.CanonicalEmpty | backend/app/services/carrinho_service.py:558-561 | A label becomes blank exactly when it is made only of whitespace |
| Text.UpperShape | backend/app/services/carrinho_service.py:560 | Upper-casing keeps the length and the spaces at both ends, and a second upper-casing changes nothing |
| Text.StripShape | backend/app/services/carrinho_service.py:560 | A stripped label neither starts nor ends with whitespace |
| Common.Distinct | backend/app/services/carrinho_service.py:257 | The set of wholesalers in the cart holds each id once, and exactly those ids |
| Common.DistinctFirstOccurrenceOrder | backend/app/services/carrinho_service.py:274-280 | Wholesalers are grouped in the order of their first cart line |
| Catalog.UnitsPerPackage | backend/app/services/carrinho_service.py:501-509 | Units per package are at least 1. They come from `quantidade_unidades`, else `qtd_unidades`, else 1 |
| Catalog.FirstPricedEntry | backend/app/services/carrinho_service.py:467-472 | The index of the first price entry for the unit whose price is set |
| Catalog.UnitPrice | backend/app/services/carrinho_service.py:466-489 | The first priced table entry for the unit wins. Otherwise the legacy field of `unidade`/`caixa`/`palete` is used. Otherwise the error is UnitUnavailable. An unknown unit is priced only from the table |
| Catalog.ListedEntries | backend/app/services/carrinho_service.py:496-517 | The listed entries are exactly the table rows with a unit and a price, normalised. It is empty only when no row qualifies |
| Catalog.ListedEntriesSnoc | backend/app/services/carrinho_service.py:498-517 | Each loop turn appends one normalised row, or nothing |
| Catalog.LegacyEntriesShape | backend/app/services/carrinho_service.py:519-543 | The fallback table holds one entry per set legacy field, each with one unit per package, in the order unidade, caixa, palete |
| Catalog.PriceListSource | backend/app/services/carrinho_service.py:491-545 | The price table is the listed rows when any qualifies, otherwise the legacy entries. Every entry has a unit and at least one unit per package |
| Catalog.FirstPriceFor | backend/app/services/produto_service.py:189-193 | The price of the first table entry with the unit, or None when there is no such entry |
| Catalog.ListedFirstPrice | backend/app/services/produto_service.py:140-161 | A lookup in the listed table finds the price of the first priced raw row for the unit |
| Catalog.LegacyUnitAt | backend/app/services/carrinho_service.py:519-543 | Entry i of the fallback table is "unidade" when that field is set and i is 0, then "caixa", then "palete" |
| Catalog.LegacyTablePrice | backend/app/services/produto_service.py:163-193 | A lookup in the fallback table gives the legacy field |
| Catalog.CartPriceMatchesTable | backend/app/services/carrinho_service.py:466-545 | The cart charges the price the product's table shows for any unit in that table |
| Wholesalers.DisplayName | backend/app/services/produto_service.py:133-138 | The name is `nome_fantasia`, else `razao_social`, else `nome`. It is set exactly when one of them is |
| Wholesalers.SeenTermsCanonical | backend/app/services/carrinho_service.py:556-562 | The accumulated terms are non-blank, canonical and free of duplicates |
| Wholesalers.SeenTermsComplete | backend/app/services/carrinho_service.py:557-562 | Every non-blank stored label contributes its canonical form |
| Wholesalers.SeenTermsSound | backend/app/services/carrinho_service.py:557-562 | Every accumulated term comes from some stored label |
| Wholesalers.OfferedTermsWellFormed | backend/app/services/carrinho_service.py:553-567 | "A VISTA" is always offered. Terms are canonical, non-blank and never repeated |
| Wholesalers.SeenTermsMembers | backend/app/services/carrinho_service.py:557-562 | A term is accumulated iff it is the non-blank canonical form of some stored label |
| Wholesalers.OfferedTermsMembers | backend/app/services/carrinho_service.py:553-567 | A term is offered iff it is "A VISTA" or the canonical form of a non-blank stored label. "A VISTA" is put first when not stored |
| Wholesalers.SeenTermsIsDistinct | backend/app/services/carrinho_service.py:556-562 | The accumulated terms are the canonical non-blank labels, repeats dropped, each at its first occurrence in stored order |
| Wholesalers.OfferedTermsKeepOrder | backend/app/services/carrinho_service.py:553-565 | The offered list equals the reference definition: the de-duplicated canonical labels in stored order, with "A VISTA" in front only when absent. No labels gives "A VISTA" alone |
| Wholesalers.NormaliseStep | backend/app/services/carrinho_service.py:557-562 | One loop turn skips an empty label, and otherwise appends its new non-blank canonical form |
| Wholesalers.NormalizePaymentTerms | backend/app/services/carrinho_service.py:553-567 | The loop returns exactly the offered terms |
| Addresses.PrimaryCountZero | backend/app/services/endereco_service.py:92 | No address is primary exactly when the primary count is 0 |
| Addresses.PrimaryCountOne | backend/app/services/endereco_service.py:45-54 | A primary count of 1 means exactly one flagged address |
| Addresses.PrimaryCountAppend | backend/app/services/endereco_service.py:54 | The primary count adds up over concatenation |
| Addresses.DemotedHasNoPrimary | backend/app/services/endereco_service.py:47-48 | Clearing every flag keeps the ids and leaves no primary |
| Addresses.CreateMakesSolePrimary | backend/app/services/endereco_service.py:45-54 | A new primary address, or the first address, is appended as the only primary. Earlier addresses are demoted and keep their ids |
| Addresses.CreateKeepsFlags | backend/app/services/endereco_service.py:49-54 | A non-primary address added to a non-empty list is appended, and earlier entries and flags are untouched |
| Addresses.CreatePreservesInvariant | backend/app/services/endereco_service.py:34-57 | Creating keeps ids unique and at most one address primary |
| Addresses.FirstWithId | backend/app/services/endereco_service.py:68-69 | The index of the first address with the id, or the list length |
| Addresses.UpdateKeepsFlags | backend/app/services/endereco_service.py:59-78 | Updating fails iff the id is absent. Otherwise only the first match changes, and ids and primary flags are untouched |
| Addresses.WithoutId | backend/app/services/endereco_service.py:84 | The filtered list holds exactly the addresses with another id (order in `WithoutIdSnoc`) |
| Addresses.WithoutIdSnoc | backend/app/services/endereco_service.py:84 | The filter keeps the other addresses in their order and multiplicity: an appended address is appended to the result unless it has the id |
| Addresses.WithoutIdShorter | backend/app/services/endereco_service.py:84-85 | The filter shortens the list iff the id is present |
| Addresses.WithoutIdUnique | backend/app/services/endereco_service.py:84 | Filtering a list with distinct ids leaves distinct ids |
| Addresses.DeleteKeepsOnePrimary | backend/app/services/endereco_service.py:80-95 | Deleting fails iff the id is absent. Otherwise the result is the other addresses in order, with the first one flagged primary when none of them is. Every address with that id is gone, a non-empty list with at most one primary keeps exactly one, and distinct ids stay distinct |
| Addresses.WithPrimaryCount | backend/app/services/endereco_service.py:105-111 | With unique ids the pass leaves one primary if the id is present, else none |
| Addresses.SetPrimaryMakesSolePrimary | backend/app/services/endereco_service.py:97-121 | Setting the primary fails iff the id is absent. Otherwise exactly the addresses with the id are flagged, and with unique ids that is one |
| Addresses.UpdateKeepsConsistent | backend/app/services/endereco_service.py:59-78 | An update keeps ids distinct and at most one primary |
| Addresses.SetPrimaryKeepsConsistent | backend/app/services/endereco_service.py:97-121 | Setting the primary keeps ids distinct and at most one primary |
| Addresses.OperationsKeepConsistent | backend/app/services/endereco_service.py:34-121 | Create (with a new id), update, delete and set-primary each keep a list with distinct ids and at most one primary that way |
| AddressBook.AddressService.constructor | backend/app/services/endereco_service.py:123-130 | The service starts from the stored retailer address lists |
| AddressBook.AddressService.CreateAddress | backend/app/services/endereco_service.py:34-57 | An unknown retailer gives RetailerNotFound and nothing changes. Otherwise the entry is returned and the list becomes the created list. With a new id, the per-retailer invariant (distinct ids, at most one primary) is kept |
| AddressBook.AddressService.UpdateAddress | backend/app/services/endereco_service.py:59-78 | Missing retailer or address gives 404 and nothing changes. Otherwise the first match gets the sent fields and is returned. The per-retailer invariant is kept |
| AddressBook.AddressService.DeleteAddress | backend/app/services/endereco_service.py:80-95 | Missing retailer or address gives 404; deleting succeeds iff the retailer has an address with the id. The stored list becomes the other addresses in order, with the first flagged primary when none of them is. The per-retailer invariant is kept |
| AddressBook.AddressService.SetPrimary | backend/app/services/endereco_service.py:97-121 | Missing retailer or address gives 404 and nothing is written. Otherwise the flags are rewritten and the id is returned. The per-retailer invariant is kept |
| Orders.SummariesSnoc | backend/app/services/carrinho_service.py:357-364 | Storing one more order appends its summary with the next id, its wholesaler and its total |
| Orders.SummariesAt | backend/app/services/carrinho_service.py:357-364 | There is one summary per stored order, and the k-th names id base + k, that order's wholesaler and its total |
| Carts.SumAppend | backend/app/services/carrinho_service.py:150-152 | The cart total adds up over concatenation |
| Carts.SumReplace | backend/app/services/carrinho_service.py:186-198 | Replacing a line changes the total by the difference of subtotals |
| Carts.SumDrop | backend/app/services/carrinho_service.py:174-176 | Dropping a line lowers the total by its subtotal |
| Carts.FirstMatch | backend/app/services/carrinho_service.py:123-135 | The index of the first line matching the key, or the line count |
| Carts.AddRejections | backend/app/services/carrinho_service.py:96-110 | Adding fails with ProductNotFound, ProductNotFromWholesaler or UnitUnavailable, and under exactly those conditions |
| Carts.AddOverwritesMatch | backend/app/services/carrinho_service.py:123-135 | An existing line for the product and wholesaler takes the new quantity, unit and price (not summed). Other lines are untouched and the total is adjusted |
| Carts.AddAppendsNew | backend/app/services/carrinho_service.py:137-148 | Otherwise a new line is appended and the total grows by its subtotal |
| Carts.AddIdempotent | backend/app/services/carrinho_service.py:123-148 | Adding the same request twice leaves the cart as adding it once |
| Carts.AddKeepsLinesPriced | backend/app/services/carrinho_service.py:89-155 | Adding keeps every line's subtotal equal to its price times its quantity |
| Carts.UpdateZeroRemovesFirstLine | backend/app/services/carrinho_service.py:157-205 | For any unit sent, quantity 0 succeeds iff the cart has a line of the product; it removes the first such line and lowers the total by its subtotal. It gives CartNotFound or ItemNotFound otherwise |
| Carts.UpdateOverwritesLine | backend/app/services/carrinho_service.py:157-205 | A positive quantity gives CartNotFound, ItemNotFound, ProductNotFound or UnitUnavailable, checked in that order, and succeeds iff none applies. Success rewrites only the first matching line: the new quantity, the sent unit or the old one, and that unit's catalogue price; the total changes by the difference of subtotals |
| Carts.UpdateKeepsLinesPriced | backend/app/services/carrinho_service.py:157-205 | Updating keeps every line correctly priced |
| Carts.WithoutProduct | backend/app/services/carrinho_service.py:216 | The filtered cart holds exactly the lines of other products (order in `WithoutProductSnoc`) |
| Carts.WithoutProductSnoc | backend/app/services/carrinho_service.py:216 | The filter keeps the other lines in their order and multiplicity: an appended line is appended to the result unless it has the product |
| Carts.WithoutProductShorter | backend/app/services/carrinho_service.py:216-222 | The filter shortens the cart iff the product has a line |
| Carts.WithoutProductSum | backend/app/services/carrinho_service.py:216-226 | Removing lines never raises the total. It keeps it only when the removed subtotals are 0 |
| Carts.RemoveDropsEveryLine | backend/app/services/carrinho_service.py:207-233 | Removing gives CartNotFound or ItemNotFound, and succeeds iff the cart exists and has a line of the product. Then every line of the product goes, and the cart is deleted exactly when no line is left |
| Carts.WithoutProductPriced | backend/app/services/carrinho_service.py:216 | Removing keeps lines correctly priced |
| Carts.MergeOrderSnoc | backend/app/services/carrinho_service.py:416-457 | The merge of the order's items is one loop turn per item, stopping at the first error |
| Carts.MergeSkipsUnusable | backend/app/services/carrinho_service.py:416-426 | An item with no product, no unit, a quantity ≤ 0 or a vanished product is skipped |
| Carts.MergeAbortsOnMissingPrice | backend/app/services/carrinho_service.py:428 | A usable item fails iff its unit has no price, with UnitUnavailable |
| Carts.MergeSumsQuantities | backend/app/services/carrinho_service.py:431-444 | A line with the same product, wholesaler and unit takes the summed quantity at the current price. Other lines are untouched |
| Carts.MergeAppendsNew | backend/app/services/carrinho_service.py:446-457 | Otherwise a new line with the item's quantity at the current price is appended |
| Carts.MergeOrderStopsAtFailure | backend/app/services/carrinho_service.py:428 | Once the merge has failed, later items do not change the outcome |
| Carts.MergeOrderPriced | backend/app/services/carrinho_service.py:416-461 | Merging keeps lines correctly priced |
| Carts.DuplicateOnlyOwnOrders | backend/app/services/carrinho_service.py:397-402 | Duplicating gives OrderNotFound iff the order does not exist or belongs to another retailer |
| Carts.MergeOrderErrors | backend/app/services/carrinho_service.py:396-464 | The only way duplicating an existing order fails is UnitUnavailable |
| Checkout.SelectionMap | backend/app/services/carrinho_service.py:252-255 | Choices are keyed by wholesaler, each taken from the request |
| Checkout.SelectionMapLastWins | backend/app/services/carrinho_service.py:252 | When a wholesaler is chosen twice, the last choice wins |
| Checkout.AddressMap | backend/app/services/carrinho_service.py:272 | The retailer's addresses are keyed by id |
| Checkout.LinesOf | backend/app/services/carrinho_service.py:274-276 | A group holds only cart lines of its wholesaler |
| Checkout.LinesOfSnoc | backend/app/services/carrinho_service.py:275-276 | Grouping a further line appends it to its own wholesaler's group only |
| Checkout.GroupingSnoc | backend/app/services/carrinho_service.py:275-276 | Grouping one more line appends it to its wholesaler's group, or opens a group holding only it |
| Checkout.GroupingKeys | backend/app/services/carrinho_service.py:274-276 | The grouping has a group for a wholesaler iff the cart has a line of it |
| Checkout.GroupingLines | backend/app/services/carrinho_service.py:274-276 | Each group holds exactly its wholesaler's lines, in cart order |
| Checkout.LinesOfAbsent | backend/app/services/carrinho_service.py:274-276 | A wholesaler with no line has an empty group |
| Checkout.OmittedTermAccepted | backend/app/services/carrinho_service.py:288-297 | A missing payment term means "A VISTA", which every wholesaler accepts |
| Checkout.OrderLinesTotal | backend/app/services/carrinho_service.py:336-355 | The order items add up to the group's cart total |
| Checkout.GroupOrderOutcome | backend/app/services/carrinho_service.py:280-355 | A group fails, in that order, on an unknown wholesaler, a term not offered, a total below the minimum (with the shortfall) or an unknown address, and succeeds once none applies. It then becomes a `pendente` order for its total |
| Checkout.GroupOrderStorable | backend/app/services/carrinho_service.py:299-355 | A group's order is for its wholesaler, and its total is the sum of its items |
| Checkout.RunGroupsSnoc | backend/app/services/carrinho_service.py:280-364 | Groups are stored one by one until the first failure |
| Checkout.RunGroupsStops | backend/app/services/carrinho_service.py:280-364 | After a failure no further group is stored |
| Checkout.RunGroupsPasses | backend/app/services/carrinho_service.py:280-364 | The group loop goes through iff every group does, and then stores one order per group |
| Checkout.RunGroupsShape | backend/app/services/carrinho_service.py:280-364 | The stored orders are the leading successful groups. A failure is the first failing group's error |
| Checkout.FirstUnselected | backend/app/services/carrinho_service.py:257-263 | The first wholesaler with no address choice |
| Checkout.CheckoutEarlyFailures | backend/app/services/carrinho_service.py:238-270 | An empty cart gives EmptyCart. A wholesaler without a choice gives AddressNotGiven naming such a wholesaler. A missing retailer gives RetailerNotFound. Each stores nothing |
| Checkout.UnselectedIsFound | backend/app/services/carrinho_service.py:257-263 | When a cart wholesaler has no choice, the scan stops at a wholesaler of the cart that has none |
| Checkout.AllSelectedPasses | backend/app/services/carrinho_service.py:257-263 | When every cart wholesaler has a choice, the scan passes them all |
| Checkout.GroupsTotalSnocItem | backend/app/services/carrinho_service.py:274-276 | A new line adds its subtotal to exactly one group |
| Checkout.GroupsTotalSnocKey | backend/app/services/carrinho_service.py:280 | A new group adds its own total |
| Checkout.GroupsPartitionCart | backend/app/services/carrinho_service.py:274-280 | The group totals add up to the cart total |
| Checkout.OrdersCarryGroupTotals | backend/app/services/carrinho_service.py:336-364 | Orders carrying their group totals add up to those totals |
| Checkout.CheckoutPassesIffGroupsPass | backend/app/services/carrinho_service.py:238-368 | For a non-empty cart whose wholesalers all have a choice and whose retailer exists, checkout goes through iff every group's order does, and then stores one order per wholesaler |
| Checkout.CheckoutSuccess | backend/app/services/carrinho_service.py:238-368 | A successful checkout stores one `pendente` order per wholesaler, in first-line order, each with its group total. Together they cost exactly the cart total |
| CartStore.LocateLine | backend/app/services/carrinho_service.py:123-135 | The loop finds the first matching line |
| CartStore.GroupByWholesaler | backend/app/services/carrinho_service.py:274-276 | The loop builds exactly one group per wholesaler in the cart, holding that wholesaler's lines in cart order |
| CartStore.RewriteLine | backend/app/services/carrinho_service.py:172-202 | Rewriting the matched line gives exactly the updated cart; `Carts.UpdateZeroRemovesFirstLine` and `Carts.UpdateOverwritesLine` state when that succeeds and what it holds |
| CartStore.MergeItems | backend/app/services/carrinho_service.py:416-457 | The loop gives exactly the merge of the order's items into the cart lines, stopping at the first error |
| CartStore.MergeOne | backend/app/services/carrinho_service.py:416-457 | One item's turn: skipped, summed into the matching line, appended, or UnitUnavailable, as the merge states |
| CartStore.ProductPrices | backend/app/services/carrinho_service.py:491-545 | A missing product has no prices. Otherwise the result is the product's price table |
| CartStore.FirstMissingSelection | backend/app/services/carrinho_service.py:257-263 | The loop finds the first wholesaler without an address choice |
| CartStore.BuildGroupOrder | backend/app/services/carrinho_service.py:280-355 | The group's order or its error, as stated for each group |
| CartStore.PlaceGroupOrder | backend/app/services/carrinho_service.py:299-355 | After the term is accepted: a total below the minimum fails with the shortfall; otherwise an unknown address fails and a known one gives a `pendente` order with the term, the address and the group total, which its items add up to |
| CartStore.CartService.constructor | backend/app/services/carrinho_service.py:31-37 | The service starts as an empty store: no carts and no orders |
| CartStore.CartService.AddOrUpdateItem | backend/app/services/carrinho_service.py:89-155 | The stored cart becomes the added-to cart, or nothing changes on error. The cart invariant holds |
| CartStore.CartService.UpdateCartItem | backend/app/services/carrinho_service.py:157-205 | The stored cart becomes the updated cart, or nothing changes on error. The cart invariant holds |
| CartStore.CartService.RemoveCartItem | backend/app/services/carrinho_service.py:207-233 | The cart loses the product's lines, and is deleted when no line is left. Nothing changes on error |
| CartStore.CartService.ClearCart | backend/app/services/carrinho_service.py:235-236 | The retailer's cart is deleted and nothing else changes |
| CartStore.CartService.DuplicateIntoCart | backend/app/services/carrinho_service.py:396-464 | The order's items are merged into the cart (created if missing) and the cart is stored with its new total, or nothing changes on error. The cart invariant holds |
| CartStore.CartService.InsertOrder | backend/app/services/carrinho_service.py:357 | The order is appended and its position is its id |
| CartStore.CartService.StoreGroupOrder | backend/app/services/carrinho_service.py:280-364 | One group's order or error, as the group outcome states. A built order is appended to the orders and summarised with its new id. An error stores nothing |
| CartStore.CartService.CreateGroupOrders | backend/app/services/carrinho_service.py:280-364 | The loop stops at the first failing group. The orders stored are exactly the leading successful groups, and the summaries list them with their new ids. Carts are untouched |
| CartStore.CartService.PlaceOrders | backend/app/services/carrinho_service.py:252-364 | The checkout of a non-empty cart, as stated by the checkout outcome |
| CartStore.CartService.FinalizeCart | backend/app/services/carrinho_service.py:238-368 | Stored orders grow by the checkout's orders. On failure the error is returned and the cart stays. On success the summaries are returned and the cart is deleted |
| Products.ClampPaging | backend/app/services/produto_service.py:32-37 | A page below 1 becomes 1, a page size below 1 becomes 20, and the skip is (page - 1) × size |
| Products.TotalPagesIsCeiling | backend/app/services/produto_service.py:98 | The page count is the ceiling of total / size |
| Products.OfWholesalers | backend/app/services/produto_service.py:49-73 | Exactly the products of the given wholesalers match |
| Products.OfWholesalersSnoc | backend/app/services/produto_service.py:49-73 | The filter keeps catalogue order: a product added last shows up last among the matches, or not at all |
| Products.ShownPriceOfView | backend/app/services/produto_service.py:195-197 | The shown price is the table price when non-zero, else the legacy field |
| Products.LegacyProductShowsLegacyFields | backend/app/services/produto_service.py:163-197 | A product with no listable row shows the fallback table and its legacy prices |
| Products.TablePriceFor | backend/app/services/produto_service.py:140-193 | The table price for a unit is that of the first priced raw row, else the legacy field when no row is listable |
| Products.ShownPriceMatchesCart | backend/app/services/produto_service.py:189-197 | A unit the cart cannot price shows no price. A non-zero cart price is the price shown |
| Products.ViewName | backend/app/services/produto_service.py:130-138 | The wholesaler name appears only when the wholesaler is known, as its display name |
| Products.Window | backend/app/services/produto_service.py:80 | The page holds at most `size` consecutive matches starting at `skip` |
| Products.ListingEmptyWhenInactive | backend/app/services/produto_service.py:39-47 | With no active wholesaler, or an inactive requested one, the page is empty with a total of 0 and 1 page |
| Products.ListingShowsItsWindow | backend/app/services/produto_service.py:77-97 | The items are the views of consecutive matches starting at the page's skip |
| Products.WindowIsSlice | backend/app/services/produto_service.py:77-80 | The views of a non-empty page are the views of the slice of matches it starts at |
| Products.ListingFillsPage | backend/app/services/produto_service.py:77-80 | A page holds at most the page size. A page starting inside the matches is full, or holds all the remaining matches |
| Products.ListingCountsAllMatches | backend/app/services/produto_service.py:49-98 | The total counts every match, each of an active wholesaler. The page size is at least 1 and the page count is the ceiling of total / size |
| Products.PositionOnPage | backend/app/services/produto_service.py:37 | Match j sits at offset j mod size of page j div size + 1 |
| Products.EveryMatchOnItsPage | backend/app/services/produto_service.py:32-97 | Every match is shown on exactly the page its position gives |
| Products.WindowItem | backend/app/services/produto_service.py:77-97 | Item k of a page's views is the view of the match k places after the page's start |
| Products.ItemOnPage | backend/app/services/produto_service.py:32-97 | Item k of a listed page is the view of the match k places after the page's skip |
| Products.GetProductVisibility | backend/app/services/produto_service.py:108-122 | A product is shown iff it exists and its wholesaler, when set, has a document found by id. It is shown with its price table and wholesaler name |
| Products.BuildPriceTable | backend/app/services/produto_service.py:140-187 | The loop builds exactly the product's price table |
| Products.FindPrice | backend/app/services/produto_service.py:189-193 | The loop finds the first table entry's price for the unit |
| Products.ToResponse | backend/app/services/produto_service.py:124-211 | The response is the product's view |

## Left out

- The free-text query (`$regex` on `descricao`) is not modelled. It is a database-side pattern match.
- Id matching does not model ObjectId candidates. Ids are plain strings.
- `str(None)` ids are not modelled.
- Money is integer cents. Float conversion and rounding (`round(…, 2)`) are not modelled.
- Strip and upper-case are not modelled beyond Latin-1. Strip removes ASCII whitespace, the four ASCII separators, NEL and NO-BREAK SPACE, but no other Unicode space. Upper-case maps ASCII and the Latin-1 small letters à–þ (except ÷) to their capitals. Three Latin-1 letters are left unchanged although `str.upper` changes them: ß (to "SS"), µ (to Greek capital mu) and ÿ (to Ÿ). Nothing above Latin-1 is upper-cased.
- Concurrency is not modelled. The services are `async` and interleaved requests could race; each method here runs alone.
- Timestamps and the uuid are parameters (`now`, `newId`).
- Checkout's single-item insert is not modelled as a database round-trip. An order's id is its position in the order list.
- `obter_carrinho` is not modelled. It shapes the response and adds `quantidade_unidades` to each line.
- `listar_pedidos` and `obter_pedido` are not modelled. They read the order list back.
- `listar_enderecos` is not modelled. It returns the list as stored.
- `_get_descricao_produto` is modelled only as the description lookup inside `Checkout.Description`.
- `get_active_ids` is not modelled; its result is the parameter `activeIds`. It is not defined by the wholesaler repository class (backend/app/repositories/base.py:229-250), so `listar_produtos` as written fails when called. That failure is not modelled.
- `get_by_id` and `get_by_ids` are plain lookups by id and are not modelled. Their result is the wholesaler map parameter. They do not check whether a wholesaler is active, so checkout (backend/app/services/carrinho_service.py:281) and `obter_produto` (backend/app/services/produto_service.py:116-120) accept an inactive wholesaler's document. The model does the same.
- The product repository's `find_many` (backend/app/repositories/base.py:214-222) sorts nothing, so the listing follows the store's natural order. The model takes that to be catalogue order (`Products.OfWholesalersSnoc`).
- Message strings are not modelled. Errors are constructors with their HTTP status.
- A payment-term entry that is not a string is not modelled. Labels are strings.
- An explicit `null` for a patch field other than `complemento`: the source stores None in the address (backend/app/services/endereco_service.py:70-72). Building the response at backend/app/services/endereco_service.py:133 then fails, because those fields must be strings. The model has no null for these fields (None in `AddressPatch` means "not sent"), so this store-then-fail path is not modelled.
- A `pedido_minimo` stored as null: `float(None)` at backend/app/services/carrinho_service.py:299 raises, and checkout fails with a server error after any earlier group's order was stored. The model has no null for the field (`Wholesalers.Wholesaler.pedidoMinimo` is None only when the field is absent, which gives the default 15000), so this error is not modelled.
- Checkout.CheckoutEarlyFailures: when several wholesalers lack an address choice, the source names one in set iteration order. The model names the first by cart order. The lemma promises only that the named one lacks a choice and is in the cart.
- Products.TotalPagesIsCeiling: a non-empty listing with no matches reports 0 pages, while the empty-listing shortcut reports 1. The model keeps both as written.
- Products.ShownPriceMatchesCart: a table price of 0 is falsy in the source and falls back to the legacy field. The lemma says nothing about a zero cart price.
