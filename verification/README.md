# Shop cart, catalogue and payment pollers in Dafny

This project models the parts of the storefront that behave the same way on any input:

- **The cart state machine.** `cartReducer` handles ADD_ITEM, REMOVE_ITEM, UPDATE_QUANTITY and CLEAR_CART. `calculateCartTotals` recomputes the totals, and the reducer starts from an empty initial state.
- **The cart line.** It shows a unit price and a line total. Its quantity controls go through `handleQuantityChange`.
- **The cart summary.** It covers the free-shipping threshold, the 19% VAT, the grand total and the "add N more" notice.
- **The catalogue page.** The product list is filtered by a case-insensitive search term and a category, then sorted by one of four modes.
- **Two helpers in `utils`.** `formatAddress` and `calculateDiscount`.
- **Two bounded polling loops.** `pollPaymentStatus` polls the Base Pay status endpoint. `waitForTransactionHash` waits for an on-chain receipt, using `getBaseRpcUrl`.

Every operation is a pure function over immutable datatypes:

- Prices and quantities are unbounded integers. The model does not depend on the money unit: the sample catalogue and the cart summary's thresholds are plain integer amounts.
- The one use of the clock, `Date.now()` in the id of a new cart line, becomes a parameter `now`.
- The network is an oracle. For the status endpoint and for receipts, it is a function from the query number (counting from 0) to the reply that query receives.
- A poll's sleeps are recorded as events in a trace, next to the queries. This lets query and sleep counts be stated exactly.

Modules follow the source files:

- `Wrappers` (Option/Result)
- `JsString`: the JavaScript string operations the code relies on
- `Types` (`app/types/index.ts`)
- `Constants`: the sample catalogue
- `CartContext`
- `CartItemView`
- `CartSummary`
- `Catalog`
- `Utils`
- `BasePay`
- `EthersHelper`

## Model

| member | source | states |
|---|---|---|
| CartContext.UnitPrice | app/contexts/CartContext.tsx:88 | a line is charged at its variant's price when there is a variant with a non-zero price, and at the product price otherwise (a zero variant price is falsy and falls back) |
| CartContext.ReduceTotalsAdds | app/contexts/CartContext.tsx:86-95 | the two left folds of `calculateCartTotals`, started from any accumulator, add the sum of the line totals and the sum of the quantities to it |
| CartContext.CalculateCartTotals | app/contexts/CartContext.tsx:86-95 | `total` is the sum over the lines of unit price times quantity and `itemCount` is the sum of the quantities |
| CartContext.SumAppend | app/contexts/CartContext.tsx:86-95 | both totals add up over a concatenation of item lists |
| CartContext.SumReplace | app/contexts/CartContext.tsx:86-95 | replacing one line changes each total by exactly the difference between the new and the old line |
| CartContext.FindLine | app/contexts/CartContext.tsx:28-30 | the search returns the first line with the same product id and the same variant id (absent variants match each other), or none when no line matches |
| CartContext.DecimalString | app/contexts/CartContext.tsx:40 | the timestamp part of a new line's id is a non-empty string of decimal digits that denotes `now`, with no leading zero |
| CartContext.VariantTag | app/contexts/CartContext.tsx:40 | the variant part of a new id is the variant's id, or 'default' when there is no variant or its id is empty |
| CartContext.NewItemId | app/contexts/CartContext.tsx:40 | a new id starts with the product id and a dash and ends with the decimal digits of `now` |
| CartContext.IncrementById | app/contexts/CartContext.tsx:32-37 | raising the quantity by id keeps the list length; the per-line effect with no assumption on ids is stated by CartContext.AddExistingLineAsWritten |
| CartContext.SetQuantityById | app/contexts/CartContext.tsx:59-63 | setting the quantity by id keeps the list length |
| CartContext.RemoveById | app/contexts/CartContext.tsx:50-53 | no remaining line has the removed id and the list does not grow |
| CartContext.RemoveByIdCounts | app/contexts/CartContext.tsx:50-53 | removal drops every copy of every line with that id and keeps every other line with its multiplicity |
| CartContext.RemoveByIdKeepsOrder | app/contexts/CartContext.tsx:50-53 | removal distributes over concatenation, so the survivors keep their relative order |
| CartContext.AddLine | app/contexts/CartContext.tsx:26-48 | ADD_ITEM's list keeps the length when the key is found and grows by one otherwise; existing lines keep their keys, ids and positions; the added key is present afterwards |
| CartContext.NextItems | app/contexts/CartContext.tsx:26-70 | the new item list of each handled action: ADD_ITEM's merge or append, REMOVE_ITEM's filter, UPDATE_QUANTITY's removal or map, CLEAR_CART's empty list |
| CartContext.WithTotals | app/contexts/CartContext.tsx:76-83 | after a handled action the new item list is paired with totals that match it |
| CartContext.CartReducer | app/contexts/CartContext.tsx:22-84 | an unrecognised action returns the state unchanged; every handled action yields its new item list with `total` and `itemCount` recomputed from those items |
| CartContext.InitialCart | app/contexts/CartContext.tsx:98-102 | the initial state has no lines and totals that match them |
| CartContext.ClearCartIsInitial | app/contexts/CartContext.tsx:67-70 | CLEAR_CART from any state yields the initial state, which is the empty cart with total 0 and item count 0 and consistent totals |
| CartContext.ReducerKeepsTotals | app/contexts/CartContext.tsx:76-83 | from a state whose totals match its lines, every action leads to such a state again |
| CartContext.IncrementUnique | app/contexts/CartContext.tsx:32-37 | when ids are unique, incrementing line `k`'s id changes line `k`'s quantity by the amount and nothing else |
| CartContext.SetQuantityUnique | app/contexts/CartContext.tsx:59-63 | when ids are unique, setting line `k`'s quantity changes only that field of that line |
| CartContext.AddExistingLine | app/contexts/CartContext.tsx:28-37 | adding a product and variant already on line `k` keeps the length, raises line `k`'s quantity by exactly the added amount and leaves every other line as it was |
| CartContext.AddExistingLineAsWritten | app/contexts/CartContext.tsx:28-37 | with no assumption on ids, adding a key already on line `k` raises every line that carries line `k`'s id by the added amount, leaves every other line alone, and keeps ids, products, variants and order |
| CartContext.AddNewLine | app/contexts/CartContext.tsx:38-46 | adding a product and variant not yet in the cart appends one line at the end with the new id, that product, variant and quantity, and keeps every existing line |
| CartContext.RemoveKeepsUnique | app/contexts/CartContext.tsx:50-53 | removing lines keeps any key that was unique unique |
| CartContext.QuantityMapsKeepUnique | app/contexts/CartContext.tsx:32-37 | changing quantities never changes a line's (product id, variant id) key, so keys stay unique |
| CartContext.ReducerKeepsLinesUnique | app/contexts/CartContext.tsx:28-46 | every action keeps "at most one line per (product id, variant id)" |
| CartContext.RemoveItemFilters | app/contexts/CartContext.tsx:50-53 | REMOVE_ITEM drops every line with the id, keeps every other line with its multiplicity, and for any split of the list removes from each part separately, so the survivors keep their order |
| CartContext.RemoveUniqueLine | app/contexts/CartContext.tsx:50-53 | with unique ids, removing line `k`'s id leaves exactly the lines before and after `k` and subtracts its line total and quantity |
| CartContext.AbsentIdUnchanged | app/contexts/CartContext.tsx:50-53 | removing an id no line has changes nothing |
| CartContext.UpdateNonPositiveIsRemove | app/contexts/CartContext.tsx:57-58 | UPDATE_QUANTITY to a quantity of at most zero yields the same state as REMOVE_ITEM of that id |
| CartContext.UpdatePositiveSetsQuantity | app/contexts/CartContext.tsx:59-63 | UPDATE_QUANTITY to a positive quantity keeps length, ids, products, variants and order, sets the quantity of the lines with that id and leaves the others alone |
| CartContext.UpdatePositiveTotals | app/contexts/CartContext.tsx:59-63 | with unique ids and consistent totals, a positive update of line `k` changes the totals by the quantity difference times the unit price |
| CartContext.ReplayKeepsInvariants | app/contexts/CartContext.tsx:97-121 | dispatching any sequence of actions from a consistent state with unique lines keeps both properties |
| CartContext.ReachableCartsAreConsistent | app/contexts/CartContext.tsx:98-102 | every cart reachable from the initial state has totals matching its lines and at most one line per product and variant |
| CartContext.NewIdsCollide | app/contexts/CartContext.tsx:40 | no variant and a variant whose id is 'default' give the same new id for the same product and time |
| CartContext.EmptyVariantIdCollides | app/contexts/CartContext.tsx:29-40 | no variant and a variant whose id is empty give the same new id for the same product and time, while their line keys differ |
| CartContext.DuplicateIdsReachable | app/contexts/CartContext.tsx:26-48 | adding a product without a variant and then with a variant whose id is 'default', at the same time, gives a reachable cart of two lines with different keys and the same id |
| CartItemView.HandleQuantityChange | components/cart/CartItem.tsx:18-24 | a new quantity of at most zero dispatches removal of this line's id; a positive one dispatches UPDATE_QUANTITY with that id and quantity |
| CartItemView.QuantityChangeIsUpdate | components/cart/CartItem.tsx:18-24 | composed with the reducer, a quantity change has, for every quantity, the effect of UPDATE_QUANTITY |
| CartItemView.Click | components/cart/CartItem.tsx:53-80 | the minus button is disabled exactly when the quantity is at most one and otherwise asks for quantity minus one (still at least one); plus asks for quantity plus one; the trash button removes the line |
| CartItemView.Disabled | components/cart/CartItem.tsx:56 | the minus button is disabled while the quantity is at most one; the other buttons never are |
| CartItemView.IncrementAddsUnitPrice | components/cart/CartItem.tsx:64 | in a consistent cart with unique ids, pressing plus raises the total by the shown unit price and the unit count by one |
| CartItemView.DecrementSubtractsUnitPrice | components/cart/CartItem.tsx:54-56 | in a consistent cart with unique ids, an enabled minus lowers the total by the shown unit price and the count by one, and never removes the line |
| CartItemView.TrashRemovesLine | components/cart/CartItem.tsx:80 | in a consistent cart with unique ids, the trash button removes exactly that line and its line total and quantity |
| CartItemView.IncrementWithSharedId | components/cart/CartItem.tsx:64 | on the reachable cart whose two lines share an id, plus on the first line (unit price 10) sets both lines to quantity 2 and moves the total from 30 to 60 |
| CartItemView.ShownPrice | components/cart/CartItem.tsx:16 | the price the line shows: the variant's price when there is a variant with a non-zero price, the product's otherwise |
| CartItemView.ShownLineTotal | components/cart/CartItem.tsx:74 | the line total shown: shown price times quantity |
| CartItemView.ShownPriceIsUnitPrice | components/cart/CartItem.tsx:16 | the unit price and line total the component computes are the ones the reducer totals with |
| CartItemView.ShownLinesAddUp | components/cart/CartItem.tsx:74 | the sum of the shown line totals over any list equals the reducer's sum of line totals |
| CartItemView.ShownLinesAddUpToTotal | components/cart/CartItem.tsx:74 | in a consistent cart the shown line totals add up to the cart total |
| CartSummary.Shipping | components/cart/CartSummary.tsx:12 | shipping is 0 exactly when the subtotal exceeds 200000 and is otherwise the 15000 fee |
| CartSummary.Summarize | components/cart/CartSummary.tsx:12-52 | the subtotal is the cart total, tax is exactly 19/100 of it, the grand total is subtotal plus shipping plus tax, and the notice is shown exactly when shipping is charged, asking for `200000 - cart.total` more, a non-negative amount |
| CartSummary.ShippingMonotone | components/cart/CartSummary.tsx:12 | raising the subtotal never raises shipping, and free shipping stays free |
| CartSummary.GrandTotalBounds | components/cart/CartSummary.tsx:12-14 | for a non-negative subtotal, the grand total is at least the subtotal and at most subtotal plus fee plus tax |
| CartSummary.NoticeAsWrittenFallsShort | components/cart/CartSummary.tsx:50 | whenever the notice is shown, adding the amount it names still leaves shipping charged |
| CartSummary.NoticeAsWrittenExample | components/cart/CartSummary.tsx:50 | a subtotal of 150000 is told to add 50000, and 200000 is still charged shipping |
| CartSummary.FreeShippingShortfall | components/cart/CartSummary.tsx:12 | the corrected amount is the least top-up that makes shipping free |
| CartSummary.SummarizeCorrected | components/cart/CartSummary.tsx:12-52 | the summary with the corrected notice: it agrees with the original in every other field, and its amount is the least top-up that reaches free shipping |
| Catalog.MatchesSearch | app/catalog/page.tsx:25-26 | the lowercased name or the lowercased description contains the lowercased search term |
| Catalog.MatchesCategory | app/catalog/page.tsx:27 | the selected category is 'all' or the product's own |
| Catalog.Matches | app/catalog/page.tsx:28 | a product is kept when it matches both the search and the category |
| Catalog.FilterProducts | app/catalog/page.tsx:24-29 | every kept product is in the list and matches the search and category; every matching product is kept |
| Catalog.FilterKeepsOrder | app/catalog/page.tsx:24-29 | the filter distributes over concatenation, so kept products keep their order |
| Catalog.EmptySearchKeepsAll | app/catalog/page.tsx:25-27 | an empty search term in category 'all' keeps every product, in order |
| Catalog.ParseSortMode | app/catalog/page.tsx:33-42 | 'price-low', 'price-high' and 'newest' select their modes exactly, and every other value selects the name order |
| Catalog.Compare | app/catalog/page.tsx:32-43 | the comparator: price difference either way, reversed id order, or name order |
| Catalog.CompareAntisymmetric | app/catalog/page.tsx:32-43 | swapping the comparator's operands negates its result in every mode |
| Catalog.PrecedesTotal | app/catalog/page.tsx:32-43 | for any two products one may precede the other under every mode |
| Catalog.PrecedesTransitive | app/catalog/page.tsx:32-43 | the comparator's order is transitive under every mode |
| Catalog.Insert | app/catalog/page.tsx:32-43 | inserting into a sorted list gives a sorted list with exactly one more copy of the product |
| Catalog.SortProducts | app/catalog/page.tsx:32-43 | the sort returns a permutation of its input that is sorted for the mode |
| Catalog.InsertTies | app/catalog/page.tsx:32-43 | an inserted product goes in front of every product it ties with |
| Catalog.SortIsStable | app/catalog/page.tsx:32-43 | the sort is stable: products that tie keep their input order |
| Catalog.FilteredAndSortedProducts | app/catalog/page.tsx:23-46 | the result is a permutation of the filtered list, sorted for the chosen mode |
| Catalog.ShownProductsMatch | app/catalog/page.tsx:23-46 | every shown product is a catalogue product matching the search and category, every matching product is shown, and no more than the catalogue holds |
| Catalog.TiesShownInCatalogueOrder | app/catalog/page.tsx:23-46 | products that tie under the chosen mode are shown in the order of the filtered catalogue |
| Catalog.SortChoiceKeepsSelection | app/catalog/page.tsx:24-45 | the chosen sort mode never changes which products are shown, nor how often |
| Catalog.SortModesOrder | app/catalog/page.tsx:34-41 | price-low gives non-decreasing prices, price-high non-increasing prices, newest non-increasing ids under the string order, and any other value non-decreasing names |
| Catalog.ResultsInfo | app/catalog/page.tsx:174 | the shown count never exceeds the catalogue size of four |
| JsString.ToLower | app/catalog/page.tsx:25-26 | lower-casing keeps the length and folds each character on its own |
| JsString.Includes | app/catalog/page.tsx:25-26 | `includes` holds exactly when the needle occurs at some position of the string |
| JsString.EmptyIsIncluded | app/catalog/page.tsx:25-26 | the empty string is included in every string |
| JsString.LocaleCompare | app/catalog/page.tsx:39-41 | the string comparison returns -1, 0 or 1, and 0 exactly for equal strings |
| JsString.LocaleCompareAntisymmetric | app/catalog/page.tsx:39-41 | swapping the operands negates the comparison |
| JsString.LocaleCompareTotal | app/catalog/page.tsx:39-41 | of two strings, one compares at most the other |
| JsString.LocaleCompareTransitive | app/catalog/page.tsx:39-41 | the string order is transitive |
| JsString.RelativeIndex | app/lib/utils.ts:19 | a slice bound is clamped into the string, with negative bounds counted from the end |
| JsString.Slice | app/lib/utils.ts:19 | `slice(start, end)` is the part between the two resolved bounds, or empty when they cross |
| JsString.SliceFrom | app/lib/utils.ts:19 | `slice(start)` is the part from the resolved bound to the end |
| Utils.FormatAddress | app/lib/utils.ts:18-20 | the result is the first six characters, then "...", then the last four (the whole string where it is shorter) |
| Utils.FormatLongAddress | app/lib/utils.ts:19 | for an address of at least ten characters the result has 13 characters, begins with its first six, has "..." in the middle and ends with its last four |
| Utils.FloorDiv | app/lib/utils.ts:23 | floor division for a divisor of either sign |
| Utils.FloorDivUnique | app/lib/utils.ts:23 | the floor quotient is the only integer within those bounds |
| Utils.CalculateDiscount | app/lib/utils.ts:22-24 | the result is the exact discount percentage rounded half up, as `Math.round` does |
| Utils.RoundingLemma | app/lib/utils.ts:23 | a floor quotient of the scaled numerator lies within one half of the exact percentage |
| Utils.NoDiscountAtFullPrice | app/lib/utils.ts:23 | selling at the original price is a 0% discount |
| Utils.FullDiscountWhenFree | app/lib/utils.ts:23 | a free item is a 100% discount |
| Utils.DiscountInRange | app/lib/utils.ts:22-24 | for a positive original price and a sale price between 0 and it, the discount is between 0 and 100 |
| Utils.SampleDiscount | app/lib/constants.ts:11-12 | the sample products' 200 → 100 gives 50% |
| BasePay.GetPaymentStatus | app/lib/base-pay.ts:73-92 | a parsed body is returned; a non-OK reply fails with "Failed to get payment status: " and its status text; any other error is rethrown unchanged |
| BasePay.PollFrom | app/lib/base-pay.ts:103-120 | the queries and sleeps alternate and stop within the remaining attempts; with no attempts left the poll times out at once; success is only ever a completed status |
| BasePay.PollPaymentStatus | app/lib/base-pay.ts:97-121 | queries and sleeps alternate, at most two events per attempt; with at most zero attempts the poll times out with no query; a success is a completed status |
| BasePay.PollWithDefaults | app/lib/base-pay.ts:97-101 | with the defaults (mainnet, 2000 ms, 30 attempts), queries and 2000 ms sleeps alternate and there are at most 30 queries |
| BasePay.QueriesOfAlternating | app/lib/base-pay.ts:105-117 | in an alternating trace the queries are the even positions |
| BasePay.QueryBound | app/lib/base-pay.ts:103-117 | the status endpoint is queried at most `maxAttempts` times, and never when `maxAttempts` is at most zero |
| BasePay.FirstDecisiveReply | app/lib/base-pay.ts:105-117 | when reply `k` is the first not pending, the poll stops after exactly `k`+1 queries and `k` sleeps; completed returns the status as is, failed throws "Payment failed", and an endpoint error propagates unretried |
| BasePay.AllPendingTimesOut | app/lib/base-pay.ts:105-120 | when every reply keeps polling, the poll times out after exactly `maxAttempts` queries, each followed by one sleep |
| BasePay.CompletedWithoutHashIsReturned | app/lib/base-pay.ts:108-110 | a completed status without a transaction hash is accepted and returned |
| EthersHelper.GetBaseRpcUrl | app/lib/ethers-helper.ts:10-15 | testnet selects the Base Sepolia endpoint and mainnet the Base mainnet endpoint; EthersHelper.NetworkOnlyPicksEndpoint shows the choice reaches the connection |
| EthersHelper.CountsAppend | app/lib/ethers-helper.ts:57-86 | query and sleep counts add up over concatenated call logs |
| EthersHelper.ReceiptLoop | app/lib/ethers-helper.ts:57-86 | the loop's calls alternate receipt query and 2000 ms sleep, starting and ending with a query, so no sleep follows the last attempt; it makes at most the remaining attempts' queries (all of them when nothing is found), makes a call exactly when an attempt remains, and only returns a hash some receipt carried |
| EthersHelper.QuerySleepBefore | app/lib/ethers-helper.ts:82-85 | a query and a sleep in front of a non-empty alternating log keep it alternating |
| EthersHelper.QueriesCountEvenPositions | app/lib/ethers-helper.ts:62-86 | in an alternating log the receipt queries are the even positions |
| EthersHelper.QueriesOfLoop | app/lib/ethers-helper.ts:59-86 | an alternating log with all 30 queries has 59 calls |
| EthersHelper.WaitForTransactionHash | app/lib/ethers-helper.ts:24-110 | it never throws: it connects to the endpoint for the network, returns the input or a hash the provider supplied, and makes at most 30 receipt queries and 29 sleeps |
| EthersHelper.AfterConnect | app/lib/ethers-helper.ts:31-110 | a provider that cannot be built gives back the input with no calls; otherwise the result is the input, a receipt's hash from one of the 30 attempts, or the wait's hash, within 30 receipt queries and 29 sleeps |
| EthersHelper.LooksLikeFullHash | app/lib/ethers-helper.ts:40 | the fast path applies to a string of exactly 66 characters starting with `0x` |
| EthersHelper.NetworkOnlyPicksEndpoint | app/lib/ethers-helper.ts:30-31 | for the same provider, testnet connects to Base Sepolia and mainnet to Base mainnet, two different endpoints, and everything after the connection and the returned hash are the same |
| EthersHelper.WaitWithDefaults | app/lib/ethers-helper.ts:24-28 | with the defaults (testnet, 60000 ms) it connects to Base Sepolia and makes at most 30 receipt queries |
| EthersHelper.FastPath | app/lib/ethers-helper.ts:40-53 | a 66-character `0x` input the provider knows is returned unchanged, with no receipt query and no sleep |
| EthersHelper.LoopFindsReceipt | app/lib/ethers-helper.ts:62-74 | when the first receipt arrives on attempt `k`, the loop returns its hash after exactly `k` queries |
| EthersHelper.ReceiptOnAttempt | app/lib/ethers-helper.ts:62-74 | off the fast path, a first receipt on attempt `k` ≤ 30 is the result, after exactly `k` receipt queries and `k`−1 sleeps |
| EthersHelper.ErrorsActLikeMisses | app/lib/ethers-helper.ts:75-82 | a receipt-query error counts as an attempt, exactly like a null reply |
| EthersHelper.AllMissesFindNothing | app/lib/ethers-helper.ts:62-86 | when no remaining attempt yields a receipt, the loop finds none |
| EthersHelper.ConfirmAfterThirtyMisses | app/lib/ethers-helper.ts:57-104 | on the provider, after thirty misses: the optional lookup, 30 queries alternating with 29 sleeps ending on a query, then one `waitForTransaction`; its non-empty hash wins, otherwise the input |
| EthersHelper.FallbackAfterThirtyMisses | app/lib/ethers-helper.ts:88-104 | after thirty misses: 30 queries alternating with 29 sleeps, the last call before the single `waitForTransaction` being a receipt query; the wait's non-empty hash is returned, otherwise the input |

## Left out

- String lengths and indices. JavaScript's `length` and `slice` count UTF-16 code units, while a Dafny string counts Unicode scalar values. `LooksLikeFullHash`, `FormatAddress` and `Slice` therefore differ from the code on characters outside the Basic Multilingual Plane (above U+FFFF, such as emoji), which count as two units there and one here.
- Unicode behaviour of `toLowerCase` and locale rules of `localeCompare`. The first is modelled as ASCII case folding, one character at a time. The second is code-point lexicographic order returning -1, 0 or 1.
- Floating point. Tax is the exact rational 19/100 of the subtotal, where the code multiplies by the double 0.19. `calculateDiscount` uses exact rationals before rounding, and `Math.round` is floor(x + 1/2).
- Utils.CalculateDiscount: requires a non-zero original price. The code divides by it and would yield NaN or an infinity for 0. Its only caller shows a discount only for a truthy original price (components/product/ProductCard.tsx:106-112).
- `formatPrice` (Intl currency formatting) and `cn` are out of scope: formatting and styling only.
- `formatUSDCAmount` is out of scope: float formatting.
- app/lib/notifications.ts is not part of this model (email and messaging).
- The API routes are not part of this model (database and payment SDK calls).
- The pages, layout, other components and hooks are not part of this model: rendering only. The cart line and summary are kept only for the values they compute.
- Real time. A sleep is an event in the trace, and `Date.now()` is a parameter.
- The logging calls.
- `getTransactionDetails` is not modelled: provider internals.
- `waitForTransaction`'s own timeout is not modelled: provider internals. Its single answer is an oracle input; the timeout passed to it is recorded in the call.
- The HTTP request's URL (`id` and `testnet` in the query string) is only recorded in the trace. The oracle's replies do not depend on it.
- Product fields that no modelled operation reads are not part of `Types.Product`: `image`, `images`, `inStock`, `isOnSale` and `tags`. Variant fields `image` and `inStock` are left out too. A missing `variants` array is the empty sequence.
- Quantities that are not integers, and NaN, are not modelled. Quantities are integers, and non-integer input cannot reach the reducer through the UI.
- CartContext.IncrementUnique: ADD_ITEM as written raises the quantity of every line whose id equals the matched line's id. "Only the matched line changes" is proved under the hypothesis that ids are unique, which the reducer does not guarantee. An id joins the product id, the variant tag and the timestamp with `-`. So two lines with different keys can share an id when the timestamps agree, by any of three routes. First, ids can contain `-`. Second, one line can have no variant and the other a variant whose id is 'default' (CartContext.DuplicateIdsReachable). Third, one line can have no variant and the other a variant whose id is empty (CartContext.EmptyVariantIdCollides).
- CartContext.AddExistingLine: likewise stated for carts with unique ids.
- CartContext.SetQuantityUnique: likewise. UPDATE_QUANTITY and REMOVE_ITEM act on every line with the id, and that is what CartContext.UpdatePositiveSetsQuantity and CartContext.RemoveItemFilters state without the hypothesis. For ADD_ITEM, CartContext.AddExistingLineAsWritten states it.
- CartContext.AddNewLine: the new line's id is not proved fresh, and it is not always fresh. The id is built from the product id, the variant tag and `Date.now()`. Three routes make it collide within one millisecond. A variant whose id is 'default' can meet no variant (CartContext.DuplicateIdsReachable). A variant whose id is empty, which is falsy and also tagged 'default', can meet no variant (CartContext.EmptyVariantIdCollides). And product or variant ids can contain dashes.
- CartItemView.IncrementAddsUnitPrice: stated only for carts with unique ids. Without them "+" raises every line with that id (CartItemView.IncrementWithSharedId).
- CartItemView.DecrementSubtractsUnitPrice: stated only for carts with unique ids, for the same reason.
- CartItemView.TrashRemovesLine: stated only for carts with unique ids. In general the trash button removes every line carrying the id, as CartContext.RemoveItemFilters states.

## Findings

| source | as written | input that shows it | evidently intended | confidence | as-written member | corrected member |
|---|---|---|---|---|---|---|
| components/cart/CartSummary.tsx:50 | the free-shipping notice asks for `200000 - total` more, but shipping is free only when the total is strictly above 200000 (line 12) | a subtotal of 150000 is told to add 50000; a subtotal of 200000 is still charged 15000 | ask for `200000 - total + 1` more, the least amount that makes shipping free | not executed | CartSummary.NoticeAsWrittenFallsShort | CartSummary.FreeShippingShortfall |
