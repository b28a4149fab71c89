# AfriMarket checkout core in Dafny

A model of the buying path of the AfriMarket marketplace, with proofs about it.

- **Cart store.** `src/contexts/CartContext.tsx`: adding, removing and re-counting lines, emptying the cart, the item count, and the price total. The total strips each display price to `0-9 . -`, reads it with `parseFloat` and multiplies by the quantity.
- **Cart sheet.** `src/components/CartSheet.tsx`: the checks before checkout, the request body sent to the payment function, and how its answer is handled. This includes pay on delivery, opening the payment link, and the minus and plus buttons.
- **Payment-method dialog.** `src/components/PaymentMethodDialog.tsx`: the initial choice, the self-formatting card-number field, the `isValid` rule, and what `handleConfirm` hands over.
- **`create-payment` edge function.** `supabase/functions/create-payment/index.ts`: every step in order, with the exact status codes and error messages. The outside calls it makes (user lookup, Campay token, Campay collect, order insert) are recorded as a trace. Their answers come from a `Backend` value.
- **Product page filter.** `src/pages/Products.tsx`: a case-insensitive search on name or vendor, and the category selector.
- **Discover page filter.** `src/pages/Discover.tsx`: the country and category selectors, their option values, and the story filter.
- **Profile page.** `src/pages/Profile.tsx`: loading the profile row into the form, where a `null` column becomes `''` and "no row" (`PGRST116`) is not an error. Also the change-password form: the mismatch check, the length check, the update call, and the reset of the form.

The modules follow the source files. The helper modules are:

- `Wrappers`: `Option` and `Result`.
- `Seqs`: the order-preserving `filter`.
- `Text`: ASCII case mapping, substring search, `replace` with a string pattern, JavaScript whitespace and `trim`, and decimal printing of integers.
- `Price`: price stripping, `parseFloat` on the stripped text, and `Math.round`.

`Flow` joins the sheet to the edge function. The request the sheet builds is handled, and the response comes back as the sheet's reply. This makes the end-to-end behaviour of a checkout statable in one lemma.

Pay on delivery does not do what the comment at `src/components/CartSheet.tsx:47` says ("just create order without payment"): the sheet sends delivery orders to the same `create-payment` function, and that function never reads `paymentMethod`. So a delivery order also fetches a Campay token and asks Campay to collect the amount. The order is stored as `pending` with Campay's link, and the sheet reports "Order Placed" only when all of that succeeded. The model follows the code. `CreatePayment.IgnoresPaymentMethod`, `Flow.DeliveryStillCollects` and `Flow.DeliveryNeedsCampay` state this.

The model states two further behaviours of the code as properties. It does not correct them.

- **Card field.** The field counts the inserted spaces towards its 16 characters, so a card number is accepted from 13 digits on (`PaymentDialog.CardValidIff`).
- **Discover selectors.** The option values are lower-cased and hyphenated, while the stories' fields are capitalised. Picking any option therefore empties the list of featured stories (`DiscoverPage.FeaturedAfterCountryPick`).

## Model

| member | source | states |
|---|---|---|
| `CartStore.AddToCart` | src/contexts/CartContext.tsx:43-73 | the product's line is in the result; an existing line gains exactly one unit and no other line changes; otherwise a one-unit line is appended at the end and the old lines are kept |
| `CartStore.RemoveFromCart` | src/contexts/CartContext.tsx:75-90 | no line with the id remains; every other line is kept, in order, and nothing is added; a missing id leaves the cart unchanged |
| `CartStore.UpdateQuantity` | src/contexts/CartContext.tsx:92-103 | a quantity of zero or less is a removal; otherwise the cart keeps its length, the matching line takes the new quantity and the other lines are unchanged; an unknown id changes nothing |
| `CartStore.ClearCart` | src/contexts/CartContext.tsx:105-111 | the cleared cart is empty, counts zero items and is worth exactly 0 |
| `CartStore.TotalItems` | src/contexts/CartContext.tsx:113-115 | the empty cart counts zero items and a one-line cart counts that line's quantity; with `CartLaws.TotalItemsAppend` the count adds up over concatenation |
| `CartStore.SumLines` | src/contexts/CartContext.tsx:117-122 | the sum of the line values is a number exactly when every line's price reads as a number; one NaN price makes the whole total NaN |
| `CartStore.TotalPrice` | src/contexts/CartContext.tsx:117-122 | the cart total is a number exactly when every stripped price has a numeric prefix |
| `CartLaws.AddToCartPreservesWellFormed` | src/contexts/CartContext.tsx:43-73 | adding keeps the ids distinct and every quantity at least one |
| `CartLaws.RemoveFromCartPreservesWellFormed` | src/contexts/CartContext.tsx:75-90 | removing keeps the ids distinct and every quantity at least one |
| `CartLaws.UpdateQuantityPreservesWellFormed` | src/contexts/CartContext.tsx:92-103 | updating keeps the ids distinct and every quantity at least one, even for a quantity of zero or less |
| `CartLaws.RemoveOneLine` | src/contexts/CartContext.tsx:78 | in a cart with distinct ids, removing the id of line `k` cuts exactly that line out |
| `CartLaws.SubsequenceKeepsDistinct` | src/contexts/CartContext.tsx:78 | a subsequence of a cart with distinct ids has distinct ids, and each of its lines is a line of the cart |
| `CartLaws.AddToCartExisting` | src/contexts/CartContext.tsx:43-73 | adding a product already in the cart bumps exactly its line by one and leaves the others |
| `CartLaws.UpdateQuantityExisting` | src/contexts/CartContext.tsx:92-103 | a positive quantity for the id of line `k` replaces that line's quantity and nothing else |
| `CartLaws.TotalItemsAtLeastLines` | src/contexts/CartContext.tsx:113-115 | a well-formed cart counts at least as many items as it has lines |
| `CartLaws.TotalItemsAppend` | src/contexts/CartContext.tsx:113-115 | the item count of two carts put together is the sum of their counts |
| `CartLaws.AddToCartTotalItems` | src/contexts/CartContext.tsx:43-73 | adding a product raises the item count by exactly one, whether or not it was already in the cart |
| `CartLaws.UpdateQuantityTotalItems` | src/contexts/CartContext.tsx:92-103 | setting line `k` to a positive quantity changes the count by the new quantity minus the old |
| `CartLaws.TotalItemsUpdate` | src/contexts/CartContext.tsx:113-115 | replacing one line changes the item count by the new quantity minus the old |
| `CartLaws.RemoveFromCartTotalItems` | src/contexts/CartContext.tsx:75-90 | removing line `k` lowers the count by that line's quantity |
| `CartLaws.AddToCartTotalPrice` | src/contexts/CartContext.tsx:117-122 | adding a product raises the total by its unit price as read, or makes it NaN when that price is unreadable, for a new line and an existing one alike |
| `CartLaws.SumLinesUpdate` | src/contexts/CartContext.tsx:117-122 | the total after replacing line `k` is the lines before it, the new line and the lines after it, added up |
| `CartLaws.AddToCartSumLinesNew` | src/contexts/CartContext.tsx:117-122 | adding a new product adds its unit price as read to the total |
| `CartLaws.AddToCartSumLinesExisting` | src/contexts/CartContext.tsx:117-122 | adding a product already in the cart adds the unit price of its line as read to the total |
| `CartLaws.AddSameProductTwice` | src/contexts/CartContext.tsx:43-73 | adding a new product twice appends one line holding two units |
| `CartLaws.TotalsExample` | src/contexts/CartContext.tsx:113-122 | two units at "$24.99" and one at "XAF 1,500" count 3 items, total 1549.98 and round to 1550 |
| `CartLaws.RoundsUp` | src/components/CartSheet.tsx:51 | a total whose fraction is at least one half rounds up to the next integer |
| `Price.StripPrice` | src/contexts/CartContext.tsx:119 | the stripped text holds only `0-9 . -`; it keeps every such character, in order; it is the identity on such text and empty when there is none |
| `Price.StripPriceIdempotent` | src/contexts/CartContext.tsx:119 | stripping twice is stripping once |
| `Price.StripPriceAppend` | src/contexts/CartContext.tsx:119 | stripping works piece by piece over a concatenation |
| `Price.StripPriceDropsSeparator` | src/contexts/CartContext.tsx:119 | a currency label and a thousands separator are deleted, so the digit groups are joined |
| `Price.UnitPrice` | src/contexts/CartContext.tsx:119 | a display price reads as NaN exactly when its stripped text has no numeral after the optional sign, and a price without a minus sign reads as non-negative |
| `Price.ParseNumber` | src/contexts/CartContext.tsx:119 | `parseFloat` of stripped text is NaN exactly when no numeral starts after the optional sign, and it is non-negative without a sign |
| `Price.ParseDecimal` | src/contexts/CartContext.tsx:119 | `[-]ints.fracs` followed by anything that does not continue the number reads as its exact decimal value |
| `Price.ParseInteger` | src/contexts/CartContext.tsx:119 | `[-]ints` followed by neither a digit nor a point reads as the integer it denotes |
| `Price.ParsePrintedInteger` | supabase/functions/create-payment/index.ts:96 | the decimal text of an integer reads back as that integer |
| `Price.MathRound` | src/components/CartSheet.tsx:51 | the rounded amount is within half a unit of the total, ties going up |
| `Price.RoundAmount` | src/components/CartSheet.tsx:51 | rounding a NaN total gives NaN, and a number rounds to within half a unit |
| `Price.UnitPriceDollars` | src/contexts/CartContext.tsx:119 | the display price "$24.99" reads as 24.99 |
| `Price.UnitPriceThousands` | src/contexts/CartContext.tsx:119 | "XAF 1,500" reads as 1500: the comma is deleted, not taken as a decimal point |
| `Price.StripDollars` | src/contexts/CartContext.tsx:119 | "$24.99" strips to "24.99" |
| `Price.ParseDollars` | src/contexts/CartContext.tsx:119 | "24.99" reads as 24.99 |
| `Price.StripThousands` | src/contexts/CartContext.tsx:119 | "XAF 1,500" strips to "1500" |
| `Price.ParseThousands` | src/contexts/CartContext.tsx:119 | "1500" reads as 1500 |
| `Seqs.Filter` | src/contexts/CartContext.tsx:78 | `filter` keeps exactly the elements satisfying the test, in their original order |
| `Seqs.FilterAppend` | src/contexts/CartContext.tsx:78 | filtering distributes over concatenation |
| `Seqs.FilterDropsOne` | src/contexts/CartContext.tsx:78 | when the test fails on exactly one element, filtering cuts out that element alone |
| `PaymentDialog.MethodName` | src/components/PaymentMethodDialog.tsx:13 | every method has a non-empty wire name |
| `PaymentDialog.MethodNameInjective` | src/components/PaymentMethodDialog.tsx:13 | two methods share a wire name exactly when they are the same method |
| `PaymentDialog.Initial` | src/components/PaymentMethodDialog.tsx:18-20 | the dialog opens on mobile money with both fields empty, so confirming is disabled |
| `PaymentDialog.IsValid` | src/components/PaymentMethodDialog.tsx:32-36 | delivery is always valid; phone needs 9 characters and card 16, spaces included |
| `PaymentDialog.ConfirmEnabled` | src/components/PaymentMethodDialog.tsx:122 | the confirm button is disabled while processing and otherwise enabled exactly when the entry is valid |
| `PaymentDialog.Confirm` | src/components/PaymentMethodDialog.tsx:22-30 | the confirmed method is the chosen one; its details are the card field, the phone field, or empty for delivery |
| `PaymentDialog.SelectMethod` | src/components/PaymentMethodDialog.tsx:46 | choosing a method keeps both fields as they were |
| `PaymentDialog.EnterPhone` | src/components/PaymentMethodDialog.tsx:83 | the phone field stores the text as typed and nothing else changes |
| `PaymentDialog.EnterCard` | src/components/PaymentMethodDialog.tsx:98 | the card field stores the formatted text and nothing else changes |
| `PaymentDialog.FormatCard` | src/components/PaymentMethodDialog.tsx:98 | the formatted card number neither starts nor ends with whitespace |
| `PaymentDialog.GroupFours` | src/components/PaymentMethodDialog.tsx:98 | the global `(.{4})` replacement adds one space per complete group of four |
| `PaymentDialog.GroupFoursJoin` | src/components/PaymentMethodDialog.tsx:98 | the replacement is the space-joined groups plus a trailing space exactly when the length is a positive multiple of four |
| `PaymentDialog.FormatCardIsJoin` | src/components/PaymentMethodDialog.tsx:98 | the formatter's output is the visible characters joined in groups of four, with no space at either end |
| `PaymentDialog.FormatCardKeepsCharacters` | src/components/PaymentMethodDialog.tsx:98 | removing the whitespace from the formatted text gives back the visible characters typed |
| `PaymentDialog.FormatCardIdempotent` | src/components/PaymentMethodDialog.tsx:98 | formatting an already formatted number changes nothing |
| `PaymentDialog.FormatCardSpaces` | src/components/PaymentMethodDialog.tsx:98 | a formatted number has a space at a position exactly when the position is 4 modulo 5 |
| `PaymentDialog.JoinGroupsShape` | src/components/PaymentMethodDialog.tsx:98 | in the joined groups every fifth character is a space and the others are the input's characters in order |
| `PaymentDialog.FormatCardLength` | src/components/PaymentMethodDialog.tsx:98 | `n` visible characters format to `n + (n - 1) / 4` characters |
| `PaymentDialog.CardValidIff` | src/components/PaymentMethodDialog.tsx:33 | a card entry passes `isValid` exactly when it has at least 13 visible characters |
| `PaymentDialog.OtherMethodsValidity` | src/components/PaymentMethodDialog.tsx:32-36 | a phone entry passes exactly from 9 characters on; pay on delivery always passes and can be confirmed when nothing is in flight |
| `PaymentDialog.ConfirmCardDetails` | src/components/PaymentMethodDialog.tsx:22-30 | a card payment hands over the typed characters, grouped, and nothing else |
| `Checkout.InitiateCheckout` | src/components/CartSheet.tsx:20-40 | a signed-out user is stopped first, then an empty cart, each with its own toast; otherwise the dialog opens and the cart is untouched |
| `Checkout.BuildRequest` | src/components/CartSheet.tsx:68-76 | the body carries the cart, "XAF" and the rounded total, which is null exactly when the total is NaN; details are sent exactly when the method is not delivery |
| `Checkout.ConfirmPayment` | src/components/CartSheet.tsx:42-96 | processing always ends; a page opens exactly for an online payment answered with a url; a failure keeps the cart and shows one "Checkout Failed"; the dialog closes exactly on delivery success or an online url |
| `Checkout.CartChangesOnlyOnDelivery` | src/components/CartSheet.tsx:42-96 | the cart changes on confirmation exactly for a successful delivery order of a non-empty cart, and then it is emptied |
| `Checkout.DeliverySuccess` | src/components/CartSheet.tsx:46-65 | a delivery order that went through shows "Order Placed" then "Cart Cleared", empties the cart, closes the dialog, and sent method "delivery" without details |
| `Checkout.ConfirmPreservesWellFormed` | src/components/CartSheet.tsx:42-96 | confirming keeps the cart well formed |
| `Checkout.DecrementLastUnit` | src/components/CartSheet.tsx:169 | the minus button on a one-unit line removes exactly that line |
| `Checkout.Decrement` | src/components/CartSheet.tsx:169 | minus on a line of more than one unit lowers that line by one and leaves every other product's line as it was; on a line of one unit (or less) the line's id leaves the cart and the rest keep their order |
| `Checkout.Increment` | src/components/CartSheet.tsx:180 | plus raises line `k` by one, keeps the length and leaves lines of other products alone |
| `Checkout.IncrementIsAdd` | src/components/CartSheet.tsx:180 | the plus button does exactly what adding the same product again does |
| `Checkout.DecrementThenIncrement` | src/components/CartSheet.tsx:169 | on a line of more than one unit, minus then plus restores the cart |
| `CreatePayment.Reference` | supabase/functions/create-payment/index.ts:92 | the reference is `order_`, then the user id, then `_`, then the decimal digits of the time |
| `CreatePayment.ReferencesDiffer` | supabase/functions/create-payment/index.ts:92 | one user's requests at different milliseconds get different references |
| `CreatePayment.CollectRequest` | supabase/functions/create-payment/index.ts:95-103 | Campay is asked for the decimal text of the total, in the request's currency, under the order reference, for phone 237000000000, described as "AfriMarket Order - N items" with N the number of lines, with the redirect and webhook urls under the request's origin |
| `CreatePayment.Handle` | supabase/functions/create-payment/index.ts:22-171 | the status is 200, 401 or 500; the calls follow the order user lookup, token, collect, insert; 401 exactly when a request with a header names an unknown user; a collect call means every earlier check passed and carries the total's text |
| `CreatePayment.Charge` | supabase/functions/create-payment/index.ts:92-159 | after the token, the answer is 200 exactly when the total is not null and Campay accepted the collection; a collect call carries the total's text; an order row is inserted only after an accepted collection, with the request's amount and items under the reference sent to Campay |
| `CreatePayment.SuccessIff` | supabase/functions/create-payment/index.ts:22-171 | a non-preflight request is answered 200 exactly when it has a header, a known user, a readable body, configured secrets, a token, a total and an accepted collection |
| `CreatePayment.SuccessShape` | supabase/functions/create-payment/index.ts:133-159 | a success made all four calls; the reference sent to Campay, stored with the order and returned is the same; the order is stored pending for the user with Campay's link and the request's amount, currency and items |
| `CreatePayment.UnauthenticatedStopsEarly` | supabase/functions/create-payment/index.ts:43-49 | an unknown user gets 401 "User not authenticated" after the user lookup alone |
| `CreatePayment.NullTotalFailsAfterToken` | supabase/functions/create-payment/index.ts:96 | a null total fails with 500 after the token request and before any collection |
| `CreatePayment.IgnoresPaymentMethod` | supabase/functions/create-payment/index.ts:52 | the response and the calls do not depend on the payment method or its details |
| `CreatePayment.IgnoresInsertResult` | supabase/functions/create-payment/index.ts:145-148 | a failed order insert does not change the response |
| `CreatePayment.CollectAmountReadsBack` | supabase/functions/create-payment/index.ts:96 | the amount sent to Campay is decimal text that reads back as the total |
| `CreatePayment.BearerToken` | supabase/functions/create-payment/index.ts:38-40 | for a `Bearer <jwt>` header the user is looked up with exactly `<jwt>` |
| `CreatePayment.PreflightAnswersEmpty` | supabase/functions/create-payment/index.ts:24-26 | an OPTIONS request is answered 200 with no body and no call |
| `CreatePayment.MissingHeaderFails` | supabase/functions/create-payment/index.ts:38-39 | without an Authorization header the request fails with 500 before any call |
| `CreatePayment.UnreadableBodyFails` | supabase/functions/create-payment/index.ts:52 | a body that does not parse fails with 500 and the parser's message after the user lookup alone |
| `CreatePayment.UnconfiguredStopsBeforeToken` | supabase/functions/create-payment/index.ts:57-67 | missing Campay secrets give 500 "Payment service configuration error" after the user lookup alone |
| `CreatePayment.TokenRefusedFails` | supabase/functions/create-payment/index.ts:69-84 | a refused token request gives 500 "Failed to authenticate with payment service", after sending the configured credentials |
| `CreatePayment.CollectRefusedFails` | supabase/functions/create-payment/index.ts:107-120 | a refused collection gives 500 "Failed to create payment" after three calls, so no order is recorded |
| `CreatePayment.InsertOnlyAfterCollect` | supabase/functions/create-payment/index.ts:116-143 | an order insert happens only after Campay accepted the collection, and the answer is then 200 |
| `Flow.DeliveryStillCollects` | src/components/CartSheet.tsx:46-65 | with every service up, a delivery order makes four calls including a Campay collection, then shows "Order Placed" and "Cart Cleared" with the cart emptied |
| `Flow.DeliveryNeedsCampay` | src/components/CartSheet.tsx:48-57 | when Campay refuses the token, a delivery order fails and the cart stays |
| `Flow.UnreadablePriceFails` | src/components/CartSheet.tsx:51 | a NaN total makes the function fetch a token and answer 500, and the sheet shows "Checkout Failed" with the cart unchanged |
| `Flow.OnlinePaymentOpensLink` | src/components/CartSheet.tsx:68-84 | a successful online payment opens Campay's link, closes the dialog and keeps the cart |
| `ProductsPage.Filtered` | src/pages/Products.tsx:94-99 | exactly the products matching both the search and the category are listed, in catalogue order |
| `ProductsPage.Displayed` | src/pages/Products.tsx:193 | the rendered list is exactly the filtered list, whatever the sort choice, and so a subsequence of the catalogue |
| `ProductsPage.InitialShowsAll` | src/pages/Products.tsx:14-15 | the initial empty query and "all" list the whole catalogue |
| `ProductsPage.SearchIgnoresCase` | src/pages/Products.tsx:95-96 | upper- or lower-casing the query does not change what is listed |
| `ProductsPage.CategoryNarrows` | src/pages/Products.tsx:97 | a category choice is the "all" listing filtered to that category |
| `ProductsPage.SortIgnored` | src/pages/Products.tsx:16 | the sort selector changes neither what is listed nor its order |
| `DiscoverPage.OptionValue` | src/pages/Discover.tsx:169 | an option value has the label's length and no upper-case letter, and a label without a space gives exactly its lower-cased text |
| `DiscoverPage.OnlyFirstSpace` | src/pages/Discover.tsx:169 | only the first space of a label becomes a hyphen |
| `DiscoverPage.SpaceAfterFive` | src/pages/Discover.tsx:169 | a five-letter first word gets the hyphen at position 5, and a space second in the rest stays at position 7 |
| `DiscoverPage.SecondSpaceKept` | src/pages/Discover.tsx:182 | "Music & Entertainment" keeps its second space in its option value |
| `DiscoverPage.FilteredStories` | src/pages/Discover.tsx:118-122 | exactly the stories matching both selections are shown, in order |
| `DiscoverPage.InitialShowsAll` | src/pages/Discover.tsx:12-13 | the initial selections "all" show every story |
| `DiscoverPage.NoOptionIsAll` | src/pages/Discover.tsx:169 | no option value of either selector is "all" |
| `DiscoverPage.CountryOptionEmpties` | src/pages/Discover.tsx:119 | any country option empties a list of stories with capitalised countries |
| `DiscoverPage.CategoryOptionEmpties` | src/pages/Discover.tsx:120 | any category option empties a list of stories with capitalised categories |
| `DiscoverPage.FeaturedAfterCountryPick` | src/pages/Discover.tsx:118-122 | once any country is picked, no featured story is shown |
| `DiscoverPage.FeaturedAfterCategoryPick` | src/pages/Discover.tsx:118-122 | once any category is picked, no featured story is shown |
| `Text.LowerOfUpper` | src/pages/Products.tsx:95-96 | lower-casing after upper-casing is lower-casing |
| `Text.LowerIdempotent` | src/pages/Products.tsx:95-96 | lower-casing twice is lower-casing once |
| `Text.ReplaceFirst` | supabase/functions/create-payment/index.ts:39 | `replace` with a string pattern replaces an occurrence at the front |
| `Text.ReplaceFirstAbsent` | supabase/functions/create-payment/index.ts:39 | without an occurrence of the pattern, `replace` changes nothing |
| `Text.ReplaceFirstChar` | src/pages/Discover.tsx:169 | with a one-character pattern, only the first occurrence is replaced and the rest is kept verbatim |
| `Text.ReplaceFirstFrom` | src/pages/Discover.tsx:169 | every character of the result comes from the input or the replacement, and an equal-length replacement keeps the length |
| `Text.RemoveWhitespace` | src/components/PaymentMethodDialog.tsx:98 | `replace(/\s/g, '')` leaves no whitespace and is the identity on text without any |
| `Text.Trim` | src/components/PaymentMethodDialog.tsx:98 | `trim` leaves no whitespace at either end and is the identity on text without any |
| `Text.TrimBounds` | src/components/PaymentMethodDialog.tsx:98 | `trim` keeps a middle slice of the text and cuts only whitespace before and after it |
| `Text.TrimStartIsSuffix` | src/components/PaymentMethodDialog.tsx:98 | cutting leading whitespace keeps a suffix and cuts only whitespace |
| `Text.TrimEndIsPrefix` | src/components/PaymentMethodDialog.tsx:98 | cutting trailing whitespace keeps a prefix and cuts only whitespace |
| `Text.TrimOneTrailingSpace` | src/components/PaymentMethodDialog.tsx:98 | trimming removes one trailing space after visible text and leaves that text |
| `Text.IntToString` | supabase/functions/create-payment/index.ts:96 | an integer prints as a minus sign for negatives followed by digits |
| `Text.NatToStringValue` | supabase/functions/create-payment/index.ts:96 | the printed digits of a natural number denote that number |
| `Text.NatToStringInjective` | supabase/functions/create-payment/index.ts:92 | different numbers print differently |
| `ProfilePage.EmptyProfile` | src/pages/Profile.tsx:30-38 | the form starts with every field empty |
| `ProfilePage.FetchProfile` | src/pages/Profile.tsx:51-80 | loading fails exactly on an error code other than `PGRST116`; then, or without a row, the form is unchanged; otherwise every field is its column, or `''` for null |
| `ProfilePage.LoadMirrorsRow` | src/pages/Profile.tsx:61-71 | a successfully loaded row is mirrored field by field, whatever the form held |
| `ProfilePage.NullRowClears` | src/pages/Profile.tsx:61-71 | an all-null row gives the empty form and no error |
| `ProfilePage.MissingRowIsNotAnError` | src/pages/Profile.tsx:59 | a user without a profile row sees no error and the form unchanged |
| `ProfilePage.FetchIdempotent` | src/pages/Profile.tsx:59-71 | loading the same answer twice gives the same form as loading it once |
| `ProfilePage.HandlePasswordChange` | src/pages/Profile.tsx:118-168 | the update is requested exactly when the passwords match and are at least 6 long, with the new password; a mismatch is reported first, and matching passwords shorter than 6 are reported as too short with no update; loading is raised then lowered only after validation; success alone clears the form |
| `ProfilePage.ValidationMatchesRejection` | src/pages/Profile.tsx:121-137 | a submission is rejected exactly when the reference rule finds a mismatch or a short password, with the same error |
| `ProfilePage.MismatchCheckedFirst` | src/pages/Profile.tsx:121-128 | a mismatch is reported even when the new password is also too short |
| `ProfilePage.IgnoresCurrentPassword` | src/pages/Profile.tsx:141-144 | the current-password field influences neither the outcome nor the update |
| `ProfilePage.LoadingAlwaysReset` | src/pages/Profile.tsx:139-167 | every path leaves the loading flag lowered |
| `ProfilePage.ResubmitAfterSuccess` | src/pages/Profile.tsx:153-157 | a failed update keeps the form; after a success, submitting the cleared form is rejected as too short without another update |

## Left out

- localStorage: saving and restoring the cart (`CartContext.tsx:30-41`) is browser storage.
- The cart store's toasts: "Quantity Updated", "Added to Cart", "Removed from Cart" and "Cart Cleared" are not in the cart model. The checkout does list "Cart Cleared" among its notices.
- The cart is React state changed through `setItems(prev => …)`. It is modelled as a value passed from one operation to the next, and rendering is not modelled.
- Floating point: prices, totals and `Math.round` use exact rationals. Binary64 rounding of sums such as 24.99 × 2 is not modelled.
- `parseFloat` is modelled on text holding only `0-9 . -`, which is all the price stripping can produce. Exponents, `Infinity` and leading whitespace cannot occur in that text.
- Text.IntToString: integers print in plain decimal at any size. JavaScript switches to exponent notation from 1e21 on.
- `Text.Lower`, `Text.Upper`: ASCII letters only. Unicode case mapping beyond ASCII is not modelled.
- String lengths count Dafny characters, not the UTF-16 code units `.length` counts. Characters outside the Basic Multilingual Plane are not distinguished.
- The card field's `maxLength={19}` is an attribute the browser enforces on typing. The model accepts any typed text.
- Text.ReplaceFirst: the replacement is taken literally, so the `$` patterns of `replace` are not modelled. The source never passes one.
- Network, clock and logs: every Supabase call, Campay request, `Date.now()` and `console` output is an input or a recorded call. Their timing, retries and failures beyond "threw", "not ok" and "ok" are not modelled.
- Checkout.ConfirmPayment: `handlePaymentConfirm` is taken as one step. During its `await`, the dialog's Cancel button (`PaymentMethodDialog.tsx:117`) and the sheet's minus and plus buttons stay enabled; only the checkout button (`CartSheet.tsx:203`) is disabled. So `clearCart()` (`CartSheet.tsx:63`) also discards units added during the wait, and that interleaving is not modelled.
- CreatePayment.Body: the request body is taken to have the shape the sheet sends. A JSON body of another shape is not modelled, for example one without `totalAmount`, where `undefined.toString()` throws.
- CORS headers are not modelled. A response only records whether it is JSON.
- CreatePayment.Handle: Campay's token answer is a string. The case where `tokenData.token` is missing and `"Token undefined"` is sent is not modelled.
- The payment-success redirect, the webhook and order settlement after a Campay payment are not part of the checkout code.
- `ProfilePage`: `handleProfileUpdate` (the profile upsert, `Profile.tsx:82-116`) is not part of this model. Only the load mapping and the password change are.
- ProfilePage.FetchProfile: the fetch is made only for a signed-in user (`Profile.tsx:45-49`), and that guard is not modelled.
- The rest of the application is not part of this model: routing, authentication pages, chat, dashboards, `ProductForm` and promotions.
