# PrintDoot backend, modelled in Dafny

This project is a model of the core of the PrintDoot print-shop backend, a
FastAPI service over a PostgreSQL database. It covers:

- the order-code generator;
- the order routes and the commented-out checkout with its order counter;
- the row builder of the orders report;
- the catalog routes: categories, products, reviews and coupons;
- the featured sections and banners;
- the user and profile routes.

The database is abstracted as follows:

- A table whose rows the routes update in place is a `class`. Its rows are a `seq` field, or a `map` field when the table is keyed by a unique string, and its identity sequence is a counter field.
- Each route is a method with a `modifies` clause.
- Read-only routes are functions over the stored rows.
- A unique constraint that refuses a commit becomes an error result.
- Partial updates are `Option` fields.
- Loops in the source are `while`/`for` loops proved against pure specification functions.

Files, one module each:

- `common.dfy`: Option/Result, filtering, first-match search, `str.join`, ASCII upper-casing, map restriction.
- `decimal.dfy`: decimal digit strings (`str(n)`, `zfill`) and their numeric value.
- `order_code.dfy`: `generate_order_id` and `number_to_letters`.
- `sorting.dfy`: `ORDER BY` as a stable insertion sort, and `OFFSET`/`LIMIT`.
- `schema.dfy`: the stored records.
- `accounts.dfy`, `profile.dfy`: users, their details, the auth and profile routes.
- `categories.dfy`, `products.dfy`, `reviews.dfy`, `coupons.dfy`: the catalog routes.
- `featured.dfy`, `banners.dfy`: the featured sections, shop-by-need and banners.
- `report.dfy`: `format_money` and the tables of the orders report.
- `orders.dfy`: the order reads, the report selection and its lookup keys, and the checkout.

Money is an integer number of paise, and timestamps are integers. Product
ratings are exact rationals (`real`).

## Model

| member | source | states |
|---|---|---|
| OrderCode.NumberToLetters | utils/order.py:8-13 | the three-step divmod loop yields `LettersOf(n)`: exactly three letters A–Z, most significant first |
| OrderCode.OrderCode | utils/order.py:3-17 | every code is 15 characters: `PRNTDT-`, three letters, five digits |
| OrderCode.GenerateOrderId | utils/order.py:3-17 | the generator returns `OrderCode(counter)` |
| OrderCode.LettersRoundTrip | utils/order.py:8-13 | the letters read back in base 26 give `n mod 26³`: only the low three base-26 digits survive |
| OrderCode.ValueRoundTrip | utils/order.py:8-13 | every string of three capital letters is the letter block of its own base-26 value |
| OrderCode.LettersPeriodic | utils/order.py:10-12 | `n` and `n + 26³` give the same letters |
| OrderCode.DecodeRoundTrip | utils/order.py:3-17 | below `99999·26³` the counter is recovered from its code |
| OrderCode.OrderCodeInjective | utils/order.py:3-17 | distinct counters in `[0, 99999·26³)` give distinct codes, as the unique order-code column needs |
| OrderCode.OrderCodeWraps | utils/order.py:4-12 | counters `c` and `c + 99999·26³` give the same code |
| OrderCode.NumberBlock | utils/order.py:5-16 | the digit block reads back as `counter % 99999 + 1`, lies in 1..99999 and is never `00000` |
| OrderCode.FirstCode | utils/order.py:4-16 | counter 0 gives `PRNTDT-AAA00001` |
| OrderCode.SecondCode | utils/order.py:4-16 | counter 1 gives `PRNTDT-AAA00002` |
| OrderCode.LastCodeOfFirstBlock | utils/order.py:4-16 | counter 99998 gives `PRNTDT-AAA99999` |
| OrderCode.RollOverCode | utils/order.py:4-16 | counter 99999 rolls over to `PRNTDT-AAB00001` |
| Decimal.StrValue | utils/order.py:16 | `str(n)` reads back as `n` |
| Decimal.ZFillValue | utils/order.py:16 | `zfill` keeps only digits and does not change the value |
| Decimal.ZFillLength | utils/order.py:16 | `zfill(5)` of a number below 10⁵ is exactly five characters |
| Common.Join | utils/pdf_generator.py:123 | joining nothing gives `""`; joining one part gives that part |
| Common.JoinEmptyIff | utils/pdf_generator.py:161 | a join of non-empty parts is empty exactly when there are no parts |
| Common.AsciiUpper | routers/products/products.py:51 | upper-casing keeps the length, maps a–z to A–Z and keeps every other character |
| Common.FilterCounts | routers/featured/featured.py:433-435 | a filter keeps each element that satisfies the test as often as it occurs, and no other element |
| Common.Restrict | routers/orders/orders.py:254-275 | a lookup `WHERE key IN keys` keeps exactly the keys in both, with their values |
| Sorting.SortBy | routers/orders/orders.py:121-127 | `ORDER BY`: the result is sorted on the column and is a permutation of the rows |
| Sorting.Page | routers/orders/orders.py:128-129 | `OFFSET`/`LIMIT`: the exact window length, and element `i` is row `offset + i` |
| Accounts.StoreKeepsContactsUnique | models.py:80-81 | storing a user who clashes with nobody keeps emails and phone numbers unique |
| Accounts.Accounts.CreateUser | routers/auth/auth.py:16-26 | a known clerkId gives 400; a clash on a unique contact column is refused; otherwise exactly that user is added |
| Accounts.Accounts.DeleteUser | routers/auth/auth.py:29-38 | an unknown clerkId gives 404; otherwise the user and its details row go, and nobody else changes |
| Profile.PatchUser | routers/user/user.py:44-46 | the user update keeps the clerkId and the role |
| Profile.PatchDetails | routers/user/user.py:48-51 | the details update keeps the clerkId |
| Profile.PatchIdempotent | routers/user/user.py:44-51 | a partial update applied twice equals applying it once; an empty update changes nothing |
| Profile.AddUserDetails | routers/user/user.py:11-29 | 404 without a user, then 400 when details exist; otherwise a row with exactly the requested fields |
| Profile.UpdateUserDetails | routers/user/user.py:32-59 | 404 for an unknown user; otherwise the set user fields are written, and the address fields only where a details row exists; no details row is created |
| Categories.PatchCategory | routers/products/categories.py:39-41 | the update keeps the id, and keeps the name unless one is set |
| Categories.PatchCategoryIdempotent | routers/products/categories.py:39-41 | a category update is idempotent; an empty update is the identity |
| Categories.CategoryTable.CreateCategory | routers/products/categories.py:13-22 | a name already held is refused by the unique column; otherwise the request is stored under a fresh id |
| Categories.CategoryTable.GetCategories | routers/products/categories.py:26-29 | every stored category is listed, and nothing else |
| Categories.CategoryTable.UpdateCategory | routers/products/categories.py:33-45 | 404 for an unknown id; otherwise only the set fields change, subject to the unique name |
| Products.CheckCustomizations | routers/products/products.py:25-48 | accepted exactly when the options are falsy, or the category allows customizations and every key and value is allowed; every refusal is a `CustomizationRefusal`: the category first, then the bad keys, then the bad values of one key |
| Products.RefusalIsBadRequest | routers/products/products.py:27-48 | every customization refusal is a 400 |
| Products.Abbreviation | routers/products/products.py:51 | `upper(name)[:3]`: at most three characters, upper-cased |
| Products.MintProductId | routers/products/products.py:54 | ids are `PRNTDT`, then exactly the abbreviation, then at least three digits |
| Products.MintedSuffix | routers/products/products.py:54 | the digits after the abbreviation read back as `count + 1`, zero-padded to at least 3 |
| Products.MintInjective | routers/products/products.py:51-54 | within one category, different counts give different ids |
| Products.MintAfterDeleteCollides | routers/products/products.py:52-54 | after deleting the first of two products, the next id minted is the survivor's id |
| Products.SharedAbbreviationCollides | routers/products/products.py:51-54 | two categories that share their first three upper-cased letters mint the same ids |
| Products.CountInCategory | routers/products/products.py:52-53 | the count is the number of stored products whose category is the given one |
| Products.NewProduct | routers/products/products.py:57-67 | a new product has no images, the requested status, rating 0 and the request's fields |
| Products.PatchProduct | routers/products/products.py:180-188 | an update never touches the product id, the images or the rating |
| Products.PatchProductIdempotent | routers/products/products.py:180-188 | a product update is idempotent; an empty update is the identity |
| Products.ProductTable.CreateProduct | routers/products/products.py:14-72 | 404 for an unknown category comes first; refused options give the 400 `CustomizationRefusal` names (the category, the bad keys, or one key's bad values); a minted id already held is refused; on success exactly one new row with the minted id |
| Products.ProductTable.UpdateProduct | routers/products/products.py:168-193 | 404 for an unknown id; otherwise only that product changes, by the patch |
| Products.ProductTable.DeleteProduct | routers/products/products.py:196-204 | 404 for an unknown id; otherwise that product goes and no row holds the id |
| Products.Ordered | routers/products/products.py:142-146 | the price sorts order by price ascending or descending and permute the rows |
| Products.FilterProducts | routers/products/products.py:131-155 | the `OFFSET skip LIMIT limit` window of the matching rows in the requested price order: its exact length, and element `i` is matching row `skip + i`; every row is stored and matches the category and the inclusive price bounds |
| Products.FilterProductsComplete | routers/products/products.py:131-155 | without paging, every matching product is listed |
| Reviews.ReviewsFor | routers/products/reviews.py:41-42 | exactly the stored reviews of the product |
| Reviews.ReviewsForCounts | routers/products/reviews.py:41-42 | each review of the product is listed as often as it is stored, and no other review is listed |
| Reviews.SumBounds | routers/products/reviews.py:44 | a sum of ratings lies between `lo·n` and `hi·n` |
| Reviews.MeanBounds | routers/products/reviews.py:43-44 | the average rating lies between the smallest and largest possible rating |
| Reviews.MeanAfterAppend | routers/products/reviews.py:41-48 | one more rating moves the average to the weighted mean of the old average and the new rating |
| Reviews.RatingsForAppend | routers/products/reviews.py:36-44 | after a new review, the product's ratings are the old ones plus the new one |
| Reviews.StoredRowsAppend | models.py:62-71 | storing a review of a new (user, product) pair under the next id keeps the unique constraint and increasing ids |
| Reviews.ReviewTable.CreateReview | routers/products/reviews.py:14-51 | a repeated (user, product) pair gives 400 before the user lookup, then 404; otherwise the review is stored under the next id with the transaction time, and the product, if present, carries the mean of all its ratings |
| Reviews.ReviewTable.GetReviews | routers/products/reviews.py:55-58 | exactly the reviews of the product, each as often as it is stored |
| Products.ProductTable.SetAverageRating | routers/products/reviews.py:45-49 | the product with the id, when there is one, takes the new average; no other row changes |
| Coupons.ActiveIndex | routers/products/coupons.py:133-139 | the first coupon with the code whose `active` is 1, or none |
| Coupons.PatchCoupon | routers/products/coupons.py:101-103 | the update keeps the id, and keeps the code unless one is set |
| Coupons.PatchCouponIdempotent | routers/products/coupons.py:101-103 | a coupon update is idempotent; an empty update is the identity |
| Coupons.VerifyCoupon | routers/products/coupons.py:131-178 | valid exactly when the message is "Valid coupon"; a valid verdict carries the discount, an invalid one none |
| Coupons.UnknownOrInactiveRefused | routers/products/coupons.py:133-145 | an unknown or inactive code is refused as invalid |
| Coupons.ExpiryIsStrict | routers/products/coupons.py:148-152 | a coupon expires only once `expires_at < now` |
| Coupons.CategoryMismatch | routers/products/coupons.py:155-162 | a category outside the list is forgiven only by a listed product |
| Coupons.CategoryMatchSkipsProducts | routers/products/coupons.py:155-162 | a listed category makes the coupon valid whatever the product |
| Coupons.ProductListDecides | routers/products/coupons.py:165-170 | without a category test the product list alone decides |
| Coupons.UnrestrictedAlwaysValid | routers/products/coupons.py:172-178 | an active, unexpired coupon without lists is valid |
| Coupons.ZeroCategoryIgnored | routers/products/coupons.py:155 | category id 0 is falsy and behaves as no category |
| Coupons.EmptyCodeSlipsThrough | routers/products/coupons.py:90-98 | an update to the empty code skips the duplicate-code guard |
| Coupons.CouponTable.CreateCoupon | routers/products/coupons.py:23-47 | a code in use gives 400; otherwise one new coupon with the given fields; codes stay unique |
| Coupons.CouponTable.UpdateCoupon | routers/products/coupons.py:78-108 | 404 for an unknown id; 400 when the code changes to one in use; otherwise only the set fields change |
| Coupons.CouponTable.DeleteCoupon | routers/products/coupons.py:112-127 | 404 for an unknown id; otherwise that coupon goes |
| Featured.MissingIds | routers/featured/featured.py:25-36 | exactly the requested ids absent from the catalog; none for an empty request |
| Featured.RunFromNoCollision | routers/featured/featured.py:86-94 | without collisions, every requested key is stored and counted once |
| Featured.RunAddsNoCollision | routers/featured/featured.py:84-97 | a request of new, distinct ids stores all of them and reports their number |
| Featured.RunFromKeepsKeysFresh | routers/featured/featured.py:86-96 | the stored keys are distinct and new, and the count is never below the number stored |
| Featured.RollbackDiscardsEarlierRows | routers/featured/featured.py:92-94 | a later collision rolls back rows flushed earlier in the same request, although they were counted |
| Featured.RepeatedKeyStoresNothing | routers/featured/featured.py:86-94 | an id repeated within one request is counted once and stored never |
| Featured.TableAppend | routers/featured/featured.py:86-96 | committing a fresh batch keeps keys unique and ids increasing |
| Featured.ResponseFor | routers/featured/featured.py:55-66 | a response carries the row's id, product id and time, and the product's name, price, description, main image and average rating; the category name is present only when requested and the category exists, and is then that category's name |
| Featured.Responses | routers/featured/featured.py:38-69 | at most one response per row, only for products that exist |
| Featured.ResponsesRows | routers/featured/featured.py:53-67 | every response shows one of the rows, and every row whose product exists gets a response |
| Featured.ResponsesAppend | routers/featured/featured.py:53-67 | the responses of a concatenation are the concatenated responses |
| Featured.ResponsesAllPresent | routers/featured/featured.py:53-67 | when every product exists, row `i` gives response `i` |
| Featured.ResponsesKeepOrder | routers/featured/featured.py:53-67 | newest-first rows give newest-first responses |
| Featured.BuildProductResponses | routers/featured/featured.py:38-69 | the response loop computes `Responses` |
| Featured.SectionListing | routers/featured/featured.py:100-113 | `total` counts every row; the listed products are newest first, each shows a row of the section, and every row whose product exists is shown |
| Featured.SectionListingComplete | routers/featured/featured.py:100-113 | when every product exists, every row is shown and there are exactly as many responses as rows |
| Featured.FlushEntries | routers/featured/featured.py:84-94 | the add loop's stored rows and count are those of `RunAdds`, with fresh ids and the transaction time |
| Featured.FeaturedSection.AddProducts | routers/featured/featured.py:74-97 | 400 naming the missing ids; otherwise the table grows by exactly the rows `RunAdds` keeps and returns its count |
| Featured.FeaturedSection.RemoveProduct | routers/featured/featured.py:116-128 | 404 when no row holds the product; otherwise the first such row goes |
| Featured.DistinctNeeds | routers/featured/featured.py:338-342 | each need once, and exactly the needs present |
| Featured.CountNeedPositive | routers/featured/featured.py:338-342 | every present need counts at least one row |
| Featured.NeedRows | routers/featured/featured.py:338-347 | one (need, count) row per distinct need |
| Featured.GetNeeds | routers/featured/featured.py:336-349 | the grouped rows ordered by count descending, with `total` equal to their number |
| Featured.NeedRowsSummary | routers/featured/featured.py:338-349 | every need appears in exactly one row, with its positive count |
| Featured.CountNeedFilter | routers/featured/featured.py:355-358 | the count query and the listed rows agree |
| Featured.NeedListing | routers/featured/featured.py:352-371 | `total` counts the need's rows; the listed products are newest first, each shows a row of that need, and every row of the need whose product exists is shown |
| Featured.FlushNeedEntries | routers/featured/featured.py:320-330 | the add loop over (product, need) keys matches `RunAdds` |
| Featured.NeedSection.AddProducts | routers/featured/featured.py:310-333 | 400 naming the missing ids; otherwise exactly the (product, need) rows `RunAdds` keeps, and its count |
| Featured.NeedSection.RemoveProduct | routers/featured/featured.py:374-394 | 404 unless a row matches both product and need; otherwise that row goes |
| Banners.PatchBanner | routers/featured/featured.py:463-466 | only the set display order and active flag change |
| Banners.PatchBannerIdempotent | routers/featured/featured.py:463-466 | a banner update is idempotent; an empty update is the identity |
| Banners.GetBanners | routers/featured/featured.py:428-446 | sorted by display order; every banner is listed as often as it is stored, except that `active_only` drops those whose `active` is not 1; `total` is the number listed |
| Banners.BannerTable.AddBanner | routers/featured/featured.py:399-425 | a failed upload gives 500 and stores nothing; otherwise one banner with the URL, the request's or default order and flag, and the time |
| Banners.BannerTable.UpdateBanner | routers/featured/featured.py:454-478 | 404 for an unknown id; otherwise only that banner changes, by the patch |
| Banners.BannerTable.DeleteBanner | routers/featured/featured.py:481-501 | 404 for an unknown id; otherwise that banner goes |
| Report.Cents | utils/pdf_generator.py:39 | the two decimals are two digits worth `amount % 100` |
| Report.FormatMoney | utils/pdf_generator.py:35-39 | every amount prints with the rupee sign first |
| Report.FormatMoneyThreshold | utils/pdf_generator.py:37-39 | none prints `₹0`; 99 prints `₹99`; 100 prints `₹1.00` |
| Report.FormatMoneyReadsBack | utils/pdf_generator.py:39 | from 100 up, the rupees and two decimals read back as the amount |
| Report.FormatMoneySmall | utils/pdf_generator.py:39 | below 100 the amount prints in whole, without a decimal point |
| Report.CustomerOf | utils/pdf_generator.py:224-238 | a customer entry copies the user's fields, and has address details exactly when a details row exists |
| Report.MergeCustomers | utils/pdf_generator.py:222-238 | the customer dictionary `CustomersOf`: one entry per user under the same key, with details exactly for users that have a details row |
| Report.CustomerEntry | utils/pdf_generator.py:224-238 | one pass builds the user's entry, with the address dictionary when a details row exists |
| Report.MergeProducts | utils/pdf_generator.py:241-248 | the product dictionary `InfosOf`: one entry per product under the same key, with its four fields |
| Report.PresentValues | utils/pdf_generator.py:110-120 | the truthy fields in order; empty exactly when none is truthy |
| Report.AddressPartsEmptyIff | utils/pdf_generator.py:109-123 | no address part is empty; there are none exactly when all five fields are falsy |
| Report.CustomerRows | utils/pdf_generator.py:97-125 | an unknown customer gives one Customer ID row; a known one gives Name, Email, Phone, and Address when some part is present |
| Report.AddressRowNotEmpty | utils/pdf_generator.py:122-123 | an address row never shows an empty address |
| Report.ItemName | utils/pdf_generator.py:149-150 | the product name, or the product id when the product is unknown |
| Report.DetailLines | utils/pdf_generator.py:153-159 | no details line is empty |
| Report.DetailsTextEmptyIff | utils/pdf_generator.py:153-161 | the details cell is empty exactly when there is no selected customization and no customization type |
| Report.OrderTotalAppend | utils/pdf_generator.py:164-165 | the total of a concatenation is the sum of the totals |
| Report.OrderTotalNonNegative | utils/pdf_generator.py:164-165 | non-negative prices and quantities never total below zero |
| Report.ItemRowsSnoc | utils/pdf_generator.py:148-174 | one more item adds exactly its row at the end |
| Report.ItemTable | utils/pdf_generator.py:143-177 | no table for an order without items; otherwise the header, one row per item in order and the total row (items + 2 rows) |
| Report.BuildItemTable | utils/pdf_generator.py:143-177 | the running-total loop builds `ItemTable` |
| Report.CreateOrdersReport | utils/pdf_generator.py:90-201 | one section per order, in the given order |
| Report.SectionOfLocal | utils/pdf_generator.py:90-201 | a section reads the customers only at the order's clerkId and the products only at its items' ids |
| Report.CreateReportFromRecords | utils/pdf_generator.py:208-250 | section `i` is the section of order `i` over the merged dictionaries; customer rows beyond the bare id exactly for orders whose user exists |
| Orders.UserOrders | routers/orders/orders.py:121-127 | exactly the user's orders, sorted by creation time |
| Orders.PageSorted | routers/orders/orders.py:127-129 | a window of a sorted list is sorted |
| Orders.OrdersByUser | routers/orders/orders.py:113-132 | the `OFFSET`/`LIMIT` window of all the user's orders in creation order: its exact length, element `i` is the user's order `offset + i`, and so all of them are the user's and sorted |
| Orders.AllOrders | routers/orders/orders.py:195-220 | `total` counts every order whatever the window; the page is the `OFFSET`/`LIMIT` window of all orders sorted by creation time: its exact length, and element `i` is sorted order `offset + i` |
| Orders.OrderIndex | routers/orders/orders.py:140-145 | the first order with the code, or none |
| Orders.GetOrderById | routers/orders/orders.py:134-193 | 404 for an unknown order before any user lookup, then 404 for a missing user; otherwise the order and its items as stored, the user's full name, and empty address fields without details |
| Orders.SelectOrders | routers/orders/orders.py:235-245 | a permutation of the orders created at or after the date, newest first |
| Orders.ProductIdsInIff | routers/orders/orders.py:266-269 | a product id is collected exactly when some item of some order names it |
| Orders.CollectProductIds | routers/orders/orders.py:266-269 | the nested loop collects `ProductIdsIn(orders)` |
| Orders.NarrowedSection | routers/orders/orders.py:250-275 | lookups by keys that hold the order's clerkId and item product ids build the same section as the whole tables |
| Orders.NarrowedSections | routers/orders/orders.py:250-275 | the lookups by the selected orders' clerkIds and collected product ids build every selected section as the whole tables would |
| Orders.SectionHeader | routers/orders/orders.py:223-278 | a section carries its order's code and time, and customer rows exactly when the user exists |
| Orders.SelectedSections | routers/orders/orders.py:250-278 | the narrowed lookups and the report give, for each selected order, its section over the whole tables |
| Orders.GenerateOrdersReport | routers/orders/orders.py:223-278 | 404 exactly when no order qualifies; otherwise one section per selected order, newest first, each equal to the section over the whole users, details and products tables |
| Orders.GenerateSingleOrderReport | routers/orders/orders.py:317-367 | 404 for an unknown order; a missing user is no error, and the section falls back to the bare customer id; the one section equals the section over the whole tables |
| Orders.ItemRowOf | routers/orders/orders.py:71-100 | an image or logo without data fails; otherwise the line copies the request, with the kind as its type, and stores the text as sent or the upload URL of an image or logo |
| Orders.ItemRows | routers/orders/orders.py:71-100 | lines for all items exactly when every item has one, in order; the only failure is missing image data |
| Orders.BuildItems | routers/orders/orders.py:71-100 | the item loop computes `ItemRows` |
| Orders.CheckoutResult | routers/orders/orders.py:43-100 | placed exactly when every product is known, the code is free and every image or logo has data; a placed order carries the drawn code, the customer, total, status `placed` and the item lines |
| Orders.FirstCheckoutCode | routers/orders/orders.py:32-41 | the first checkout ever issues `PRNTDT-AAA00002` and leaves the counter at 2 |
| Orders.FailedCheckoutBurnsNumber | routers/orders/orders.py:38-58 | every checkout advances the counter, failing ones included |
| Orders.MissingProductsNamedInFull | routers/orders/orders.py:44-58 | the missing-products 400 happens exactly when a requested product is unknown, and names all of them |
| Orders.MissingProductsRefused | routers/orders/orders.py:44-58 | whatever code was drawn, the checks refuse a request with unknown products and name every one of them |
| Orders.NoDuplicateBelowWrap | routers/orders/orders.py:38-68 | below the wrap-around, a drawn code is never taken by a stored order |
| Orders.ConsecutiveCodesDiffer | routers/orders/orders.py:38-41 | consecutive checkouts draw different codes below the wrap-around |
| Orders.IssuedBelowAdvance | routers/orders/orders.py:38-68 | after a checkout, every stored code still comes from below the counter |
| Orders.Attempt | routers/orders/orders.py:43-102 | the checks after the draw compute `CheckoutResult` |
| Orders.OrderStore.PlaceOrder | routers/orders/orders.py:23-111 | the counter advances, created at 1 when missing, whatever happens; the result is `Checkout`'s; only a successful order is stored |

## Left out

- Database mechanics are not modelled: sessions, `refresh`, lazy loading and connection failures. Those failures surface as the 500 catch-all handlers of the banner routes, which are not modelled either.
- Foreign-key enforcement is modelled only for users. Deleting a user also removes the user's details row, as the cascade on `User.details` does. Deleting a product or a category changes only its own table. The database's category cascade and the foreign keys held by reviews and order items are not modelled.
- The order counter is modelled sequentially. The source takes no lock, and concurrent checkouts are a property of the database.
- E-mails to the owner and the customer after a checkout are left out. So is the S3 storage behind uploads: an upload is a function parameter returning the URL.
- Objects already uploaded by a checkout that later fails are not rolled back.
- The product image route (routers/products/products.py:75-108) is left out. It calls the asynchronous upload without awaiting it, so the value it stores depends on library behaviour.
- Report rendering is left out: reportlab layout, `fetch_image`, date formatting, the report title, file names and base64 encoding.
- The recent-orders report (routers/orders/orders.py:298-314) is left out. It only fixes `from_date` from the clock and calls the modelled report.
- `get_all_coupons`, `get_coupon`, `get_products` and `get_product` are plain reads that are not modelled.
- Query validation by the web framework is a precondition: `limit` in 1..100, `offset` ≥ 0, and the `sort` pattern. Its 422 responses are not modelled. Negative `skip`/`limit` in `filter_products` are not modelled.
- Products.FilterProducts: the rating filter and the rating sorts are not modelled, and the price bounds are integers rather than floats.
- Reviews.ReviewTable.CreateReview: the average is an exact rational, not a 64-bit float.
- Report.FormatMoney: rendering is exact decimal. Python goes through a binary float for `amount / 100`, which can differ for amounts beyond 2⁵³.
- Sorting.SortBy: SQL leaves the order of equal keys unspecified. The model keeps insertion order.
- Identity sequences advance only as far as the model says:
  - Categories, coupons and banners take the next id only when a row is stored. A database sequence also consumes a value on an insert that fails.
  - The featured tables advance the id once per requested key, rolled-back rows included, so they do have gaps.
- The `Coupon`, `Banner` and featured-table models are not declared in any model file of the repository.
- No unique constraint is assumed on coupon codes. Only the routes' own checks keep codes unique, so an update to the empty code can store a duplicate (`Coupons.EmptyCodeSlipsThrough`).
- For the other undeclared models, the model assumes:
  - unique (product) keys per featured section;
  - unique (product, need) keys for shop-by-need;
  - an `active` default of 1.
- `main.py` mounts the auth, users, products, categories, reviews and orders routers. The featured and coupons routers are not mounted. The model treats their routes as reachable.
- Explicit nulls sent for non-nullable columns in partial updates are not modelled.
- Common.AsciiUpper: upper-casing covers ASCII only. Python's Unicode case mapping is not modelled.
- Selected customizations are stored as (key, rendered value) pairs. Nested values are rendered by Python's `str`, which is not modelled.
- In `create_order_pdf_from_db_data` the input dictionaries already hold one value per key. Python's last-wins dictionary building is therefore not modelled.
- Orders.OrderStore.PlaceOrder: creating the missing counter row and drawing from it are one step. Both commits precede every check, so the model does the same.
