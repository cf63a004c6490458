# Mixin adapter core, modelled in Dafny

The Mixin adapter connects a host commerce platform to the Mixin REST API. Its core is
modelled here:

- **The composite-id codec** (`EncodedProduct`). It folds a (product id, variant id)
  pair into one code with the Cantor pairing function and unfolds it again; variant 0
  means a bare product.
- **The order-item URL parser** (`ProductUrlParser`). It reads the product id from a
  `/product/<digits>` segment and an optional variant id from a `vid=` parameter.
- **The converters** between the vendor's records (Mx*) and the host's records (Web*)
  (`MixinConverters`). These cover order statuses, payment methods, slugs, price
  defaulting, category parents and order lines.
- **The request logic of `WebContext`**, in five modules:
  - `FieldMask` and `Requests`: the outbound field mask and the classification of a
    response into a decoded value or one of the adapter's exceptions.
  - `WebContext`: the paging state (`_currentPage`, `_pageSize`) as a class, the
    pagination loop over a script of server pages, the search methods and the
    product/order filters.
  - `Orders`: the variant resolver and the order fetch that writes each order line's
    product code in place.
  - `Updates`: the excluded-field list that the update methods complete, swap and
    mask before sending.

The network is replaced by inputs. A request's answer is a `Response` (status code, body
text, decoded value). A listing is a sequence of `Page`s (status, results, whether
`next` is set). A product's variant listing is a function from product id to what that
request yields. Each request method also returns what it asked for or sent (page
parameters, the masked body), so that those can be stated.

Shared pieces are `Wrappers` (Option/Result), `Text` (ASCII lower-casing, substring
search, split, trim, decimal digits) and `Models` (the record shapes). Order lines are
objects (`Models.MxOrderItem`) because the order fetch assigns their product id in
place. The excluded-field list is an object (`Updates.FieldList`) because the update
methods add to and remove from the caller's list.

Where the system's design description and the code disagree, the model follows the code:

- The description resets the paging cursor to page 1 at the start and at the end of
  every listing. The code resets it only at the end. The first request goes out with
  whatever page parameters it carries: none in the category and customer searches,
  the normalised page in `SearchProducts` (`WebContext.WebContext.GetAllWithPagination`,
  `WebContext.WebContext.Search`). The later requests count on from the page the search
  stored, so a category search for page 5 asks for no page (the server's first) and
  then for page 6: pages 2 to 5 are never read.
- The description clamps an out-of-range page size. The code replaces any size outside
  [1, 100] by 100, so 0 becomes 100, not 1 (`WebContext.NormalizePageSize`).
- The description says the variant resolver never raises. The code dereferences the
  line's name and the variant listing, and a failed listing request throws
  (`Orders.ResolveVariantId`).

## Model

| member | source | states |
|---|---|---|
| `EncodedProduct.TriFormula` | MixinApi/Models/EncodedProduct.cs:28 | the triangular number `Tri(n)` used throughout equals n(n+1)/2 |
| `EncodedProduct.EncodeOnDiagonal` | MixinApi/Models/EncodedProduct.cs:26-29 | the code of (a, b) is `Tri(a+b) + b`, so it lies on diagonal a+b: at least `Tri(a+b)` and below `Tri(a+b+1)` |
| `EncodedProduct.Isqrt` | MixinApi/Models/EncodedProduct.cs:33 | the exact floor square root that replaces the floored `Math.Sqrt`: r² ≤ n < (r+1)² |
| `EncodedProduct.Decode` | MixinApi/Models/EncodedProduct.cs:31-38 | decoding any non-negative code gives two non-negative ids |
| `EncodedProduct.DiagonalBand` | MixinApi/Models/EncodedProduct.cs:33-34 | the diagonal w computed from z is the one with `Tri(w) ≤ z < Tri(w+1)` |
| `EncodedProduct.DecodeOnDiagonal` | MixinApi/Models/EncodedProduct.cs:34-36 | on diagonal w the variant id is `z - Tri(w)` and the product id is `w` minus that |
| `EncodedProduct.DecodeEncode` | MixinApi/Models/EncodedProduct.cs:26-38 | round trip: `Decode(Encode(a, b)) == (a, b)` for all a, b ≥ 0 |
| `EncodedProduct.EncodeDecode` | MixinApi/Models/EncodedProduct.cs:26-38 | round trip: encoding the decoded pair of any z ≥ 0 gives z back |
| `EncodedProduct.EncodeInjective` | MixinApi/Models/EncodedProduct.cs:28 | two non-negative pairs with the same code are equal |
| `EncodedProduct.BareProductCode` | MixinApi/Models/EncodedProduct.cs:19 | a bare product's code is `Tri(a)`, i.e. a(a+1)/2 |
| `EncodedProduct.ZeroCode` | MixinApi/Models/EncodedProduct.cs:31-37 | `Decode(0) == (0, 0)` |
| `EncodedProduct.BareProductCodeIncreasing` | MixinApi/Models/EncodedProduct.cs:28 | bare-product codes are strictly increasing in the product id |
| `EncodedProduct.EncodedId` | MixinApi/Models/EncodedProduct.cs:19 | a product's code decodes back to (its id, 0) |
| `EncodedProduct.EncodedVariants` | MixinApi/Models/EncodedProduct.cs:22-23 | a null variant list gives no pairs; otherwise each variant, in order, is paired with `Encode(product id, variant id)` |
| `EncodedProduct.EncodedVariantsDecode` | MixinApi/Models/EncodedProduct.cs:22-23 | each variant's code decodes back to (product id, variant id) |
| `Text.Find` | MixinApi/Utilities/ProductUrlParser.cs:31 | `IndexOf`: the least index at or after the start where the pattern occurs, or none when it occurs nowhere after it |
| `Text.Split` | MixinApi/Contexts/WebContext.cs:821-823 | `Split` with empty parts kept: at least one part, two or more exactly when the separator occurs, no part contains it, and joining the parts with it gives the input back |
| `Text.Trim` | MixinApi/Contexts/WebContext.cs:824 | the result neither starts nor ends with white space, is a contiguous part of the input, and every character cut before it and after it is white space |
| `Text.TrimPadded` | MixinApi/Contexts/WebContext.cs:824 | trimming text that neither starts nor ends with white space, padded with white space on either side, gives that text back |
| `ProductUrlParser.FindProductMatch` | MixinApi/Utilities/ProductUrlParser.cs:12-23 | the regular expression's match is the leftmost index where `/product/` (any case) is followed by a digit, or none when there is no such index |
| `ProductUrlParser.ProductDigits` | MixinApi/Utilities/ProductUrlParser.cs:13 | the greedy `\d+`: the non-empty digit run that starts right after `/product/`, followed by the end of the URL or a non-digit |
| `ProductUrlParser.TryParseInt32` | MixinApi/Utilities/ProductUrlParser.cs:35 | `int.TryParse` succeeds exactly when the trimmed text is an optional sign and one or more digits writing a value in the 32-bit range, and then gives that value |
| `ProductUrlParser.UpToAmpersand` | MixinApi/Utilities/ProductUrlParser.cs:35 | `Split('&')[0]`: the longest prefix without '&', ended by '&' or by the end of the text |
| `ProductUrlParser.Parse` | MixinApi/Utilities/ProductUrlParser.cs:17-40 | a null, empty or blank URL fails exactly with the blank-URL error; on success the product id is in [0, 2³¹-1] and the variant id is what follows the first `vid=` |
| `ProductUrlParser.ParseProductId` | MixinApi/Utilities/ProductUrlParser.cs:23-27 | the product id is the value of the digit run after the leftmost `/product/` match |
| `ProductUrlParser.InvalidFormatIffNoMatch` | MixinApi/Utilities/ProductUrlParser.cs:23-25 | a non-blank URL fails with the invalid-format error exactly when no `/product/<digit>` occurs in it |
| `ProductUrlParser.ParseBareProductUrl` | MixinApi/Utilities/ProductUrlParser.cs:17-39 | round trip: `Parse("/product/" + n) == (n, null)` for n in the 32-bit range |
| `ProductUrlParser.ParseVariantProductUrl` | MixinApi/Utilities/ProductUrlParser.cs:17-39 | round trip: `Parse("/product/" + n + "?vid=" + m) == (n, m)` for n, m in the 32-bit range |
| `MixinConverters.MapOrderStatus` | MixinApi/Utilities/MixinConverters.cs:318-338 | each of the five words, in any letter case, gives its status and is the only input that does; null or empty gives Other |
| `MixinConverters.MapWebOrderStatusToJson` | MixinApi/Utilities/MixinConverters.cs:340-357 | every status maps to one of the five words |
| `MixinConverters.OrderStatusRoundTrip` | MixinApi/Utilities/MixinConverters.cs:318-357 | status → word → status is the identity on the five named statuses; Other comes back as Pending |
| `MixinConverters.OrderStatusWordRoundTrip` | MixinApi/Utilities/MixinConverters.cs:323-353 | word → status → word gives the lower-cased word for any of the five words in any case |
| `MixinConverters.MapPaymentMethod` | MixinApi/Utilities/MixinConverters.cs:299-316 | id 1/2/3 exactly for online/cash/card in any case, otherwise 0 (null included); title and description echo the input |
| `MixinConverters.MapWebPaymentMethodToJson` | MixinApi/Utilities/MixinConverters.cs:358-374 | always one of the three words; "online" for null and for any id other than 2 and 3 |
| `MixinConverters.PaymentMethodIdRoundTrip` | MixinApi/Utilities/MixinConverters.cs:299-374 | id → word → id is the identity on ids 1–3 |
| `MixinConverters.PaymentWordRoundTrip` | MixinApi/Utilities/MixinConverters.cs:299-374 | word → id → word gives the lower-cased word for the three words in any case |
| `MixinConverters.GenerateSlug` | MixinApi/Utilities/MixinConverters.cs:377-384 | null gives ""; otherwise the same length, each ' ' and '_' replaced by '-' and every other character lower-cased, with no space, underscore or upper-case letter left |
| `MixinConverters.GenerateSlugIdempotent` | MixinApi/Utilities/MixinConverters.cs:377-384 | slugging a slug changes nothing |
| `MixinConverters.ToWebProduct` | MixinApi/Utilities/MixinConverters.cs:15-59 | when only one of price and compare-at price is present both prices take it; when neither is present both are 0; stock is 10 exactly for "unlimited"; the name, slug, category and type defaults |
| `MixinConverters.MxVariantToMcProduct` | MixinApi/Utilities/MixinConverters.cs:60-75 | regular price is compare-at, else price, else 0; sale price, stock and attributes are copied in order |
| `MixinConverters.MainCategoryOf` | MixinApi/Utilities/MixinConverters.cs:84-88 | the first category's id, or 1 when it is missing or 0; never 0 |
| `MixinConverters.ToMxProduct` | MixinApi/Utilities/MixinConverters.cs:77-107 | fails exactly when the sale price is null (the cast); compare-at is null exactly when the regular price is 0; stock type is "out_of_stock" exactly when the quantity is at most 0, else "limited" |
| `MixinConverters.ProductRoundTrip` | MixinApi/Utilities/MixinConverters.cs:15-107 | vendor → host → vendor keeps id, both prices, main category and variant flag when both prices are present and non-zero |
| `MixinConverters.StockLostInRoundTrip` | MixinApi/Utilities/MixinConverters.cs:15-107 | host → vendor → host always ends with stock 0, since "limited" is not "unlimited" |
| `MixinConverters.NormalParent` | MixinApi/Utilities/MixinConverters.cs:116 | parent 0 becomes null; any other parent is kept |
| `MixinConverters.ToWebCategory` | MixinApi/Utilities/MixinConverters.cs:110-120 | id and name are copied, and the parent is normalised |
| `MixinConverters.ToMxCategory` | MixinApi/Utilities/MixinConverters.cs:122-131 | id and name are copied, the parent is normalised, and the category is available |
| `MixinConverters.CategoryRoundTrip` | MixinApi/Utilities/MixinConverters.cs:110-131 | each direction of conversion undoes the other on categories whose parent is not 0 (and that are available) |
| `MixinConverters.ToWebOrderDetail` | MixinApi/Utilities/MixinConverters.cs:204-214 | unit price is compare-at or price, and unit price minus discount is the price |
| `MixinConverters.ToWebOrder` | MixinApi/Utilities/MixinConverters.cs:172-216 | payment method and status go through their tables; one line per item, in order, none for a null list |
| `FieldMask.GetFieldNamesFromEnum` | MixinApi/Contexts/WebContext.cs:154-191 | the ten supported categories name one or two distinct keys each; any other value fails with itself |
| `FieldMask.PriceAndParentOwners` | MixinApi/Contexts/WebContext.cs:154-191 | "price" is masked only by the two price categories, "compare_at_price" only by ProductPrice, "parent" only by Sku |
| `FieldMask.FirstUnsupported` | MixinApi/Contexts/WebContext.cs:60-62 | the first unsupported category in the list, all before it supported |
| `FieldMask.MaskKeysMembership` | MixinApi/Contexts/WebContext.cs:60-69 | a key is masked exactly when some listed category names it |
| `FieldMask.Without` | MixinApi/Contexts/WebContext.cs:63-69 | a member survives the mask exactly when its key is not masked |
| `FieldMask.WithoutAppend` | MixinApi/Contexts/WebContext.cs:60-69 | masking distributes over concatenation, so surviving members keep their order |
| `FieldMask.WithoutWithout` | MixinApi/Contexts/WebContext.cs:60-69 | masking with one key set and then another is masking with their union |
| `FieldMask.WithoutAbsent` | MixinApi/Contexts/WebContext.cs:65-68 | masking keys the object does not contain changes nothing |
| `FieldMask.MaskTwice` | MixinApi/Contexts/WebContext.cs:56-73 | masking twice equals masking once |
| `FieldMask.LookupWithout` | MixinApi/Contexts/WebContext.cs:56-73 | a key that is not masked keeps its value |
| `FieldMask.WithoutMissingKey` | MixinApi/Contexts/WebContext.cs:65-68 | removing a key that is not present changes nothing |
| `FieldMask.RemoveKeys` | MixinApi/Contexts/WebContext.cs:63-69 | the inner loop removes exactly the category's keys |
| `FieldMask.ApplyMask` | MixinApi/Contexts/WebContext.cs:56-73 | the loop fails exactly when a category is unsupported, and then with the first such category; otherwise it yields the object without every masked key |
| `Requests.Classify` | MixinApi/Contexts/WebContext.cs:84-140 | each outcome kind, stated as an if-and-only-if over the status and the body: 200/201 decode, 404, 401, 403 and 0 as listed, 400 and 500 by the first error code found in the fixed order, any other status a generic error carrying it |
| `Requests.InvalidIdTakesPriority` | MixinApi/Contexts/WebContext.cs:93-113 | a 400 body naming both an invalid id and an existing term is a missing record |
| `Requests.Outcome` | MixinApi/Contexts/WebContext.cs:84-140 | success exactly for 200/201, with the decoded body; otherwise the classified exception |
| `Requests.MaskedBody` | MixinApi/Contexts/WebContext.cs:52-76 | no body, a null list or an empty list leaves the body alone; otherwise it fails exactly on an unsupported category (the first), else every masked key is removed |
| `Requests.Sending` | MixinApi/Contexts/WebContext.cs:52-88 | an unsupported category aborts before sending; otherwise the masked body is sent and the response's outcome is the answer |
| `Requests.MaskedBodyIdempotent` | MixinApi/Contexts/WebContext.cs:56-73 | masking what was sent again with the same list changes nothing |
| `Requests.SendRequest` | MixinApi/Contexts/WebContext.cs:48-152 | the answer and the body sent are exactly what `Sending` specifies |
| `WebContext.CollectedStep` | MixinApi/Contexts/WebContext.cs:196-218 | from page i on: a rejected page ends the listing without being kept, a last page is kept and ends it, any other page is kept and reading goes on |
| `WebContext.CollectedUpToFirstStop` | MixinApi/Contexts/WebContext.cs:196-218 | the listing is every page before the first stopping page, concatenated in order, plus that page when it is kept |
| `WebContext.CollectedIgnoresLaterPages` | MixinApi/Contexts/WebContext.cs:196-218 | pages after the stopping page make no difference |
| `WebContext.Requested` | MixinApi/Contexts/WebContext.cs:230-235 | the first execution uses the request as given, and the j-th later one asks for the start page plus j with the page size, keeping the request's fixed parameters |
| `WebContext.Request.constructor` | MixinApi/Contexts/WebContext.cs:550-556 | a request carries the fixed parameters it is built with and no page parameters |
| `WebContext.NormalizePage` | MixinApi/Contexts/WebContext.cs:354 | pages below 1 become 1, others are kept |
| `WebContext.NormalizePageSize` | MixinApi/Contexts/WebContext.cs:355 | sizes in [1, 100] are kept and any other becomes 100, not a clamp |
| `WebContext.WebContext.constructor` | MixinApi/Contexts/WebContext.cs:24-25 | the paging state starts at page 1 with size 100 |
| `WebContext.WebContext.ResetPage` | MixinApi/Contexts/WebContext.cs:223-228 | back to page 1, the size unchanged, and the request asks for page 1 with that size |
| `WebContext.WebContext.NextPage` | MixinApi/Contexts/WebContext.cs:230-235 | the page goes up by one, the size unchanged, and the request asks for the new page |
| `WebContext.WebContext.ReadPage` | MixinApi/Contexts/WebContext.cs:198-217 | one turn of the loop keeps the collected-results invariant and either stops at the first stopping page with the whole listing, or advances to the next page |
| `WebContext.WebContext.GetAllWithPagination` | MixinApi/Contexts/WebContext.cs:193-221 | the results are the listing as `Collected` defines it; the executions asked for the pages in order up to the first stopping page; on return the page is 1, the size is unchanged and the request asks for page 1 |
| `WebContext.WebContext.ReadListing` | MixinApi/Contexts/WebContext.cs:550-563 | a listing read with a fresh request built with the fixed parameters: the results are the listing, the first execution names no page and the later ones count on from the stored page, and the page ends at 1 |
| `WebContext.WebContext.Search` | MixinApi/Contexts/WebContext.cs:569-588 | paging state normalised before the null check, so a null search leaves it set, asks for nothing and returns nothing; otherwise every execution carries `search`, the first names no page, the j-th later one asks for the normalised page plus j with the normalised size, and the page is reset to 1 |
| `WebContext.WebContext.SearchCategories` | MixinApi/Contexts/WebContext.cs:544-563 | as the search (the same requests, `search` on each), with each category of the listing converted in order |
| `WebContext.WebContext.GetCustomerIdAndNameBySearch` | MixinApi/Contexts/WebContext.cs:606-631 | as the search (the same requests, `search` on each), giving each customer's id and display name in order |
| `WebContext.WebContext.SearchProducts` | MixinApi/Contexts/WebContext.cs:347-376 | a null search returns nothing and leaves the state alone; otherwise the paging state, the pages asked for from the normalised page, and the type and name filters over the listing |
| `WebContext.WebContext.GetOrdersByFilters` | MixinApi/Contexts/WebContext.cs:675-722 | a null or empty status list returns nothing without a request; otherwise every execution carries the status and date parameters, the first names no page and the j-th later one asks for the old page plus j with the old size, and the result is exactly the ids of the listed orders the filter selects, in order |
| `WebContext.FilterQuery` | MixinApi/Contexts/WebContext.cs:683-703 | `status` (the vendor words joined with ",") comes first exactly when Other is not requested; a start or end date is sent exactly when given; no `search` |
| `WebContext.WebContext.GetOrdersBySearch` | MixinApi/Contexts/WebContext.cs:724-751 | the paging state is normalised and never reset, one page is asked for, and the result is the orders to fetch |
| `WebContext.DisplayName` | MixinApi/Contexts/WebContext.cs:629 | first name, one space, last name, a null name as empty |
| `WebContext.TypeFilter` | MixinApi/Contexts/WebContext.cs:362-370 | keeps exactly the products of the requested kind; every product for any other kind |
| `WebContext.TypeFilterAppend` | MixinApi/Contexts/WebContext.cs:362-370 | the filter distributes over concatenation, so it keeps the listing's order and repetitions |
| `WebContext.TypeFilterOne` | MixinApi/Contexts/WebContext.cs:362-370 | a single product is kept exactly when it is of the requested kind |
| `WebContext.SearchHit` | MixinApi/Contexts/WebContext.cs:371-375 | a hit's id is the product's bare code, which decodes back to (product id, 0) |
| `WebContext.Hits` | MixinApi/Contexts/WebContext.cs:371-375 | exactly the products whose name is not null and contains the term, as hits |
| `WebContext.HitsAppend` | MixinApi/Contexts/WebContext.cs:371-375 | the hits distribute over concatenation, so they keep the listing's order and repetitions |
| `WebContext.HitsOne` | MixinApi/Contexts/WebContext.cs:371-375 | a single product gives its hit exactly when its name is not null and contains the term |
| `WebContext.SearchHits` | MixinApi/Contexts/WebContext.cs:371-375 | fails with a null reference exactly when some product has a null name; otherwise exactly the products whose name contains the term, as hits |
| `WebContext.SearchHitsAppend` | MixinApi/Contexts/WebContext.cs:371-375 | searching a concatenation fails when either part has a null name, and otherwise gives the hits of each part one after the other |
| `WebContext.Criteria` | MixinApi/Contexts/WebContext.cs:685-694 | Other in the list admits any status; otherwise the status words are the listed statuses mapped in order |
| `WebContext.SelectedIds` | MixinApi/Contexts/WebContext.cs:711-719 | an id is returned exactly when some listed order with it is selected |
| `WebContext.SelectedIdsAppend` | MixinApi/Contexts/WebContext.cs:711-719 | the selection distributes over concatenation, so ids come in listing order, repetitions kept |
| `WebContext.SelectedIdsOne` | MixinApi/Contexts/WebContext.cs:711-719 | a single order gives its id exactly when it is selected |
| `WebContext.SelectOrders` | MixinApi/Contexts/WebContext.cs:711-719 | the loop over the listing returns exactly the selected ids, in order |
| `WebContext.MissingDateSelectsNothing` | MixinApi/Contexts/WebContext.cs:715 | with a null start or end date the lifted comparison is false, so nothing is selected |
| `WebContext.StatusMatchIsCaseSensitive` | MixinApi/Contexts/WebContext.cs:715 | an order whose raw status is "Processing" maps to Pending but is not selected by a Pending filter |
| `WebContext.OtherSelectsAnyStatus` | MixinApi/Contexts/WebContext.cs:715 | with Other in the list, any order in the date range that is not excluded is selected |
| `WebContext.OrdersToFetch` | MixinApi/Contexts/WebContext.cs:741-751 | a failed or null listing fails; otherwise the listing's kept ids (`KeptIds`), i.e. exactly the ids of listed orders that are not excluded |
| `WebContext.KeptIds` | MixinApi/Contexts/WebContext.cs:746-749 | exactly the listed ids not in the exclusion list |
| `WebContext.KeptIdsAppend` | MixinApi/Contexts/WebContext.cs:746-749 | the exclusion distributes over concatenation, so ids keep the listing's order and repetitions |
| `WebContext.KeptIdsOne` | MixinApi/Contexts/WebContext.cs:746-749 | a single order gives its id exactly when the id is not excluded |
| `WebContext.FilterByStatus` | MixinApi/Contexts/WebContext.cs:766-769 | no filter for a null or empty list or one with Other; otherwise exactly the orders whose status is listed |
| `WebContext.StatusIn` | MixinApi/Contexts/WebContext.cs:768 | exactly the orders whose status is in the list |
| `WebContext.StatusInAppend` | MixinApi/Contexts/WebContext.cs:768 | the status filter distributes over concatenation, so it keeps the order and repetitions |
| `WebContext.StatusInOne` | MixinApi/Contexts/WebContext.cs:768 | a single order is kept exactly when its status is in the list |
| `WebContext.FilterByStatusAppend` | MixinApi/Contexts/WebContext.cs:766-769 | the final status filter distributes over concatenation |
| `WebContext.GetMaxProductId` | MixinApi/Contexts/WebContext.cs:403-412 | a failed or null listing fails, an empty one fails as `Max` does; otherwise the largest bare code of the listed products |
| `WebContext.MaxCodeIsCodeOfMaxId` | MixinApi/Contexts/WebContext.cs:403-412 | the largest code is the code of the largest id |
| `Orders.AttributeTokens` | MixinApi/Contexts/WebContext.cs:819-824 | the text between the first " - " and the next is cut at every "/" (the pieces join back to it); one token per piece, in order, each the piece trimmed |
| `Orders.AttributeTokensExample` | MixinApi/Contexts/WebContext.cs:819-824 | the title "Shirt - Blue / 30" names the values "Blue" and "30" |
| `Orders.FirstMatch` | MixinApi/Contexts/WebContext.cs:826-833 | none exactly when no variant has every token among its attribute values; otherwise the first such variant's id |
| `Orders.ResolveVariantId` | MixinApi/Contexts/WebContext.cs:808-834 | the failed listing, a null name, a name without " - " and a null list as the source handles them; otherwise the first variant whose attribute values include every token |
| `Orders.ItemCode` | MixinApi/Contexts/WebContext.cs:782-802 | a line's code: `Encode(p, 0)` without a vid, `Encode(p, resolved)` with a vid and a match, `Encode(p, vid)` with a vid and no match; URL and resolver errors propagate |
| `Orders.ItemCodeDecodes` | MixinApi/Contexts/WebContext.cs:782-802 | the code decodes back to the URL's product id and the chosen variant id |
| `Orders.NoVariantNoLookup` | MixinApi/Contexts/WebContext.cs:797-801 | without a vid the resolver's answer makes no difference |
| `Orders.LineConsults` | MixinApi/Contexts/WebContext.cs:786-791 | the resolver is consulted (once) exactly when the URL parses with a vid |
| `Orders.AssignLine` | MixinApi/Contexts/WebContext.cs:780-803 | one line gets its code in place, or keeps its product id when the code fails |
| `Orders.LineCodes` | MixinApi/Contexts/WebContext.cs:780-803 | one code per line |
| `Orders.LineCodesAt` | MixinApi/Contexts/WebContext.cs:780-803 | line k's code is the code of line k |
| `Orders.SameLineSameCode` | MixinApi/Contexts/WebContext.cs:780-803 | the same line object listed twice gets the same code |
| `Orders.AssignProductIds` | MixinApi/Contexts/WebContext.cs:780-803 | on success every line carries its code and the resolver was consulted for exactly the lines with a vid; on failure the error is the first failing line's |
| `Orders.GetOrderById` | MixinApi/Contexts/WebContext.cs:774-806 | fetch errors and null orders/item lists fail; otherwise it succeeds exactly when every line's code does, and then the converted order's lines carry those codes in order |
| `Updates.RemoveFirst` | MixinApi/Contexts/WebContext.cs:282 | `List.Remove`: the first occurrence is dropped; a list without the value is unchanged |
| `Updates.RemoveFirstCounts` | MixinApi/Contexts/WebContext.cs:282 | removal takes exactly one occurrence away when there is one |
| `Updates.FieldList.Add` | MixinApi/Contexts/WebContext.cs:512 | the category is appended |
| `Updates.FieldList.Include` | MixinApi/Contexts/WebContext.cs:263-270 | the category is appended only when missing |
| `Updates.FieldList.Remove` | MixinApi/Contexts/WebContext.cs:282 | the first occurrence is removed, and the result says whether there was one |
| `Updates.OrNew` | MixinApi/Contexts/WebContext.cs:259-262 | the caller's list, or a fresh empty list for null |
| `Updates.AddMissing` | MixinApi/Contexts/WebContext.cs:263-270 | a listed category leaves the list unchanged; a missing one is appended at the end |
| `Updates.WithRequiredCounts` | MixinApi/Contexts/WebContext.cs:259-270 | after the setup the caller's list is a prefix, every required category is present, one added is present exactly once, and no other count changes |
| `Updates.DiscountSwap` | MixinApi/Contexts/WebContext.cs:279-283 | with ProductDiscount listed, the price becomes the compare-at price and one ProductDiscount is removed; otherwise nothing changes |
| `Updates.SwapDiscount` | MixinApi/Contexts/WebContext.cs:279-283 | the list and the product are changed exactly as `DiscountSwap` says |
| `Updates.PreparedProduct` | MixinApi/Contexts/WebContext.cs:275-283 | the conversion fails with an InvalidOperationException (a null nullable value cast) exactly when the sale price is null; otherwise it is swapped |
| `Updates.ProductJson` | MixinApi/Models/MxProduct.cs:14-48 | the serialised product: twelve members, with price, compare-at price and availability at their places |
| `Updates.CategoryJson` | MixinApi/Models/MxCategory.cs:12-22 | the serialised category: four members, the parent third |
| `Updates.MaskedKeyAbsent` | MixinApi/Contexts/WebContext.cs:60-69 | a key named by a listed category is not in what is sent |
| `Updates.DiscountSwapSendsCompareAtPrice` | MixinApi/Contexts/WebContext.cs:279-285 | with ProductDiscount listed once and ProductPrice not listed, "price" and "compare_at_price" both go out with the compare-at price |
| `Updates.ProductUpdateHidesAvailability` | MixinApi/Contexts/WebContext.cs:259-285 | a product update never sends "available" |
| `Updates.VariantUpdateHidesName` | MixinApi/Contexts/WebContext.cs:447-473 | a variant update never sends "name" |
| `Updates.CategoryUpdateHidesParent` | MixinApi/Contexts/WebContext.cs:510-515 | a category update never sends "parent" |
| `Updates.UpdateOutcome` | MixinApi/Contexts/WebContext.cs:279-285 | a failed preparation sends nothing; otherwise an unsupported category aborts, or the product goes out without its masked keys and the response is classified |
| `Updates.UpdatedCode` | MixinApi/Contexts/WebContext.cs:285-287 | errors propagate, a null answer is a null reference, otherwise a code that decodes back to (answer id, 0) |
| `Updates.UpdateProduct` | MixinApi/Contexts/WebContext.cs:257-288 | the target is the decoded product id; the caller's list ends completed and swapped; the result and body are those of sending the prepared product |
| `Updates.UpdateVariationProduct` | MixinApi/Contexts/WebContext.cs:445-474 | the target is the decoded (product, variant) pair; the list also gets ProductName; what is sent follows from the prepared variant, and the answer itself is dropped |
| `Updates.UpdateCategory` | MixinApi/Contexts/WebContext.cs:510-518 | a null list is dereferenced; otherwise Sku is appended to the caller's list and the converted category is sent masked by it, the answer's id returned |

## Left out

- Network and serialisation: the REST client, headers, API key, byte decoding and
  `ValidateConnection` are not modelled; responses and listing pages are inputs. JSON
  serialisation is a fixed member order (`Updates.ProductJson`), and deserialisation
  is the response's decoded value.
- Serialised fields of records that the core does not read: the variant's
  `show_price`, `is_default`, `length` and `width`. The product's images are always the
  empty list that `ToMxProduct` builds.
- `Updates.ProductJson`: follows the properties `MxProduct.cs` declares, twelve members
  and no brand. `ToMxProduct` (MixinConverters.cs:97) assigns a `Brand` that
  `MxProduct.cs` does not declare; its value is null and it is not part of the model.
- `MixinConverters.ToWebOrderDetail`: the order line's `Id`, `VariationId` (always 0)
  and `UnitTax` (always 0) are not carried; nothing in the core reads them.
- Order line product id: `ProductId` is declared as a string (MxOrderItem.cs:37) but is
  assigned a 64-bit code (WebContext.cs:791-800); the model keeps it as an integer.
- Floating point: `Math.Sqrt` in `Decode` is replaced by an exact integer square root.
  Money and stock (`double`/`decimal` in the source) are integers, so the `(int)` casts
  in `ToMxProduct` do not truncate anything.
- `EncodedProduct.Decode`: takes a non-negative code. A negative code makes the
  source's square root NaN; `UpdateProduct` takes a non-negative id and
  `UpdateVariationProduct` requires one for that reason.
- `EncodedProduct.Encode`: 64-bit overflow of `(a+b)(a+b+1)` is not modelled; integers
  are unbounded.
- Text: culture-sensitive `ToLower`, Unicode `\d`, Unicode white space and string
  encodings are restricted to ASCII behaviour.
- `DateTime.Now` fields of converted records, and order dates, which are integer
  instants here.
- Async wrappers, console logging, the unused page callback of the pagination loop,
  and concurrent use of the shared paging state.
- `WebContext.WebContext.GetAllWithPagination`: requires that the page script
  contains a page that ends the listing; the source loops forever otherwise.
- `WebContext.WebContext.GetAllWithPagination`: a page body that does not decode makes
  `JsonConvert.DeserializeObject` throw out of the loop; pages are given decoded here,
  so that exception is not modelled.
- `WebContext.WebContext.SearchProducts`: the source returns a lazy sequence; the model
  gives the result of one complete enumeration. A null name throws only when the
  enumeration reaches it, and enumerating again re-encodes the already encoded ids.
- `WebContext.FilterQuery`: dates are day numbers; their `yyyy-MM-dd` formatting is
  not modelled.
- The caller's record is mutated by the update methods (`entity.Id = decodedId`);
  records are values here, so only the converted copy carries the new id.
- Operations outside the core: customer conversion (`ToWebCustomer`,
  `ToMxCustomer`), `ToMxOrder`, the order fields other than id, status, payment method
  and lines, `CreateProduct`/`CreateCategory`, `GetProductById`, `GetAllProducts`,
  `GetAllProductsWithFields`, `GetAllProductsExcludingIds`,
  `GetVariableProductsBySearch`, `GetVariationProductsByVariableId`, the category and
  customer "with fields" listings, `GetAllOrdersExcludeById`, the constant payment
  method list and the unimplemented `UpdateOrderStatus`.
- The per-order detail fetches of `GetOrdersByFilters` and `GetOrdersBySearch`: these
  return the ids whose details would be fetched. `WebContext.FilterByStatus` states the
  final status filter on the fetched orders separately.
- `WebContext.WebContext.Search`: the customer conversion applied to the search results
  is not modelled (it returns the vendor records).
- `Orders.ResolveVariantId`: a variant whose attribute list is null would throw in the
  source; attribute lists are never null here.
- `Orders.AssignProductIds`: does not state that lines at or after the failing line
  keep their product id.
- `Orders.GetOrderById`: on failure, which lines were already assigned is not part of
  the result (the source throws out of the loop).
- `ProductUrlParser.Parse`: its own contract states the blank case and the range of the
  ids; the product id and the invalid-format case are stated by
  `ProductUrlParser.ParseProductId` and `ProductUrlParser.InvalidFormatIffNoMatch`.
  `int.Parse` overflow on a product id beyond 32 bits is a separate error.
