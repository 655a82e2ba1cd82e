# AYM Shop storefront core in Dafny

This project models the core of the AYM Shop storefront in Dafny. It covers two parts.

**The in-browser product database (`ProductDB` in `public/js/app.js`).**
- The catalog of products. Only their stock changes in place.
- The cart ledger and the operations on it:
  - `addToCart`, `updateCartQuantity`, `removeFromCart`, `clearCart`;
  - the item count and the total.
- The two-stage search and the 20-item pages cut from its results.
- The price helpers `parsePrice`, `formatNumberWithCommas` and `formatPrice`.
- The bill flow of `showBill`:
  - the stock check over every cart line;
  - the bill serial;
  - the bill total;
  - the `checkout` that lowers the stock.
- The previous-page and next-page buttons.

**The record normaliser of the `/api/products` handler (`api/products.js`).**
- It turns spreadsheet records into products:
  - it skips records without a name;
  - it picks each field from a list of alternative column names with JavaScript's `||` chains;
  - it reads the stock with `parseInt`.
- It collects image urls with `extractImages` and two loops, and removes duplicates.
- It falls back to an SVG placeholder that shows the category's emoji (`getCategoryPlaceholder`).

## Modules

| module | file | what it holds |
|---|---|---|
| `Wrappers`, `Seqs` | `seqs.dfy` | `Option`, plus the JavaScript array and string operations the source uses (`filter`, `findIndex`, `[...new Set(s)]`, `includes`, ASCII `toLowerCase`), each with a specification lemma |
| `Numerals`, `Prices` | `prices.dfy` | decimal digit strings, `padStart`, and the price parse, format and round-trip lemmas |
| `Paging` | `paging.dfy` | `Array.slice`, the page window and the page count |
| `Billing` | `serial.dfy` | the bill serial and its layout |
| `Catalog` | `catalog.dfy` | the `Product` class (fixed fields and a mutable `stock`) and `getProductById` |
| `Search` | `search.dfy` | the category and query stages of `searchProducts` |
| `Cart` | `cart.dfy` | the cart operations as functions on a sequence of lines, with their effect lemmas |
| `Checkout` | `checkout.dfy` | `checkout` and the stock check of `showBill` on the ids and stocks of the catalog, and how the two relate |
| `CategoryGlyphs` | `glyphs.dfy` | the category-to-emoji table, the lookup as written and the corrected lookup |
| `ProductsApi` | `records.dfy` | the record normaliser of the products endpoint |
| `Storefront` | `storefront.dfy` | the `ProductDB` class. Its methods update its fields as the source does. Each method is proved against the functions of the modules above. |

Products live in one place and are shared.
- `ProductDB.products` and `ProductDB.currentSearchResults` hold the same `Product` objects, as the JavaScript arrays do.
- `checkout` lowers `product.stock` in place.

The cart is a sequence of `CartLine` values. The cart methods reassign it.

Three behaviours of the code are worth knowing, and the model follows them:
- `searchProducts` leaves `currentPage` alone. Its callers reset the page to 1 before they call it (`public/js/app.js:486`, `public/js/app.js:1402`). `ProductDB.SearchProducts` states that the page is unchanged.
- `checkout` on its own commits partially: it keeps the decrements made before the first short line (`Checkout.PartialCommitExample`, `Checkout.CommitStopsAtFirstShortLine`). After the stock check of `showBill` passes it commits the whole cart (`Checkout.CheckedCommit`). This needs one line per product, which every cart operation keeps.
- `updateCartQuantity` returns false when the product or its cart line is missing, even for a quantity of 0 or less (`public/js/app.js:292-296`, `public/js/app.js:309`). Only an existing line is removed.

## Model

| member | source | states |
|---|---|---|
| Seqs.FilterSpec | public/js/app.js:203-205 | `Array.filter` keeps exactly the elements satisfying the predicate, as a subsequence in the original order |
| Seqs.FirstIndex | public/js/app.js:258 | `findIndex` returns the first index holding the value, and none exactly when the value is absent |
| Seqs.Dedup | public/js/app.js:125 | `[...new Set(s)]` has no duplicates and holds exactly the elements of `s` |
| Seqs.DedupFirstSeenOrder | public/js/app.js:125 | the deduplicated elements appear in the order of their first occurrence, as a Set iterates in insertion order |
| Seqs.DedupNoDups | public/js/app.js:125 | a sequence without duplicates passes through `new Set` unchanged |
| Seqs.ContainsSpec | public/js/app.js:211 | `includes` holds exactly when the term occurs as a contiguous block at some position |
| Seqs.AsciiLower | public/js/app.js:209 | lower-casing keeps the length, maps `A`-`Z` to `a`-`z` and keeps every other character |
| Numerals.ValueOfDecimal | public/js/app.js:235 | reading back the digits of `number.toString()` gives the number |
| Numerals.PadStart | public/js/app.js:1031 | `padStart` prefixes fill characters up to the width and keeps the original characters at the end |
| Numerals.ValueOfPadStart | public/js/app.js:1031-1033 | zero-padding a digit string keeps its value |
| Prices.DigitsOf | public/js/app.js:240 | stripping non-digits and commas leaves only digits, and nothing when the string has no digit |
| Prices.ParsePrice | public/js/app.js:238-242 | `parsePrice` is 0 for a string without digits (the empty string and `NaN \|\| 0`) |
| Prices.ParsePriceDigitsOnly | public/js/app.js:240-241 | two strings with the same digits parse to the same price |
| Prices.GroupThousands | public/js/app.js:235 | grouping never drops a character: the result is at least as long as the digits |
| Prices.GroupThousandsLength | public/js/app.js:235 | grouping adds one comma per complete group of three digits after the first digit |
| Prices.GroupThousandsCommas | public/js/app.js:235 | counting from the right, every fourth character of the grouped string is a comma, and no other is |
| Prices.GroupThousandsDigits | public/js/app.js:235 | removing the commas from the grouped digits gives the digits back |
| Prices.FormatNumberWithCommas | public/js/app.js:234-236 | the formatted number is never empty (`"0"` for 0) |
| Prices.ParseFormatRoundTrip | public/js/app.js:234-242 | `parsePrice(formatNumberWithCommas(n)) == n` for every natural `n` |
| Prices.FormatPrice | public/js/app.js:244-251 | `formatPrice` always ends with the currency word after a non-empty number |
| Prices.ParseFormattedPrice | public/js/app.js:238-251 | `parsePrice(formatPrice(n)) == n`: the currency word adds no digits |
| Prices.FormatPriceIdempotent | public/js/app.js:244-251 | formatting an already formatted price string changes nothing |
| Paging.Page | public/js/app.js:224-228 | `getPaginatedProducts` never returns more than 20 items |
| Paging.TotalPages | public/js/app.js:230-232 | the page count is the least number of 20-item pages that hold all results |
| Paging.PageWindow | public/js/app.js:224-228 | page `p >= 1` is the window of at most 20 results starting at index `(p-1)*20`, and empty past the end |
| Paging.PageNonEmptyIff | public/js/app.js:224-232 | a page holds results exactly when its number is at most the page count |
| Paging.PagesCoverResults | public/js/app.js:224-232 | pages 1 to the page count, read in turn, give every result exactly once, in order |
| Paging.FortyFiveResults | public/js/app.js:224-232 | 45 results give 3 pages; page 3 holds the last 5 and page 4 nothing |
| Billing.BillSerial | public/js/app.js:1029-1034 | the serial is at least 14 characters, whatever the date and random value |
| Billing.PaddedField | public/js/app.js:1031-1033 | a zero-padded number below 10^w is exactly w digits that read back as the number |
| Billing.JoinLayout | public/js/app.js:1034 | the template places `AYM-`, the month, the random value and the day at fixed offsets |
| Billing.SerialLayout | public/js/app.js:1029-1037 | for a real date and a random value in [0, 9999] the serial is 14 characters `AYM-MM-RRRR-DD`, and each field reads back as its input |
| Search.ByCategory | public/js/app.js:202-206 | the category stage never adds products, and outside the `all`/`همه` names keeps only products of the category |
| Search.ByQuery | public/js/app.js:208-216 | the query stage never adds products, and with a non-blank query keeps only products matching the lower-cased query |
| Search.SearchResults | public/js/app.js:199-218 | the stored results are never more than the catalog |
| Search.StagesAreSubsequences | public/js/app.js:199-216 | each filter stage keeps a subsequence of its input, so search never reorders or adds |
| Search.SearchResultsSpec | public/js/app.js:199-219 | the stored results are exactly the products of the chosen category (any, for `all`/`همه`) matching the lower-cased query in one of the four text fields (any, for a blank query), in catalog order |
| Search.QueryNarrowsCategory | public/js/app.js:208-216 | a query only narrows the results of the same category with a blank query |
| Catalog.Product.constructor | api/products.js:73-84 | a storefront product holds the fields the endpoint emits for it: id, name, code, descriptions, price, category, images and stock |
| Catalog.Find | public/js/app.js:195-197 | `getProductById` returns the product at the first index holding the id, and nothing exactly when no id matches |
| Catalog.FindSpec | public/js/app.js:195-197 | the product found carries the id and no earlier product does; nothing is found exactly when no product has the id |
| Cart.FindLine | public/js/app.js:258 | the line index found holds the id and no earlier line does; none exactly when no line holds it |
| Cart.AddToCart | public/js/app.js:254-289 | succeeds exactly when the product exists and the quantity already in the cart plus the new one is within its stock; on success the product's quantity grows by exactly that amount, a new line is appended only when none existed, copying the product's id, name, price, images and category; an existing line changes only its quantity and keeps its name and price copy; every other line is unchanged; on failure nothing changes |
| Cart.AddToCartKeepsDistinct | public/js/app.js:254-289 | `addToCart` never gives two lines the same product id |
| Cart.AddToCartItems | public/js/app.js:254-289 | a successful `addToCart` raises the item count by exactly the quantity added |
| Cart.AddToCartTotal | public/js/app.js:254-289 | a successful `addToCart` raises the total by the quantity times the price copy of the line |
| Cart.UpdateCartQuantity | public/js/app.js:291-310 | fails without change when the product or its line is missing or the quantity exceeds stock; a quantity at or below 0 removes the line; otherwise that line's quantity becomes the new quantity and every other field of every line, the price copy included, stays as it was |
| Cart.UpdateCartQuantityEffect | public/js/app.js:291-310 | updating keeps ids distinct; on success the item count is the old count less the line's old quantity plus the new quantity (plus nothing when removing), and a removal leaves no line with the id |
| Cart.RemoveFromCart | public/js/app.js:312-321 | succeeds exactly when a line has the id; then the first such line is removed and the rest keep their order |
| Cart.RemoveAtEffect | public/js/app.js:315 | `splice(i, 1)` keeps the remaining lines in order, keeps ids distinct and lowers the item count by that line's quantity |
| Cart.RemoveFromCartEffect | public/js/app.js:312-321 | after a removal no line holds the id and the ids stay distinct |
| Cart.ItemCount | public/js/app.js:329-331 | `getCartItemCount` is never negative when no line has a negative quantity |
| Cart.CartTotal | public/js/app.js:333-338 | `getCartTotal` is never negative when no line has a negative quantity |
| Cart.CartTotalThrough | public/js/app.js:333-338 | the total of the first `i+1` lines is the total of the first `i` plus line `i`'s price copy times its quantity |
| Checkout.Commit | public/js/app.js:340-360 | `checkout` yields its verdict and one stock per product |
| Checkout.ShortLines | public/js/app.js:1083-1089 | the stock check reports at most one name per cart line |
| Checkout.CommitLine | public/js/app.js:344-350 | one pass of the checkout loop succeeds exactly when the line is covered, and an uncovered line changes no stock |
| Checkout.CommitFrom | public/js/app.js:343-351 | checkout from line `i` on is one pass for line `i` followed by the rest, or a stop with `false` if that pass fails |
| Checkout.ShortLinesThrough | public/js/app.js:1083-1089 | the stock check up to line `i` appends line `i`'s name exactly when it is not covered |
| Checkout.ShortLinesAreUncoveredLines | public/js/app.js:1083-1089 | the reported names are exactly the names of the uncovered lines, in cart order |
| Checkout.ShortLinesEmptyIff | public/js/app.js:1080-1091 | the stock check passes exactly when every line is covered |
| Checkout.CommitOkIffAllCovered | public/js/app.js:340-360 | with one line per product, `checkout` returns true exactly when every line is covered by the starting stock |
| Checkout.ValidationPredictsCommit | public/js/app.js:1080-1094 | with one line per product, the stock check reports nothing exactly when `checkout` would succeed |
| Checkout.CommitDecrements | public/js/app.js:343-351 | a successful `checkout` lowers each product's stock by what the cart asks of it, and changes no other stock |
| Checkout.CheckedCommit | public/js/app.js:1080-1094 | after a passing stock check, `checkout` succeeds and leaves exactly the sold-off stocks |
| Checkout.CommitStopsAtFirstShortLine | public/js/app.js:343-351 | a failing `checkout` stopped at a line not covered by the stock left; every line before it was committed and its decrements stay |
| Checkout.PartialCommitExample | public/js/app.js:343-351 | a two-line cart whose second line is short makes `checkout` return false after lowering the first product's stock from 5 to 0 |
| Checkout.SecondCommitFails | public/js/app.js:340-360 | checking out the same cart again fails when the first commit left a product with less than its line's quantity |
| Storefront.CategoryList | public/js/app.js:123-127 | the category list always starts with `همه` |
| Storefront.CategoryListSpec | public/js/app.js:123-127 | the category list starts with `همه`, then names every product's category (`عمومی` for an empty one) once, in the order the catalog first shows them, and nothing else |
| Storefront.ProductDB.constructor | public/js/app.js:5-24 | a new session has no products, an empty cart, page 1, category `all` and no bill serial |
| Storefront.ProductDB.LoadProducts | public/js/app.js:42-51 | the fetched products become the catalog and the search results, an empty list giving an empty catalog |
| Storefront.ProductDB.ExtractCategories | public/js/app.js:123-127 | the stored categories are the category list of the catalog |
| Storefront.ProductDB.SearchProducts | public/js/app.js:199-222 | stores the search results and the category, leaves the page number, and returns that page of the new results |
| Storefront.ProductDB.AddToCart | public/js/app.js:254-289 | the new verdict and cart are those of `Cart.AddToCart` with the live product, and the cart keeps one line per product |
| Storefront.ProductDB.UpdateCartQuantity | public/js/app.js:291-310 | the new verdict and cart are those of `Cart.UpdateCartQuantity` with the live stock, and the cart keeps one line per product |
| Storefront.ProductDB.RemoveFromCart | public/js/app.js:312-321 | the new verdict and cart are those of `Cart.RemoveFromCart` |
| Storefront.ProductDB.ClearCart | public/js/app.js:323-327 | the cart is empty, with item count and total 0 |
| Storefront.ProductDB.Checkout | public/js/app.js:340-360 | the verdict and the stocks afterwards are those of `Commit` on the stocks before, including the partial commit |
| Storefront.ProductDB.CommitItem | public/js/app.js:344-350 | one pass of the loop finds the product and lowers its stock exactly as `CommitLine` says |
| Storefront.ProductDB.Lower | public/js/app.js:346 | lowering one product's stock changes that product's entry of the stock list and no other |
| Storefront.ProductDB.ValidateStock | public/js/app.js:1080-1089 | the names collected are the short lines of the cart, and `stockValid` holds exactly when there are none |
| Storefront.ProductDB.PrevPage | public/js/app.js:1629-1634 | steps back exactly when past page 1, never below page 1, and from a page within the page count lands on a page that holds results |
| Storefront.ProductDB.NextPage | public/js/app.js:1636-1641 | steps forward exactly when below the page count, never past the last page, and lands only on a page that holds results |
| Storefront.ProductDB.GenerateBillSerial | public/js/app.js:1029-1037 | returns and stores the serial built from the month, day and random value |
| Storefront.ProductDB.BillTotal | public/js/app.js:1139-1155 | the total of the bill equals `getCartTotal`, built from the lines' price copies |
| Storefront.ProductDB.IssueBill | public/js/app.js:1097-1178 | after a passing stock check: the serial is issued, the total is the cart total, and `checkout` succeeds and leaves exactly the sold-off stocks |
| Storefront.ProductDB.ShowBill | public/js/app.js:1069-1178 | a dismissed prompt, an empty cart or a failed stock check (reporting exactly the short lines' names) changes neither stock nor serial; otherwise the bill is issued and the whole cart is committed |
| CategoryGlyphs.CategoryPlaceholder | api/products.js:148-170 | a listed category gets its table glyph; any other string gets the box |
| CategoryGlyphs.PlaceholderIsTableGlyph | api/products.js:148-170 | every placeholder glyph is a single character from the table |
| CategoryGlyphs.CategoryPlaceholderAsWritten | api/products.js:169 | the lookup as written returns an inherited `Object.prototype` member for a category named like one that is not in the table |
| CategoryGlyphs.AsWrittenConstructorCategory | api/products.js:169 | the category `constructor` yields the inherited member, not the box glyph |
| CategoryGlyphs.AsWrittenAgreesElsewhere | api/products.js:169 | apart from the inherited names, the lookup as written and the corrected lookup agree |
| ProductsApi.Lookup | api/products.js:75 | `fields[key]` is undefined when no entry has the key |
| ProductsApi.FirstTruthy | api/products.js:75-82 | an `\|\|` chain yields a truthy value or its fallback |
| ProductsApi.LookupFirst | api/products.js:75 | `fields[key]` is the value of the first entry with that key |
| ProductsApi.FirstTruthySpec | api/products.js:75-82 | an `\|\|` chain yields the value of the first key whose value is truthy, and the fallback only when none is |
| ProductsApi.FirstTruthySkip | api/products.js:78-79 | keys whose values are all falsy can be dropped from the front of the chain |
| ProductsApi.ParseInt | api/products.js:81 | `parseInt` gives a number only for a string with a visible character, and always for one that starts with a digit (other than a `0x` prefix) |
| ProductsApi.ParseIntSignedDecimal | api/products.js:81 | `parseInt` reads back every whole number that `String` writes |
| ProductsApi.ParseIntSkipsSpace | api/products.js:81 | leading white space does not change what `parseInt` reads |
| ProductsApi.ParseIntNoDigit | api/products.js:81 | a string whose first visible character is neither a sign nor a digit parses to NaN |
| ProductsApi.StockOf | api/products.js:81 | a numeric stock value is kept as it is |
| ProductsApi.Urls | api/products.js:90-92 | the `filter`/`map` yields at most one url per attachment, none of them empty |
| ProductsApi.UrlsMembers | api/products.js:90-92 | a url is extracted exactly when some attachment in the array carries it as a non-empty url |
| ProductsApi.ExtractImages | api/products.js:87-95 | `extractImages` returns only non-empty urls, and nothing for a value that is neither an attachment array nor an attachment |
| ProductsApi.ExtractImagesSpec | api/products.js:87-95 | a url is returned exactly when it is non-empty and carried by an element of the attachment array or by the single attachment |
| ProductsApi.NamedImagesMembers | api/products.js:101-107 | a url is collected by the first loop exactly when one of the fixed image fields with a truthy value yields it |
| ProductsApi.EntryImagesMembers | api/products.js:110-117 | a url is collected by the second loop exactly when an entry that passes the image test yields it |
| ProductsApi.FoundImagesSpec | api/products.js:97-117 | a url is found exactly when a fixed image field or an image entry yields it |
| ProductsApi.NamedFieldImages | api/products.js:98-107 | the first loop collects the urls of the fixed image fields in field order |
| ProductsApi.AppendEntryImages | api/products.js:109-117 | the second loop appends the urls of every image entry in entry order |
| ProductsApi.GatherImages | api/products.js:97-117 | both loops together collect the found urls, duplicates included |
| ProductsApi.PlaceholderImage | api/products.js:125 | the placeholder is the SVG data URL with the emoji placed between its fixed head and tail |
| ProductsApi.ProductImages | api/products.js:119-126 | a product's images are never empty and hold no duplicates |
| ProductsApi.ProductImagesSpec | api/products.js:119-126 | with nothing found, exactly the category placeholder; otherwise exactly the found urls, each once, in order of first appearance |
| ProductsApi.IdPrefix | api/products.js:76 | `substring(0, 4)` is the first four characters of the id, or all of a shorter id |
| ProductsApi.BuildProduct | api/products.js:73-126 | the product keeps the record's id and has at least one image, none empty and none twice |
| ProductsApi.NormaliseRecord | api/products.js:73-128 | the body of the loop for a named record builds exactly `BuildProduct` |
| ProductsApi.NormaliseRecords | api/products.js:63-134 | the loop emits `Normalised(records)`, and the count is its length |
| ProductsApi.Normalised | api/products.js:63-129 | the loop emits at most one product per record, each with at least one image and no image twice |
| ProductsApi.NormalisedIsFilterThenBuild | api/products.js:65-128 | unnamed records produce nothing, and every named record produces exactly one product, in record order |
| ProductsApi.BuildProductNamed | api/products.js:69-75 | a kept record's name is the truthy value of its first truthy name field, never the default |
| ProductsApi.BuildProductCode | api/products.js:76 | with no truthy code field the code is `CODE-` followed by the first four characters of the id |
| ProductsApi.BuildProductFullDescription | api/products.js:78-79 | with no truthy full-description field the full description is the description |
| ProductsApi.BuildProductStock | api/products.js:81 | the stock is 0 without a truthy stock field, the number itself for a number, and `parseInt` of a text |

## Left out

- Network and storage are not modelled:
  - `fetch('/api/products')`, the HTTP response and the spreadsheet request of the endpoint;
  - the local-storage fallback of `loadProductsFromAirtable` (`public/js/app.js:55-69`);
  - `saveProducts`, `saveCart`, `saveOriginalCart` and `loadCart` (`public/js/app.js:161-193`) write to and read from `localStorage`; the model treats them as no-ops. A new `ProductDB` therefore starts with an empty cart, not with the cart `loadCart` restores from an earlier session (`public/js/app.js:11`).
- The page is not modelled: DOM rendering, the bill HTML, alerts and the modal. The alert in `showBill` becomes the `OutOfStock(names)` outcome.
- Customer prompts are not modelled: `promptCustomerInfo` and `customerInfo`. `showBill` takes only whether the customer answered every prompt (`infoConfirmed`).
- Time and randomness are parameters: `new Date()` and `Math.random()` become the `month`, `day` and `random` arguments of the serial.
- Numbers:
  - Prices are whole, non-negative numbers.
  - Floating point, `NaN` arithmetic and the exponent notation `toString` uses from 1e21 up are not modelled.
  - `formatPrice` on a number takes a natural number.
- Character handling:
  - `toLowerCase` maps only the ASCII letters; Unicode case mapping beyond ASCII is not modelled.
  - `trim` and `parseInt` skip JavaScript's white-space and line-terminator characters.
- Field order: `Object.entries` lists integer-like keys first. The model takes the entries in the order the record gives them.
- Attachments:
  - An element without a string `url` is an attachment with an empty url.
  - A non-string truthy `url` is not modelled.
- `getProductPlaceholder` (`public/js/app.js:72-96`) is not modelled. It builds the storefront's own SVG placeholder and shares the glyph table with the endpoint. The storefront's `getCategoryPlaceholder` (`public/js/app.js:98-121`) is the same table and lookup as the endpoint's, which `CategoryGlyphs` models.
- Paging.Slice: its contract bounds only the length of the result. `Paging.PageWindow` states which results a page holds.
- ProductsApi.StockOf: its contract states only the number case. `ProductsApi.BuildProductStock` and the `parseInt` lemmas state the text cases; booleans and objects give NaN. An array of texts, such as a lookup column `["5"]`, is not modelled: `parseInt` reads it through `String(["5"]) == "5"` and gives 5, but the model holds such a value as attachments and `StockOf` gives none.
- ProductsApi.CategoryGlyph: the normaliser builds its placeholder with the corrected own-property lookup of the Findings row. A text category named like an `Object.prototype` member (`constructor`, `toString`, ...) gets the box glyph here, where the code as written puts the text of the inherited member into the SVG (`CategoryGlyphs.CategoryPlaceholderAsWritten` models that). A category value that is not text gets the box glyph.
- Field types: the storefront's `Product` holds its name, code, description, full description, price and category as text. The endpoint can emit any truthy spreadsheet value in those fields (a number, a boolean, attachments). With a non-text name, code or description, `toLowerCase()` in `searchProducts` (`public/js/app.js:211-214`) throws a `TypeError`; that path is not modelled.

## Findings

| source | as written | input that shows it | evidently intended | confidence | as-written member | corrected member |
|---|---|---|---|---|---|---|
| api/products.js:169 | `categoryEmojis[category] \|\| '📦'` also finds the members the object literal inherits from `Object.prototype` | a record whose category is `constructor` (or `toString`, `valueOf`, ...) and that has no images: the placeholder shows the text of the inherited function instead of an emoji | an own-property lookup: a glyph from the table, else `📦` | not executed | CategoryGlyphs.AsWrittenConstructorCategory | CategoryGlyphs.PlaceholderIsTableGlyph |
