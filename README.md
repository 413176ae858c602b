# Storefront result list, modelled in Dafny

This project models the client-side logic of a browser storefront that lists, searches and sorts products fetched from a public catalogue API. The centre is the **result list controller**. It holds the fully fetched product list and a current page of 9 items. It sorts the list by a field in a direction, cuts out the current page, and draws a pagination bar: Previous, at most five page numbers, and Next. The scripts contain it twice. `assets/JS/products.js` has the product listing, modelled as `ResultList.ProductList`. `assets/JS/search.js` has the search page, modelled as `ResultList.SearchList`. Both classes share the module's page, window and sort definitions. Beside the controller the project models:

- the string helpers `capitalizeFirst` and `formatCategory`, and the star counts of `generateStarRating` (`Utils`);
- the wishlist append of `addToWishlist` (`Wishlist`);
- the sign-up form checks and request body of `handleRegister` (`Register`).

Files: `wrappers.dfy` (Option), `chars.dfy` (ASCII case mapping, `trim`, JavaScript string order), `result_list.dfy`, `utils.dfy`, `wishlist.dfy`, `register.dfy`.

Inputs that come from outside the scripts are parameters:
- the decoded fetch response. It is `None` when the fetch threw or the body is `null`: reading `products` from `null` throws into the same catch block. `Other` stands for any other value without a truthy `products`;
- the URL's `sortBy` and `order`;
- the sort selects' values;
- the signed-in flag and the stored wishlist;
- the form fields.

A field value carries its own runtime conversions (`String(n)` of a number, `parseFloat(s)` of a string). So neither number formatting nor parsing is modelled.

How the two copies differ:
- `products.js` reads `data.products`, else a bare array, else `[]`. `search.js` reads `data.products || []`, so it ignores a bare array.
- `products.js` keeps a separate `totalProducts` count and a "page X of Y" read-out (`info`).
- `products.js` draws the bar whenever there is a page. `search.js` draws no buttons when there is at most one page (`BarShown`).
- `search.js` shows the sort filters only when there are results. A blank query only hides them and changes nothing else.

Behaviour worth noting:
- The page count is `ceil(n / 9)`, so an empty list has 0 pages.
- Changing the page does not clamp it. Staying in range is proved only for pages reached through the offered buttons.
- Near the last page the window narrows: at page 10 of 10 it is `[8, 9, 10]` (`WindowExamples`).
- `rating % 1` takes the sign of the rating, so a negative rating never gets a half star (`Counts`).
- A failed load or search leaves the list as it was. The catch blocks only show an error.
- `loadProducts` writes the "page X of Y" read-out before it resets `currentPage` to 1 (`products.js:68` and `:70`). The read-out therefore shows the page from before the load.

## Model

| member | source | states |
|---|---|---|
| `ResultList.ProductsFrom` | assets/JS/products.js:46-52 | the list is `data.products` for an object with products, the array itself for a bare array, and `[]` otherwise |
| `ResultList.SearchResultsFrom` | assets/JS/search.js:33 | the results are `data.products` for an object with products and `[]` for anything else, a bare array included |
| `ResultList.ResponseSelectionsAgree` | assets/JS/search.js:33 | the two listings read a response alike exactly when it is not a non-empty bare array; the search page never keeps more items |
| `ResultList.PageSlice` | assets/JS/products.js:80-88 | the page shown for `p >= 1` is exactly `items[(p-1)*9 .. min(p*9, n)]`; every page has at most 9 items, in stored order (the same slice `search.js:60-62` takes) |
| `ResultList.TotalPages` | assets/JS/products.js:94 | the page count is the ceiling of `n / 9`: the least `t` with `n <= 9t`, 0 for an empty list |
| `ResultList.PagesArePrefix` | assets/JS/products.js:82-84 | pages `1..k` read in turn are the first `min(9k, n)` items |
| `ResultList.PagesPartition` | assets/JS/products.js:82-84 | reading pages `1..ceil(n/9)` in turn gives back the whole list |
| `ResultList.IndexOnExactlyOnePage` | assets/JS/products.js:82-84 | the item at index `i` lies on page `i/9 + 1`, which is in `1..ceil(n/9)`, at position `i % 9`, and on no other page |
| `ResultList.Pagination` | assets/JS/products.js:96-120 | a hidden bar (search page, at most one page) has no buttons; a bar has at most 7 buttons, and at least one whenever it is shown for at least one page |
| `ResultList.RenderPagination` | assets/JS/products.js:96-120 | the button loop yields the optional Previous, the buttons of pages `startPage..endPage` with only `cur` active, then the optional Next |
| `ResultList.WindowFacts` | assets/JS/products.js:103-105 | the window runs from `max(1, cur-2)` to `min(totalPages, start+4)`, is consecutive and ascending, has at most 5 pages, all in `1..totalPages`, and contains `cur` when `1 <= cur <= totalPages` |
| `ResultList.WindowExamples` | assets/JS/products.js:104-105 | with 10 pages the window is `[1..5]` at page 1, `[3..7]` at page 5 and `[8, 9, 10]` at page 10 |
| `ResultList.PaginationLayout` | assets/JS/products.js:98-118 | a shown bar is Previous to `cur-1` iff `cur > 1`, then the window's pages with only `cur` active, then Next to `cur+1` iff `cur < totalPages` |
| `ResultList.PaginationButtonsWhere` | assets/JS/products.js:99-117 | only the first button can be Previous (when `cur > 1`), only the last Next (when `cur < totalPages`), and only the button of `cur` is active |
| `ResultList.PaginationAt` | assets/JS/products.js:98-118 | a shown bar has the optional Previous, the window's buttons and the optional Next, in that order, and the button at each position is the one that position calls for |
| `ResultList.OfferedTargetsInRange` | assets/JS/products.js:99-118 | from a page in `1..max(1, totalPages)`, every clickable button leads to a page in `1..totalPages` |
| `ResultList.ClicksStayInRange` | assets/JS/products.js:134-135 | from a page in range (page 1 after a load, search or sort), any run of clicks on offered buttons keeps the page in `1..max(1, totalPages)` |
| `ResultList.NumericKey` | assets/JS/products.js:185-187 | for `price`, `rating` and `discountPercentage`: a number keys by its value; text keys as the number `parseFloat` reads from it; a missing field or text `parseFloat` cannot read keys as 0 (the same coercion as search.js:154-156) |
| `ResultList.TextKey` | assets/JS/products.js:188-191 | for other fields: a missing field or the number 0 (falsy) keys as `''`; text keys as itself lower-cased, character by character; any other number keys as its `String(n)` lower-cased; the key holds no upper-case ASCII letter (the same coercion as search.js:157-160) |
| `ResultList.InOrderTotal` | assets/JS/products.js:193-197 | any two items are comparable in the comparator's order, in either direction |
| `ResultList.InOrderTransitive` | assets/JS/products.js:193-197 | the comparator's order is transitive for numeric and text keys, ascending or descending |
| `ResultList.TitleOrderIgnoresCase` | assets/JS/products.js:188-191 | text keys are lower-cased: "Apple" sorts before "banana" in ascending order of `title` |
| `ResultList.MissingRatingSortsFirst` | assets/JS/products.js:185-187 | a missing numeric field counts as 0: an unrated product sorts before any product with a positive rating |
| `ResultList.InsertPermutes` | assets/JS/products.js:180-198 | one insertion step adds exactly the new item: the result's multiset is the old one plus that item |
| `ResultList.InsertSorted` | assets/JS/products.js:180-198 | inserting into a list sorted by the comparator's order leaves it sorted |
| `ResultList.SortItems` | assets/JS/products.js:179-198 | the sort returns a permutation of its input, of the same length, non-decreasing by the coerced key for `'asc'` and non-increasing for any other order |
| `ResultList.ProductList.constructor` | assets/JS/products.js:8-11 | before any load the list is empty, the count is 0 and the page is 1 |
| `ResultList.ProductList.UpdatePaginationInfo` | assets/JS/products.js:123-132 | the read-out shows the current page and `ceil(totalProducts / 9)` |
| `ResultList.ProductList.Load` | assets/JS/products.js:43-72 | the list becomes `data.products`, else a bare array, else `[]`, sorted when `sortBy` is given; the count is its length; the page is 1; the read-out shows the previous page; a failed fetch changes nothing |
| `ResultList.ProductList.PageItems` | assets/JS/products.js:80-88 | the items displayed are the slice of the current page |
| `ResultList.ProductList.PageWindow` | assets/JS/products.js:90-121 | while the count matches the list, the bar drawn is the one for the current page and `ceil(n / 9)` pages of the list the page items are sliced from |
| `ResultList.ProductList.ChangePage` | assets/JS/products.js:134-140 | the page becomes the argument unclamped; the list is untouched; the read-out is updated; a page offered by the bar keeps the page in range |
| `ResultList.ProductList.Sort` | assets/JS/products.js:168-177 | the list becomes a sorted permutation of itself with the same count, and the page goes back to 1 |
| `ResultList.SearchList.constructor` | assets/JS/search.js:15-17 | no results and page 1 before any search |
| `ResultList.SearchList.PerformSearch` | assets/JS/search.js:19-54 | a blank query hides the filters and changes neither the results nor the page; a response sets the results to `data.products` or `[]`, the page to 1, and shows the filters iff there are results; a failed fetch changes nothing |
| `ResultList.SearchList.PageItems` | assets/JS/search.js:56-62 | the items displayed are the slice of the current search page |
| `ResultList.SearchList.PageWindow` | assets/JS/search.js:68-101 | no buttons when `ceil(n/9) <= 1`, otherwise the same bar as the product listing |
| `ResultList.SearchList.ChangePage` | assets/JS/search.js:103-107 | the page becomes the argument unclamped; a page offered by the bar keeps it in range |
| `ResultList.SearchList.Sort` | assets/JS/search.js:146-171 | the results become a sorted permutation of themselves, and the page goes back to 1 |
| `Chars.TrimEmptyIffBlank` | assets/JS/search.js:24 | a query trims to `''` exactly when every character is JavaScript whitespace |
| `Chars.LexLeqTotal` | assets/JS/products.js:194 | JavaScript's string order is total |
| `Chars.LexLeqTransitive` | assets/JS/products.js:194 | JavaScript's string order is transitive |
| `Chars.LexLeqAntisymmetric` | assets/JS/products.js:194 | two strings ordered both ways are equal |
| `Utils.CapitalizeFirst` | assets/JS/utils.js:143-146 | `''` for `''`; otherwise the same length, the first character upper-cased and every later one kept |
| `Utils.CapitalizeFirstIdempotent` | assets/JS/utils.js:145 | capitalising twice is capitalising once |
| `Utils.SplitCapitalizeJoin` | assets/JS/utils.js:151 | splitting on `-`, capitalising the words and joining with a space equals the character-by-character definition `TitleCase` |
| `Utils.FormatCategory` | assets/JS/utils.js:149-152 | `''` for `''`; the output has the length of the input |
| `Utils.FormatCategoryIsTitleCase` | assets/JS/utils.js:149-152 | `formatCategory` is `TitleCase` started at a word |
| `Utils.FormatCategoryAt` | assets/JS/utils.js:149-152 | `''` for `''`; output length equals input length; each `-` becomes a space; the first character and each character after a `-` are upper-cased; all others are kept |
| `Utils.FormatCategoryNoHyphen` | assets/JS/utils.js:151 | the output contains no `-` |
| `Utils.FormatCategoryIdempotent` | assets/JS/utils.js:151 | formatting twice equals formatting once |
| `Utils.RemainderOne` | assets/JS/utils.js:99 | `rating % 1` lies strictly between -1 and 1 and takes the sign of the rating: the fractional part `rating - floor(rating)` for `rating >= 0`, a value in `(-1, 0]` for a negative rating |
| `Utils.Counts` | assets/JS/utils.js:98-100 | `full = floor(rating)`; for `rating >= 0` a half star iff the fractional part is at least 0.5; no half star for a negative rating; full, half and empty add up to 5 |
| `Utils.StarRating` | assets/JS/utils.js:97-111 | the star string is `full` times '★', then '½' iff there is a half star, then `empty` times '☆' (none when `empty` is negative) |
| `Utils.StarCountsInRange` | assets/JS/utils.js:98-111 | for `0 <= rating <= 5`: `full = floor(rating)` in `0..5`; half star iff the fraction is at least 0.5; `empty = 5 - full - half >= 0`; exactly 5 symbols |
| `Utils.NoEmptyStarsWhenNegative` | assets/JS/utils.js:100-111 | when `emptyStars < 0` no '☆' is drawn |
| `Wishlist.AfterAdd` | assets/JS/product-details.js:134-152 | the old entries stay in place in order, and the list grows by at most one; signed out or already present leaves it unchanged; once signed in, the id is in the list; a duplicate-free list stays duplicate-free |
| `Wishlist.Outcome` | assets/JS/product-details.js:135-151 | the sign-in notice iff signed out; "added" iff the click changes the wishlist; "already in wishlist" iff signed in and the id is present |
| `Wishlist.AddAppends` | assets/JS/product-details.js:145-148 | a signed-in user's new id goes at the end and the outcome is "added" |
| `Wishlist.WishlistStore.AddToWishlist` | assets/JS/product-details.js:134-152 | the stored list becomes `AfterAdd` of the old one, and the notification is sign-in, added or already present |
| `Register.Validate` | assets/JS/register.js:24-52 | a request is sent iff all fields are filled, the passwords match and the password has at least 6 characters; each failing check gives its own message; the body carries username, email and password as given, `firstName = username`, `lastName = 'User'` and `age = 25` |
| `Register.MismatchReportedBeforeLength` | assets/JS/register.js:29-37 | a short password that differs from its confirmation is reported as a mismatch |
| `Register.RejectionMessages` | assets/JS/register.js:24-37 | every rejection carries one of the three messages |

## Left out

- Network I/O and DOM rendering are left out. This covers `fetchData`, every `fetch`, the HTML templates, notifications, loading states, scrolling and `history.pushState`. The model takes the fetch result as a parameter and returns what would be rendered.
- `formatPrice` and the original-price formula are left out because they are floating-point formatting and arithmetic. Ratings are Dafny `real`s, so float rounding in `rating % 1` is not modelled either.
- `parseFloat` and `String(number)` are not modelled. Their results travel as data in `FieldValue`. JSON booleans, `null` and objects as field values are not represented.
- `SortItems`: the engine's `Array.prototype.sort` is stood in for by an insertion sort. The model proves only "permutation, sorted by key". The comparator never returns 0, so the order of equal keys is left open and stability is not claimed.
- Case mapping is ASCII only (`Chars.Upper`, `Chars.Lower`). JavaScript's full Unicode mapping can change a string's length, as with 'ß'.
- Strings are sequences of Unicode scalar values, not UTF-16 code units. The ordering and `length` of characters outside the Basic Multilingual Plane therefore differ from JavaScript.
- `null` or `undefined` passed to `capitalizeFirst`, `formatCategory` or as a form field is represented as `''`. It takes the same branch there.
- `URLSearchParams`, `encodeURIComponent`, `getUrlParams`, `navigateToSearch`, `isAuthenticated` and the JSON (de)serialisation of the stored wishlist are library calls outside the shown code.
- `deleteProduct` is left out because it calls `deleteData`, which no shown file defines.
- The response handling after the sign-up request (`register.js:55-73`) is left out because it is network and notification glue.
- `add-product.js`, `categories.js`, `main.js` and `signin.js` are fetch, DOM and storage glue, so they are not part of this model.
