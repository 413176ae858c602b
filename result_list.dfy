/**
 * The result list controller of the storefront: the fully fetched list of
 * products, the current page (9 items per page), sorting by a field in a
 * direction, the slice shown for the current page, and the row of page
 * buttons (Previous, at most five page numbers, Next).
 *
 * The controller exists twice in the scripts, once for the product
 * listing (`ProductList`, assets/JS/products.js) and once for the search
 * page (`SearchList`, assets/JS/search.js).  Both share the functions and
 * the two loop methods of this module; they differ in how a response is
 * read, in products.js keeping a separate `totalProducts` count and a
 * "page X of Y" read-out, and in search.js rendering no buttons at all
 * when there is at most one page (see `Pagination`).
 */
module ResultList {
  import opened Wrappers
  import opened Chars

  /** Items per page: `productsPerPage` and `searchResultsPerPage`. */
  const PageSize: nat := 9

  function Min(a: int, b: int): int { if a <= b then a else b }
  function Max(a: int, b: int): int { if a >= b then a else b }

  // ---------------------------------------------------------------------
  // Items and responses
  // ---------------------------------------------------------------------

  /**
   * A field of a product record as the sort comparator sees it.  The two
   * conversions the comparator applies and that belong to the JavaScript
   * runtime travel with the value: `text` is `String(value)` of a number,
   * `parsed` is `parseFloat(s)` of a string (`None` when that is NaN).
   */
  datatype FieldValue =
    | Number(value: real, text: string)
    | Text(s: string, parsed: Option<real>)

  /** A product record: its id and its named fields. */
  datatype Item = Item(id: int, fields: map<string, FieldValue>)

  /**
   * The decoded body of a catalogue response: an object with a truthy
   * `products` array, a bare array, or any other non-null value.  A `null`
   * body is not a `Payload`: reading `products` from it throws into the
   * same catch block as a failed fetch, so it is passed as `None`.
   */
  datatype Payload =
    | Envelope(products: seq<Item>)
    | Bare(items: seq<Item>)
    | Other

  /** products.js: `data.products` if present, else `data` if it is an array, else `[]`. */
  function ProductsFrom(data: Payload): (r: seq<Item>)
    ensures data.Envelope? ==> r == data.products
    ensures data.Bare? ==> r == data.items
    ensures data.Other? ==> r == []
  {
    match data
    case Envelope(products) => products
    case Bare(items) => items
    case Other => []
  }

  /** search.js: `data.products || []`; a bare array has no `products`. */
  function SearchResultsFrom(data: Payload): (r: seq<Item>)
    ensures data.Envelope? ==> r == data.products
    ensures !data.Envelope? ==> r == []
  {
    if data.Envelope? then data.products else []
  }

  /**
   * The two listings read the same response alike, except that the search
   * page drops a non-empty bare array.
   */
  lemma ResponseSelectionsAgree(data: Payload)
    ensures ProductsFrom(data) == SearchResultsFrom(data) <==> !(data.Bare? && data.items != [])
    ensures |SearchResultsFrom(data)| <= |ProductsFrom(data)|
  {
  }

  // ---------------------------------------------------------------------
  // Pages
  // ---------------------------------------------------------------------

  /** The index `Array.prototype.slice` makes of an argument `k` on a length `n`. */
  function SliceIndex(k: int, n: nat): (i: nat)
    ensures i <= n
  {
    if k < 0 then Max(0, n + k) else Min(k, n)
  }

  /** `s.slice(start, end)`, negative arguments counting from the end. */
  function Slice<T>(s: seq<T>, start: int, end: int): (r: seq<T>)
    ensures |r| <= |s|
  {
    var from, to := SliceIndex(start, |s|), SliceIndex(end, |s|);
    if from < to then s[from..to] else []
  }

  /**
   * The items shown on page `page`: `slice(startIndex, startIndex + 9)` with
   * `startIndex = (page - 1) * 9`.  On a page number the buttons can offer
   * (`page >= 1`) this is the plain slice, cut off at the end of the list.
   */
  function PageSlice<T>(items: seq<T>, page: int): (r: seq<T>)
    ensures |r| <= PageSize
    ensures page >= 1 ==>
      r == items[Min((page - 1) * PageSize, |items|)..Min(page * PageSize, |items|)]
  {
    var startIndex := (page - 1) * PageSize;
    Slice(items, startIndex, startIndex + PageSize)
  }

  /** `Math.ceil(n / 9)`; 0 for an empty list. */
  function TotalPages(n: nat): (t: nat)
    ensures n <= t * PageSize
    ensures t == 0 || (t - 1) * PageSize < n
  {
    (n + PageSize - 1) / PageSize
  }

  /** Pages `1..k` one after the other. */
  function Pages<T>(items: seq<T>, k: nat): seq<T>
  {
    if k == 0 then [] else Pages(items, k - 1) + PageSlice(items, k)
  }

  lemma {:induction false} PagesArePrefix<T>(items: seq<T>, k: nat)
    ensures Pages(items, k) == items[..Min(k * PageSize, |items|)]
  {
    if k > 0 {
      PagesArePrefix(items, k - 1);
      var a, b := Min((k - 1) * PageSize, |items|), Min(k * PageSize, |items|);
      assert items[..a] + items[a..b] == items[..b];
    }
  }

  /** Reading pages `1..TotalPages(n)` in turn gives back the whole list. */
  lemma PagesPartition<T>(items: seq<T>)
    ensures Pages(items, TotalPages(|items|)) == items
  {
    PagesArePrefix(items, TotalPages(|items|));
  }

  /** The page on which the item at index `i` is shown. */
  function PageOf(i: nat): nat
  {
    i / PageSize + 1
  }

  /**
   * The item at index `i` is shown on exactly one page, `PageOf(i)`, which
   * is among the pages `1..TotalPages(n)`, at position `i % 9` of it.
   */
  lemma IndexOnExactlyOnePage<T>(items: seq<T>, i: nat, p: int)
    requires i < |items|
    ensures 1 <= PageOf(i) <= TotalPages(|items|)
    ensures i % PageSize < |PageSlice(items, PageOf(i))|
    ensures PageSlice(items, PageOf(i))[i % PageSize] == items[i]
    ensures (p >= 1 && (p - 1) * PageSize <= i < p * PageSize) <==> p == PageOf(i)
  {
    var q := i / PageSize;
    assert i == q * PageSize + i % PageSize;
    assert (q + 1) * PageSize <= |items| + PageSize - 1;
    if p >= 1 && (p - 1) * PageSize <= i < p * PageSize {
    }
  }

  // ---------------------------------------------------------------------
  // The page buttons
  // ---------------------------------------------------------------------

  /** Which of the two listings renders the buttons. */
  datatype Listing = ProductsListing | SearchListing

  /**
   * One button of the pagination bar.  Previous and Next carry the page
   * their click handler goes to; a page number button is `active` for the
   * current page and has no click handler then.
   */
  datatype Button =
    | Previous(target: int)
    | PageNumber(page: int, active: bool)
    | Next(target: int)

  /** `startPage = Math.max(1, currentPage - 2)`. */
  function WindowStart(cur: int): int { Max(1, cur - 2) }

  /** `endPage = Math.min(totalPages, startPage + 4)`. */
  function WindowEnd(cur: int, totalPages: nat): int { Min(totalPages, WindowStart(cur) + 4) }

  /** The number of page buttons: `endPage - startPage + 1`, or none. */
  function WindowSize(cur: int, totalPages: nat): nat
  {
    Max(0, WindowEnd(cur, totalPages) - WindowStart(cur) + 1)
  }

  /** The page numbers the bar shows: `startPage..endPage`. */
  function Window(cur: int, totalPages: nat): (w: seq<int>)
    ensures |w| == WindowSize(cur, totalPages)
    ensures forall k :: 0 <= k < |w| ==> w[k] == WindowStart(cur) + k
  {
    seq(WindowSize(cur, totalPages), k => WindowStart(cur) + k)
  }

  function PageButton(page: int, cur: int): Button
  {
    PageNumber(page, page == cur)
  }

  /** The buttons for `count` consecutive pages from `from`. */
  function NumberButtons(from: int, count: nat, cur: int): (r: seq<Button>)
    ensures |r| == count
    ensures forall k :: 0 <= k < count ==> r[k] == PageButton(from + k, cur)
  {
    seq(count, k => PageButton(from + k, cur))
  }

  function PreviousPart(cur: int): seq<Button>
  {
    if cur > 1 then [Previous(cur - 1)] else []
  }

  function NextPart(cur: int, totalPages: nat): seq<Button>
  {
    if cur < totalPages then [Next(cur + 1)] else []
  }

  /** search.js leaves the bar empty when there is at most one page. */
  predicate BarShown(listing: Listing, totalPages: nat)
  {
    !(listing == SearchListing && totalPages <= 1)
  }

  /** The buttons of the bar, in the order they appear. */
  function Pagination(listing: Listing, cur: int, totalPages: nat): (r: seq<Button>)
    ensures !BarShown(listing, totalPages) ==> r == []
    ensures |r| <= 7
    ensures BarShown(listing, totalPages) && totalPages >= 1 ==> |r| >= 1
  {
    if BarShown(listing, totalPages) then
      PreviousPart(cur) + NumberButtons(WindowStart(cur), WindowSize(cur, totalPages), cur)
      + NextPart(cur, totalPages)
    else []
  }

  /**
   * `updatePagination` / `updateSearchPagination`: the button string
   * built by a loop over `startPage..endPage`, between the optional
   * Previous and Next buttons.
   */
  method RenderPagination(listing: Listing, cur: int, totalPages: nat) returns (buttons: seq<Button>)
    ensures buttons == Pagination(listing, cur, totalPages)
  {
    if listing == SearchListing && totalPages <= 1 {
      return [];
    }
    buttons := [];
    if cur > 1 {
      buttons := buttons + [Previous(cur - 1)];
    }
    var startPage := Max(1, cur - 2);
    var endPage := Min(totalPages, startPage + 4);
    var i := startPage;
    while i <= endPage
      invariant startPage <= i <= Max(startPage, endPage + 1)
      invariant buttons == PreviousPart(cur) + NumberButtons(startPage, i - startPage, cur)
    {
      assert NumberButtons(startPage, i + 1 - startPage, cur)
          == NumberButtons(startPage, i - startPage, cur) + [PageButton(i, cur)];
      buttons := buttons + [PageButton(i, cur)];
      i := i + 1;
    }
    assert i - startPage == WindowSize(cur, totalPages);
    if cur < totalPages {
      buttons := buttons + [Next(cur + 1)];
    }
  }

  /**
   * The page-number part of the bar: consecutive pages from
   * `max(1, cur - 2)` to `min(totalPages, start + 4)`, at most five, all
   * in `1..totalPages`, and including `cur` whenever `cur` is a page.
   */
  lemma WindowFacts(cur: int, totalPages: nat)
    ensures |Window(cur, totalPages)| <= 5
    ensures forall k :: 0 <= k < |Window(cur, totalPages)| ==> 1 <= Window(cur, totalPages)[k] <= totalPages
    ensures forall k :: 0 <= k < |Window(cur, totalPages)| - 1 ==>
      Window(cur, totalPages)[k + 1] == Window(cur, totalPages)[k] + 1
    ensures 1 <= cur <= totalPages ==> cur in Window(cur, totalPages)
  {
    var w := Window(cur, totalPages);
    if 1 <= cur <= totalPages {
      assert w[cur - WindowStart(cur)] == cur;
    }
  }

  /**
   * The window at a few pages of ten: it starts at the first page, is
   * centred on page 5, and narrows to three pages on the last page rather
   * than sliding back.
   */
  lemma WindowExamples()
    ensures Window(1, 10) == [1, 2, 3, 4, 5]
    ensures Window(5, 10) == [3, 4, 5, 6, 7]
    ensures Window(10, 10) == [8, 9, 10]
  {
  }

  /** A button with a click handler (every button but the active page). */
  predicate Clickable(b: Button)
  {
    !(b.PageNumber? && b.active)
  }

  function Target(b: Button): int
  {
    match b
    case Previous(t) => t
    case PageNumber(p, _) => p
    case Next(t) => t
  }

  /** Some clickable button of the bar goes to `target`. */
  predicate Offers(buttons: seq<Button>, target: int)
  {
    exists k :: 0 <= k < |buttons| && Clickable(buttons[k]) && Target(buttons[k]) == target
  }

  /** Where the page-number buttons start: after Previous, when there is one. */
  function FirstNumberIndex(cur: int): nat
  {
    if cur > 1 then 1 else 0
  }

  /** The button at index `k` of a bar made of three parts. */
  lemma PartAt(pre: seq<Button>, mid: seq<Button>, post: seq<Button>, k: int)
    requires 0 <= k < |pre| + |mid| + |post|
    ensures (pre + mid + post)[k] ==
      if k < |pre| then pre[k] else if k < |pre| + |mid| then mid[k - |pre|] else post[k - |pre| - |mid|]
  {
  }

  /**
   * The button at index `k` of a shown bar: Previous to `cur - 1` first
   * when `cur > 1`, then the window's pages in order with only `cur`
   * active, then Next to `cur + 1` last when `cur < totalPages`.
   */
  lemma PaginationAt(listing: Listing, cur: int, totalPages: nat, k: int)
    requires BarShown(listing, totalPages)
    requires 0 <= k < |Pagination(listing, cur, totalPages)|
    ensures |Pagination(listing, cur, totalPages)|
      == FirstNumberIndex(cur) + WindowSize(cur, totalPages) + (if cur < totalPages then 1 else 0)
    ensures Pagination(listing, cur, totalPages)[k] ==
      if k < FirstNumberIndex(cur) then Previous(cur - 1)
      else if k < FirstNumberIndex(cur) + WindowSize(cur, totalPages) then
        PageButton(WindowStart(cur) + k - FirstNumberIndex(cur), cur)
      else Next(cur + 1)
  {
    PartAt(PreviousPart(cur), NumberButtons(WindowStart(cur), WindowSize(cur, totalPages), cur),
           NextPart(cur, totalPages), k);
  }

  /**
   * What the bar looks like when it is shown: Previous comes first and
   * exists iff `cur > 1`, going to `cur - 1`; Next comes last and exists iff
   * `cur < totalPages`, going to `cur + 1`; between them the window's pages
   * in order, the button of `cur` marked active.
   */
  lemma PaginationLayout(listing: Listing, cur: int, totalPages: nat)
    requires BarShown(listing, totalPages)
    ensures |Pagination(listing, cur, totalPages)|
      == FirstNumberIndex(cur) + |Window(cur, totalPages)| + (if cur < totalPages then 1 else 0)
    ensures cur > 1 ==> Pagination(listing, cur, totalPages)[0] == Previous(cur - 1)
    ensures cur < totalPages ==>
      Pagination(listing, cur, totalPages)[|Pagination(listing, cur, totalPages)| - 1] == Next(cur + 1)
    ensures forall k :: 0 <= k < |Window(cur, totalPages)| ==>
      Pagination(listing, cur, totalPages)[FirstNumberIndex(cur) + k]
        == PageNumber(Window(cur, totalPages)[k], Window(cur, totalPages)[k] == cur)
  {
    var b := Pagination(listing, cur, totalPages);
    var w := Window(cur, totalPages);
    var first := FirstNumberIndex(cur);
    assert |w| == WindowSize(cur, totalPages);
    if cur > 1 { PaginationAt(listing, cur, totalPages, 0); }
    if cur < totalPages { PaginationAt(listing, cur, totalPages, |b| - 1); }
    forall k | 0 <= k < |w|
      ensures b[first + k] == PageNumber(w[k], w[k] == cur)
    {
      PaginationAt(listing, cur, totalPages, first + k);
      assert w[k] == WindowStart(cur) + k;
    }
  }

  /**
   * No Previous button but the first, and only when `cur > 1`; no Next
   * button but the last, and only when `cur < totalPages`; no active
   * button but that of `cur`.
   */
  lemma PaginationButtonsWhere(listing: Listing, cur: int, totalPages: nat, k: int)
    requires 0 <= k < |Pagination(listing, cur, totalPages)|
    ensures Pagination(listing, cur, totalPages)[k].Previous? ==> k == 0 && cur > 1
    ensures Pagination(listing, cur, totalPages)[k].Next? ==>
      k == |Pagination(listing, cur, totalPages)| - 1 && cur < totalPages
    ensures Pagination(listing, cur, totalPages)[k].PageNumber? && Pagination(listing, cur, totalPages)[k].active
      ==> Pagination(listing, cur, totalPages)[k].page == cur
  {
    if BarShown(listing, totalPages) {
      PaginationAt(listing, cur, totalPages, k);
    }
  }

  /**
   * Started from a page in range, every page the bar offers is in range:
   * each clickable button goes to a page in `1..totalPages`.
   */
  lemma OfferedTargetsInRange(listing: Listing, cur: int, totalPages: nat, target: int)
    requires 1 <= cur <= Max(1, totalPages)
    requires Offers(Pagination(listing, cur, totalPages), target)
    ensures 1 <= target <= totalPages
  {
    var b := Pagination(listing, cur, totalPages);
    var k :| 0 <= k < |b| && Clickable(b[k]) && Target(b[k]) == target;
    if !BarShown(listing, totalPages) {
      assert false;
    }
    PaginationAt(listing, cur, totalPages, k);
  }

  /**
   * `clicks` is a run of page changes, each made through a button the bar
   * offered on the page reached before it, starting from page `start`.
   */
  ghost predicate ClickPath(listing: Listing, totalPages: nat, start: int, clicks: seq<int>)
    decreases |clicks|
  {
    |clicks| == 0 ||
    (Offers(Pagination(listing, start, totalPages), clicks[0])
     && ClickPath(listing, totalPages, clicks[0], clicks[1..]))
  }

  /**
   * From a page in range (page 1 is where a load, a search or a sort
   * leaves the list), pages reached only through offered buttons stay
   * within `1..max(1, totalPages)`.
   */
  lemma {:induction false} ClicksStayInRange(listing: Listing, totalPages: nat, start: int, clicks: seq<int>)
    requires 1 <= start <= Max(1, totalPages)
    requires ClickPath(listing, totalPages, start, clicks)
    ensures forall k :: 0 <= k < |clicks| ==> 1 <= clicks[k] <= Max(1, totalPages)
    decreases |clicks|
  {
    if |clicks| > 0 {
      OfferedTargetsInRange(listing, start, totalPages, clicks[0]);
      ClicksStayInRange(listing, totalPages, clicks[0], clicks[1..]);
      forall k | 0 < k < |clicks| ensures 1 <= clicks[k] <= Max(1, totalPages) {
        assert clicks[k] == clicks[1..][k - 1];
      }
    }
  }

  // ---------------------------------------------------------------------
  // Sorting
  // ---------------------------------------------------------------------

  /** The fields compared as numbers; all others compare as strings. */
  predicate IsNumericField(field: string)
  {
    field == "price" || field == "rating" || field == "discountPercentage"
  }

  /** `parseFloat(item[field]) || 0`. */
  function NumericKey(item: Item, field: string): (k: real)
    ensures field !in item.fields ==> k == 0.0
    ensures field in item.fields && item.fields[field].Number? ==> k == item.fields[field].value
    ensures field in item.fields && item.fields[field].Text? && item.fields[field].parsed.None? ==> k == 0.0
    ensures field in item.fields && item.fields[field].Text? && item.fields[field].parsed.Some? ==>
      k == item.fields[field].parsed.value
  {
    if field !in item.fields then 0.0
    else match item.fields[field]
      case Number(v, _) => v
      case Text(_, parsed) => parsed.GetOr(0.0)
  }

  /** `String(item[field] || '').toLowerCase()`; 0 and `''` are falsy. */
  function TextKey(item: Item, field: string): (k: string)
    ensures field !in item.fields ==> k == ""
    ensures field in item.fields && item.fields[field].Number? && item.fields[field].value == 0.0 ==> k == ""
    ensures field in item.fields && item.fields[field].Text? ==>
      |k| == |item.fields[field].s| && forall i :: 0 <= i < |k| ==> k[i] == Lower(item.fields[field].s[i])
    ensures field in item.fields && item.fields[field].Number? && item.fields[field].value != 0.0 ==>
      |k| == |item.fields[field].text| && forall i :: 0 <= i < |k| ==> k[i] == Lower(item.fields[field].text[i])
    ensures forall i :: 0 <= i < |k| ==> !('A' <= k[i] <= 'Z')
  {
    if field !in item.fields then ""
    else match item.fields[field]
      case Number(v, text) => if v == 0.0 then "" else LowerString(text)
      case Text(s, _) => LowerString(s)
  }

  /** `a` may precede `b` in ascending order of `field`. */
  predicate KeyLeq(a: Item, b: Item, field: string)
  {
    if IsNumericField(field) then NumericKey(a, field) <= NumericKey(b, field)
    else LexLeq(TextKey(a, field), TextKey(b, field))
  }

  /**
   * `a` may precede `b` in the order the comparator asks for: ascending
   * for `'asc'`, descending for any other value of `order`.
   */
  predicate InOrder(a: Item, b: Item, field: string, ascending: bool)
  {
    if ascending then KeyLeq(a, b, field) else KeyLeq(b, a, field)
  }

  lemma InOrderTotal(a: Item, b: Item, field: string, ascending: bool)
    ensures InOrder(a, b, field, ascending) || InOrder(b, a, field, ascending)
  {
    if !IsNumericField(field) {
      LexLeqTotal(TextKey(a, field), TextKey(b, field));
    }
  }

  lemma InOrderTransitive(a: Item, b: Item, c: Item, field: string, ascending: bool)
    requires InOrder(a, b, field, ascending) && InOrder(b, c, field, ascending)
    ensures InOrder(a, c, field, ascending)
  {
    if !IsNumericField(field) {
      if ascending {
        LexLeqTransitive(TextKey(a, field), TextKey(b, field), TextKey(c, field));
      } else {
        LexLeqTransitive(TextKey(c, field), TextKey(b, field), TextKey(a, field));
      }
    }
  }

  /** Every item may precede every later one. */
  ghost predicate SortedBy(s: seq<Item>, field: string, ascending: bool)
  {
    forall i, j :: 0 <= i < j < |s| ==> InOrder(s[i], s[j], field, ascending)
  }

  /** One insertion step of the sort: `x` placed before the first item it may precede. */
  function Insert(s: seq<Item>, x: Item, field: string, ascending: bool): (r: seq<Item>)
    ensures |r| == |s| + 1
  {
    if s == [] then [x]
    else if InOrder(x, s[0], field, ascending) then [x] + s
    else [s[0]] + Insert(s[1..], x, field, ascending)
  }

  /** Inserting adds exactly `x`. */
  lemma {:induction false} InsertPermutes(s: seq<Item>, x: Item, field: string, ascending: bool)
    ensures multiset(Insert(s, x, field, ascending)) == multiset(s) + multiset{x}
  {
    if s != [] && !InOrder(x, s[0], field, ascending) {
      InsertPermutes(s[1..], x, field, ascending);
      assert s == [s[0]] + s[1..];
    }
  }

  /** Inserting into a sorted list keeps it sorted. */
  lemma {:induction false} InsertSorted(s: seq<Item>, x: Item, field: string, ascending: bool)
    requires SortedBy(s, field, ascending)
    ensures SortedBy(Insert(s, x, field, ascending), field, ascending)
  {
    if s == [] {
    } else if InOrder(x, s[0], field, ascending) {
      InsertAtFront(s, x, field, ascending);
    } else {
      SortedTail(s, field, ascending);
      InsertSorted(s[1..], x, field, ascending);
      InsertPermutes(s[1..], x, field, ascending);
      InsertBehind(s, x, Insert(s[1..], x, field, ascending), field, ascending);
    }
  }

  lemma SortedTail(s: seq<Item>, field: string, ascending: bool)
    requires s != [] && SortedBy(s, field, ascending)
    ensures SortedBy(s[1..], field, ascending)
  {
    var t := s[1..];
    forall i, j | 0 <= i < j < |t| ensures InOrder(t[i], t[j], field, ascending) {
      assert t[i] == s[i + 1] && t[j] == s[j + 1];
    }
  }

  lemma InsertAtFront(s: seq<Item>, x: Item, field: string, ascending: bool)
    requires s != [] && InOrder(x, s[0], field, ascending)
    requires SortedBy(s, field, ascending)
    ensures SortedBy([x] + s, field, ascending)
  {
    var r := [x] + s;
    forall i, j | 0 <= i < j < |r| ensures InOrder(r[i], r[j], field, ascending) {
      if i == 0 && j > 1 {
        InOrderTransitive(x, s[0], s[j - 1], field, ascending);
      } else if i > 0 {
        assert r[i] == s[i - 1] && r[j] == s[j - 1];
      }
    }
  }

  lemma InsertBehind(s: seq<Item>, x: Item, rest: seq<Item>, field: string, ascending: bool)
    requires s != [] && !InOrder(x, s[0], field, ascending)
    requires SortedBy(s, field, ascending)
    requires multiset(rest) == multiset(s[1..]) + multiset{x}
    requires SortedBy(rest, field, ascending)
    ensures SortedBy([s[0]] + rest, field, ascending)
  {
    var r := [s[0]] + rest;
    InOrderTotal(x, s[0], field, ascending);
    forall i, j | 0 <= i < j < |r| ensures InOrder(r[i], r[j], field, ascending) {
      if i == 0 {
        var y := rest[j - 1];
        assert y in multiset(rest);
        if y != x {
          assert y in multiset(s[1..]);
          var m :| 0 <= m < |s[1..]| && s[1..][m] == y;
          assert s[m + 1] == y;
        }
      } else {
        assert r[i] == rest[i - 1] && r[j] == rest[j - 1];
      }
    }
  }

  /**
   * `allProducts.sort(...)` / `searchResults.sort(...)`: the comparator
   * puts `a` after `b` when `a > b` (for `'asc'`) or `a < b` (otherwise).
   * The result is a permutation of the input ordered by the coerced key.
   */
  method SortItems(items: seq<Item>, field: string, order: string) returns (sorted: seq<Item>)
    ensures multiset(sorted) == multiset(items)
    ensures |sorted| == |items|
    ensures SortedBy(sorted, field, order == "asc")
  {
    var ascending := order == "asc";
    sorted := [];
    var i := 0;
    while i < |items|
      invariant 0 <= i <= |items|
      invariant multiset(sorted) == multiset(items[..i])
      invariant SortedBy(sorted, field, ascending)
    {
      assert items[..i + 1] == items[..i] + [items[i]];
      InsertPermutes(sorted, items[i], field, ascending);
      InsertSorted(sorted, items[i], field, ascending);
      sorted := Insert(sorted, items[i], field, ascending);
      i := i + 1;
    }
    assert items[..i] == items;
    assert |sorted| == |multiset(sorted)|;
  }

  /**
   * Text fields compare without regard to case: a product titled "Apple"
   * goes before one titled "banana" in ascending order of `title`, and not
   * the other way round.
   */
  lemma TitleOrderIgnoresCase(apple: Item, banana: Item)
    requires "title" in apple.fields && apple.fields["title"] == Text("Apple", None)
    requires "title" in banana.fields && banana.fields["title"] == Text("banana", None)
    ensures InOrder(apple, banana, "title", true)
    ensures !InOrder(banana, apple, "title", true)
  {
    assert TextKey(apple, "title") == "apple";
    assert TextKey(banana, "title") == "banana";
  }

  /**
   * A product without a rating counts as rated 0 and goes before any
   * product with a positive rating in ascending order.
   */
  lemma MissingRatingSortsFirst(unrated: Item, rated: Item, r: real, text: string)
    requires "rating" !in unrated.fields
    requires "rating" in rated.fields && rated.fields["rating"] == Number(r, text) && r > 0.0
    ensures InOrder(unrated, rated, "rating", true)
    ensures !InOrder(rated, unrated, "rating", true)
  {
  }

  /** `params.order || 'asc'`: the order used when the product page applies an initial sort. */
  function OrderOrDefault(order: string): string
  {
    if order == "" then "asc" else order
  }

  // ---------------------------------------------------------------------
  // The product listing (assets/JS/products.js)
  // ---------------------------------------------------------------------

  /** The "page X of Y" read-out: the numbers last written into it. */
  datatype PageInfo = PageInfo(page: int, totalPages: nat)

  class ProductList {
    var allProducts: seq<Item>
    var currentPage: int
    var totalProducts: nat
    /** The read-out, `None` until `updatePaginationInfo` first writes it. */
    var info: Option<PageInfo>

    /** `totalProducts` is the length of the list it counts. */
    ghost predicate Valid()
      reads this
    {
      totalProducts == |allProducts|
    }

    ghost predicate PageInRange()
      reads this
    {
      1 <= currentPage <= Max(1, TotalPages(totalProducts))
    }

    /** The module state before the first load. */
    constructor ()
      ensures Valid() && PageInRange()
      ensures allProducts == [] && currentPage == 1 && totalProducts == 0 && info == None
    {
      allProducts, currentPage, totalProducts, info := [], 1, 0, None;
    }

    /** `updatePaginationInfo`: writes the current page and the page count. */
    method UpdatePaginationInfo()
      modifies this`info
      ensures info == Some(PageInfo(currentPage, TotalPages(totalProducts)))
    {
      info := Some(PageInfo(currentPage, TotalPages(totalProducts)));
    }

    /**
     * `loadProducts` after the fetch: `response` is the decoded body, or
     * `None` when the fetch threw or the body is `null` (then only an
     * error is shown).  A
     * non-empty `sortBy` applies an initial sort in `order || 'asc'`.  The
     * read-out is written before `currentPage` is reset, so it shows the
     * page number from before the load.
     */
    method Load(response: Option<Payload>, sortBy: string, order: string)
      requires Valid()
      modifies this
      ensures Valid()
      ensures response.None? ==>
        allProducts == old(allProducts) && currentPage == old(currentPage)
        && totalProducts == old(totalProducts) && info == old(info)
      ensures response.Some? ==>
        && multiset(allProducts) == multiset(ProductsFrom(response.value))
        && (sortBy == "" ==> allProducts == ProductsFrom(response.value))
        && (sortBy != "" ==> SortedBy(allProducts, sortBy, OrderOrDefault(order) == "asc"))
        && totalProducts == |ProductsFrom(response.value)|
        && currentPage == 1 && PageInRange()
        && info == Some(PageInfo(old(currentPage), TotalPages(totalProducts)))
    {
      if response.None? {
        return;
      }
      allProducts := ProductsFrom(response.value);
      totalProducts := |allProducts|;
      if sortBy != "" {
        allProducts := SortItems(allProducts, sortBy, OrderOrDefault(order));
      }
      UpdatePaginationInfo();
      currentPage := 1;
    }

    /** `displayPaginatedProducts`: the items of the current page. */
    method PageItems() returns (page: seq<Item>)
      ensures page == PageSlice(allProducts, currentPage)
    {
      page := PageSlice(allProducts, currentPage);
    }

    /** `updatePagination`: the bar, drawn whenever there is a page. */
    method PageWindow() returns (buttons: seq<Button>)
      requires Valid()
      ensures buttons == Pagination(ProductsListing, currentPage, TotalPages(|allProducts|))
    {
      buttons := RenderPagination(ProductsListing, currentPage, TotalPages(totalProducts));
    }

    /**
     * `changePage`: goes to `page` as given, without clamping.  When the
     * page was in range and `page` is one the bar offered, it stays in range.
     */
    method ChangePage(page: int)
      requires Valid()
      modifies this
      ensures Valid()
      ensures currentPage == page
      ensures allProducts == old(allProducts) && totalProducts == old(totalProducts)
      ensures info == Some(PageInfo(page, TotalPages(totalProducts)))
      ensures old(PageInRange()) && Offers(Pagination(ProductsListing, old(currentPage), TotalPages(totalProducts)), page)
        ==> PageInRange()
    {
      if PageInRange() && Offers(Pagination(ProductsListing, currentPage, TotalPages(totalProducts)), page) {
        OfferedTargetsInRange(ProductsListing, currentPage, TotalPages(totalProducts), page);
      }
      currentPage := page;
      UpdatePaginationInfo();
    }

    /** `handleSort`: sorts by the chosen field and order, back to page 1. */
    method Sort(field: string, order: string)
      requires Valid()
      modifies this
      ensures Valid()
      ensures multiset(allProducts) == multiset(old(allProducts))
      ensures SortedBy(allProducts, field, order == "asc")
      ensures totalProducts == old(totalProducts)
      ensures currentPage == 1 && PageInRange()
      ensures info == Some(PageInfo(1, TotalPages(totalProducts)))
    {
      allProducts := SortItems(allProducts, field, order);
      currentPage := 1;
      UpdatePaginationInfo();
    }
  }

  // ---------------------------------------------------------------------
  // The search page (assets/JS/search.js)
  // ---------------------------------------------------------------------

  /**
   * What `performSearch` reports: the search-info line's text, or, for
   * `SearchFailed`, the error shown in place of the results (the info
   * line then keeps its old text).
   */
  datatype SearchInfo =
    | EnterSearchTerm
    | NoProductsFound
    | FoundProducts(count: nat)
    | SearchFailed

  class SearchList {
    var searchResults: seq<Item>
    var currentSearchPage: int
    /** Whether the sort filters panel is displayed. */
    var filtersVisible: bool

    ghost predicate PageInRange()
      reads this
    {
      1 <= currentSearchPage <= Max(1, TotalPages(|searchResults|))
    }

    constructor ()
      ensures PageInRange()
      ensures searchResults == [] && currentSearchPage == 1 && !filtersVisible
    {
      searchResults, currentSearchPage, filtersVisible := [], 1, false;
    }

    /**
     * `performSearch`: a blank query only hides the filters; otherwise
     * `response` is the decoded body, or `None` when the fetch threw or
     * the body is `null`.  A
     * response replaces the results, shows the filters iff there are any,
     * and goes back to page 1.
     */
    method PerformSearch(query: string, response: Option<Payload>) returns (message: SearchInfo)
      modifies this
      ensures Blank(query) ==>
        message == EnterSearchTerm && !filtersVisible
        && searchResults == old(searchResults) && currentSearchPage == old(currentSearchPage)
      ensures !Blank(query) && response.None? ==>
        message == SearchFailed && filtersVisible == old(filtersVisible)
        && searchResults == old(searchResults) && currentSearchPage == old(currentSearchPage)
      ensures !Blank(query) && response.Some? ==>
        && searchResults == SearchResultsFrom(response.value)
        && currentSearchPage == 1 && PageInRange()
        && (filtersVisible <==> |searchResults| > 0)
        && message == (if |searchResults| == 0 then NoProductsFound else FoundProducts(|searchResults|))
    {
      TrimEmptyIffBlank(query);
      if Trim(query) == "" {
        filtersVisible := false;
        return EnterSearchTerm;
      }
      if response.None? {
        return SearchFailed;
      }
      searchResults := SearchResultsFrom(response.value);
      message := if |searchResults| == 0 then NoProductsFound else FoundProducts(|searchResults|);
      filtersVisible := |searchResults| > 0;
      currentSearchPage := 1;
    }

    /** The items of the current page, as `displaySearchResults` slices them. */
    method PageItems() returns (page: seq<Item>)
      ensures page == PageSlice(searchResults, currentSearchPage)
    {
      page := PageSlice(searchResults, currentSearchPage);
    }

    /** `updateSearchPagination`: no buttons at all for at most one page. */
    method PageWindow() returns (buttons: seq<Button>)
      ensures buttons == Pagination(SearchListing, currentSearchPage, TotalPages(|searchResults|))
      ensures TotalPages(|searchResults|) <= 1 ==> buttons == []
    {
      buttons := RenderPagination(SearchListing, currentSearchPage, TotalPages(|searchResults|));
    }

    /** `changeSearchPage`: goes to `page` as given, without clamping. */
    method ChangePage(page: int)
      modifies this`currentSearchPage
      ensures currentSearchPage == page
      ensures old(PageInRange()) && Offers(Pagination(SearchListing, old(currentSearchPage), TotalPages(|searchResults|)), page)
        ==> PageInRange()
    {
      if PageInRange() && Offers(Pagination(SearchListing, currentSearchPage, TotalPages(|searchResults|)), page) {
        OfferedTargetsInRange(SearchListing, currentSearchPage, TotalPages(|searchResults|), page);
      }
      currentSearchPage := page;
    }

    /** `sortSearchResults`: sorts by the chosen field and order, back to page 1. */
    method Sort(field: string, order: string)
      modifies this`searchResults, this`currentSearchPage
      ensures multiset(searchResults) == multiset(old(searchResults))
      ensures |searchResults| == |old(searchResults)|
      ensures SortedBy(searchResults, field, order == "asc")
      ensures currentSearchPage == 1 && PageInRange()
    {
      searchResults := SortItems(searchResults, field, order);
      currentSearchPage := 1;
    }
  }
}
