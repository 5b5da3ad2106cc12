/** The store listing of frontend/js/stores.js: the search and category
    filter (`applyFilters` and its twin `filterStores`), the twelve-per-page
    slice `displayStores` shows, the pagination buttons
    (`updatePaginationUI`) and `nextPage`/`previousPage`. */
module StoresPage {
  import opened Common
  import opened Text

  /** A store as the listing reads it. */
  datatype Store = Store(id: string, storeName: string, description: Option<string>, category: string)

  const ItemsPerPage: nat := 12

  /** The search box's value as the filter uses it: trimmed, then lower-cased. */
  function SearchTerm(input: string): (term: string)
    ensures |term| <= |input|
    ensures term == [] || (!IsWhitespace(term[0]) && !IsWhitespace(term[|term| - 1]))
    ensures forall i :: 0 <= i < |term| ==> !('A' <= term[i] <= 'Z')
  {
    var t := Trim(input);
    LowerKeepsTrimmed(t);
    Lower(t)
  }

  /** The name, or a present description, contains the term (after
      lower-casing); and the category filter is empty or equal to the
      store's category. */
  predicate StoreMatches(s: Store, term: string, category: string) {
    && (Contains(Lower(s.storeName), term)
        || (Truthy(s.description) && Contains(Lower(s.description.value), term)))
    && (category == "" || s.category == category)
  }

  /** `allStores.filter(...)` with the search box and category select. */
  function FilterStores(stores: seq<Store>, searchInput: string, category: string): (r: seq<Store>)
    ensures |r| <= |stores|
    ensures forall i :: 0 <= i < |r| ==> r[i] in stores && StoreMatches(r[i], SearchTerm(searchInput), category)
    ensures forall i :: 0 <= i < |stores| && StoreMatches(stores[i], SearchTerm(searchInput), category) ==> stores[i] in r
  {
    var term := SearchTerm(searchInput);
    Filter(stores, (s: Store) => StoreMatches(s, term, category))
  }

  /** Filtering keeps the stores' order: filtering two lists one after the
      other is filtering their concatenation. */
  lemma FilterStoresKeepsOrder(a: seq<Store>, b: seq<Store>, searchInput: string, category: string)
    ensures FilterStores(a + b, searchInput, category)
            == FilterStores(a, searchInput, category) + FilterStores(b, searchInput, category)
  {
    var term := SearchTerm(searchInput);
    FilterConcat(a, b, (s: Store) => StoreMatches(s, term, category));
  }

  /** A search box holding only whitespace searches for "". */
  lemma BlankSearchTerm(searchInput: string)
    requires AllWhitespace(searchInput)
    ensures SearchTerm(searchInput) == ""
  {
    assert searchInput + "" + "" == searchInput;
    TrimIgnoresPadding(searchInput, "", "");
  }

  /** A blank search box and no category show every store. */
  lemma BlankFiltersKeepAll(stores: seq<Store>, searchInput: string)
    requires AllWhitespace(searchInput)
    ensures FilterStores(stores, searchInput, "") == stores
  {
    var term := SearchTerm(searchInput);
    BlankSearchTerm(searchInput);
    forall i | 0 <= i < |stores| ensures StoreMatches(stores[i], term, "") {
      ContainsEmpty(Lower(stores[i].storeName));
    }
    FilterKeepsAll(stores, (s: Store) => StoreMatches(s, term, ""));
  }

  // ---------------------------------------------------------------------
  // Pagination

  /** `Math.ceil(n / itemsPerPage)`. */
  function TotalPages(n: nat): (t: nat)
    ensures t * ItemsPerPage >= n
    ensures t > 0 ==> (t - 1) * ItemsPerPage < n
    ensures t == 0 <==> n == 0
  {
    (n + ItemsPerPage - 1) / ItemsPerPage
  }

  /** The pages the buttons can reach: 1 up to the page count, and page 1
      when there are no results. */
  predicate PageInRange(page: int, n: nat) {
    1 <= page && (page == 1 || page <= TotalPages(n))
  }

  /** `items.slice((page - 1) * 12, (page - 1) * 12 + 12)`, with `slice`'s
      clamping to the length. */
  function PageSlice<T>(items: seq<T>, page: int): (r: seq<T>)
    requires page >= 1
    ensures |r| <= ItemsPerPage
    ensures var start := (page - 1) * ItemsPerPage;
            && |r| == (if start >= |items| then 0 else if |items| - start < ItemsPerPage then |items| - start else ItemsPerPage)
            && forall i :: 0 <= i < |r| ==> r[i] == items[start + i]
  {
    var start := (page - 1) * ItemsPerPage;
    var end := start + ItemsPerPage;
    if start >= |items| then []
    else if end > |items| then items[start..]
    else items[start..end]
  }

  /** Every result is on exactly one reachable page: item `i` is entry
      `i % 12` of page `i / 12 + 1`. */
  lemma EveryItemOnItsPage<T>(items: seq<T>, i: int)
    requires 0 <= i < |items|
    ensures PageInRange(i / ItemsPerPage + 1, |items|)
    ensures var slice := PageSlice(items, i / ItemsPerPage + 1);
            i % ItemsPerPage < |slice| && slice[i % ItemsPerPage] == items[i]
  {
    var q, r := i / ItemsPerPage, i % ItemsPerPage;
    assert i == q * ItemsPerPage + r && 0 <= r < ItemsPerPage;
    var t := TotalPages(|items|);
    assert q * ItemsPerPage <= i < |items| <= t * ItemsPerPage;
    assert q < t;
    var slice := PageSlice(items, q + 1);
    assert |slice| > r;
    assert slice[r] == items[q * ItemsPerPage + r];
  }

  /** A reachable page of a non-empty result list is never blank. */
  lemma ReachablePageNotEmpty<T>(items: seq<T>, page: int)
    requires items != [] && PageInRange(page, |items|)
    ensures PageSlice(items, page) != []
  {
  }

  /** The Previous button shows iff `page > 1`, Next iff `page < totalPages`. */
  predicate ShowPrevious(page: int) { page > 1 }
  predicate ShowNext(page: int, n: nat) { page < TotalPages(n) }

  /** `nextPage()`: moves on only while there is a next page. */
  function NextPage(page: int, n: nat): (p: int)
    ensures ShowNext(page, n) ==> p == page + 1
    ensures !ShowNext(page, n) ==> p == page
  {
    if page < TotalPages(n) then page + 1 else page
  }

  /** `previousPage()`: moves back only while past the first page. */
  function PreviousPage(page: int): (p: int)
    ensures ShowPrevious(page) ==> p == page - 1
    ensures !ShowPrevious(page) ==> p == page
  {
    if page > 1 then page - 1 else page
  }

  /** The buttons never leave the reachable range. */
  lemma ButtonsKeepPageInRange(page: int, n: nat)
    requires PageInRange(page, n)
    ensures PageInRange(NextPage(page, n), n)
    ensures PageInRange(PreviousPage(page), n)
  {
  }

  /** The listing's state: all stores, the filtered ones, the current page. */
  datatype Listing = Listing(all: seq<Store>, filtered: seq<Store>, page: int)

  predicate ListingOk(l: Listing) {
    PageInRange(l.page, |l.filtered|)
  }

  /** `applyFilters()` / `filterStores()`: re-filter and go back to page 1. */
  function ApplyFilters(l: Listing, searchInput: string, category: string): (r: Listing)
    ensures r.all == l.all && r.page == 1 && ListingOk(r)
    ensures r.filtered == FilterStores(l.all, searchInput, category)
  {
    Listing(l.all, FilterStores(l.all, searchInput, category), 1)
  }

  /** A button press: `true` for Next, `false` for Previous. */
  method PressButtons(l: Listing, presses: seq<bool>) returns (r: Listing)
    requires ListingOk(l)
    ensures r.all == l.all && r.filtered == l.filtered
    ensures ListingOk(r)
    ensures |l.filtered| > 0 ==> PageSlice(r.filtered, r.page) != []
  {
    r := l;
    var i := 0;
    while i < |presses|
      invariant 0 <= i <= |presses|
      invariant r.all == l.all && r.filtered == l.filtered
      invariant ListingOk(r)
    {
      ButtonsKeepPageInRange(r.page, |r.filtered|);
      if presses[i] {
        r := r.(page := NextPage(r.page, |r.filtered|));
      } else {
        r := r.(page := PreviousPage(r.page));
      }
      i := i + 1;
    }
    if |l.filtered| > 0 {
      ReachablePageNotEmpty(r.filtered, r.page);
    }
  }
}
