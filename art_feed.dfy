/** The client-side artwork feed (components/art-feed.tsx): the fetched
    artworks are filtered by the search box, category, price and year ranges,
    sorted by the chosen order, and cut into pages of twelve.

    Prices, years and timestamps are integers (milliseconds for `createdAt`);
    lower-casing is ASCII. The sort is `Array.prototype.sort`, which is stable;
    it is specified here by a reference insertion sort on the comparator's key. */
module ArtFeed {
  import opened Common
  import opened Sorting

  const ItemsPerPage: nat := 12

  /** An artwork as the feed receives it from the artwork list API. */
  datatype FeedArtwork = FeedArtwork(
    id: nat,
    title: string,
    description: string,
    price: int,
    createdAt: int,
    category: string,
    year: Option<int>,
    artistName: Option<string>)

  /** The filter and sort controls. `year` is falsy when missing or 0. */
  datatype Criteria = Criteria(
    searchQuery: string,
    category: string,
    priceLow: int,
    priceHigh: int,
    yearLow: int,
    yearHigh: int,
    sortBy: string)

  // ---------------------------------------------------------------------
  // Filtering

  predicate MatchesSearch(a: FeedArtwork, query: string) {
    var q := ToLower(query);
    || Contains(ToLower(a.title), q)
    || (a.artistName.Some? && Contains(ToLower(a.artistName.value), q))
    || Contains(ToLower(a.description), q)
  }

  predicate MatchesCategory(a: FeedArtwork, category: string) {
    category == "all" || a.category == category
  }

  predicate MatchesPrice(a: FeedArtwork, low: int, high: int) {
    low <= a.price <= high
  }

  predicate MatchesYear(a: FeedArtwork, low: int, high: int) {
    if a.year.Some? && a.year.value != 0 then low <= a.year.value <= high else true
  }

  predicate Matches(a: FeedArtwork, c: Criteria) {
    && MatchesSearch(a, c.searchQuery)
    && MatchesCategory(a, c.category)
    && MatchesPrice(a, c.priceLow, c.priceHigh)
    && MatchesYear(a, c.yearLow, c.yearHigh)
  }

  /** `filteredArtworks`. */
  function FilterArtworks(artworks: seq<FeedArtwork>, c: Criteria): seq<FeedArtwork> {
    Filter(artworks, (a: FeedArtwork) => Matches(a, c))
  }

  /** The filtered list keeps the artworks meeting every criterion, in their order. */
  lemma FilterArtworksSpec(artworks: seq<FeedArtwork>, c: Criteria, a: FeedArtwork)
    ensures a in FilterArtworks(artworks, c) <==> a in artworks && Matches(a, c)
    ensures SubsequenceOf(FilterArtworks(artworks, c), artworks)
  {
    FilterMembership(artworks, (x: FeedArtwork) => Matches(x, c), a);
    FilterIsSubsequence(artworks, (x: FeedArtwork) => Matches(x, c));
  }

  /** The empty query lets every artwork through the search test. */
  lemma EmptyQueryMatches(a: FeedArtwork)
    ensures MatchesSearch(a, "")
  {
    ContainsEmpty(ToLower(a.title));
  }

  /** With the controls at "all", a search of "" and ranges that cover every
      price and year, nothing is filtered out. */
  lemma OpenCriteriaKeepAll(artworks: seq<FeedArtwork>, c: Criteria)
    requires c.searchQuery == "" && c.category == "all"
    requires forall a :: a in artworks ==> MatchesPrice(a, c.priceLow, c.priceHigh) && MatchesYear(a, c.yearLow, c.yearHigh)
    ensures FilterArtworks(artworks, c) == artworks
  {
    forall a | a in artworks ensures Matches(a, c) {
      EmptyQueryMatches(a);
    }
    FilterKeepsAll(artworks, (x: FeedArtwork) => Matches(x, c));
  }

  /** An artwork without a year, or with year 0, passes any year range. */
  lemma FalsyYearPasses(a: FeedArtwork, low: int, high: int)
    requires a.year.None? || a.year == Some(0)
    ensures MatchesYear(a, low, high)
  {
  }

  // ---------------------------------------------------------------------
  // Sorting

  /** The comparator of `sortedArtworks` is `Key(a) - Key(b)`: ascending in this key. */
  function Key(a: FeedArtwork, sortBy: string): int {
    if sortBy == "newest" then -a.createdAt
    else if sortBy == "oldest" then a.createdAt
    else if sortBy == "price-high" then -a.price
    else if sortBy == "price-low" then a.price
    else 0
  }

  /** The comparator as the source writes it, one case per sort option. */
  function Compare(a: FeedArtwork, b: FeedArtwork, sortBy: string): (r: int)
    ensures r == Key(a, sortBy) - Key(b, sortBy)
  {
    match sortBy
    case "newest" => b.createdAt - a.createdAt
    case "oldest" => a.createdAt - b.createdAt
    case "price-high" => b.price - a.price
    case "price-low" => a.price - b.price
    case _ => 0
  }

  /** `sortedArtworks`: a stable sort of the filtered list by the comparator. */
  function SortArtworks(items: seq<FeedArtwork>, sortBy: string): seq<FeedArtwork> {
    SortByKey(items, (a: FeedArtwork) => Key(a, sortBy))
  }

  /** The sorted list is a permutation of its input, ordered by the chosen key:
      newest first, oldest first, most expensive first or cheapest first;
      an unknown option ties every pair and so keeps the input order. */
  lemma SortArtworksSpec(items: seq<FeedArtwork>, sortBy: string)
    ensures multiset(SortArtworks(items, sortBy)) == multiset(items)
    ensures var s := SortArtworks(items, sortBy);
      && (sortBy == "newest" ==> forall i, j :: 0 <= i < j < |s| ==> s[i].createdAt >= s[j].createdAt)
      && (sortBy == "oldest" ==> forall i, j :: 0 <= i < j < |s| ==> s[i].createdAt <= s[j].createdAt)
      && (sortBy == "price-high" ==> forall i, j :: 0 <= i < j < |s| ==> s[i].price >= s[j].price)
      && (sortBy == "price-low" ==> forall i, j :: 0 <= i < j < |s| ==> s[i].price <= s[j].price)
    ensures sortBy !in {"newest", "oldest", "price-high", "price-low"} ==> SortArtworks(items, sortBy) == items
  {
    var key := (a: FeedArtwork) => Key(a, sortBy);
    SortByKeySorted(items, key);
    if sortBy !in {"newest", "oldest", "price-high", "price-low"} {
      ConstantKeyKeepsOrder(items, key, 0);
    }
  }

  /** Artworks the comparator ties (same timestamp, same price) keep their
      relative order: `Array.prototype.sort` is stable. */
  lemma SortArtworksStable(items: seq<FeedArtwork>, sortBy: string, k: int)
    ensures WithKey(SortArtworks(items, sortBy), (a: FeedArtwork) => Key(a, sortBy), k)
      == WithKey(items, (a: FeedArtwork) => Key(a, sortBy), k)
  {
    SortByKeyStable(items, (a: FeedArtwork) => Key(a, sortBy), k);
  }

  // ---------------------------------------------------------------------
  // Pagination

  /** `Math.ceil(n / itemsPerPage)`. */
  function TotalPages(n: nat): (r: nat)
    ensures (r - 1) * ItemsPerPage < n <= r * ItemsPerPage || (n == 0 && r == 0)
  {
    (n + ItemsPerPage - 1) / ItemsPerPage
  }

  /** An index of `Array.prototype.slice`: a negative one counts from the end, and both are clamped. */
  function SliceIndex(i: int, len: nat): (r: nat)
    ensures r <= len
  {
    if i < 0 then (if len + i < 0 then 0 else len + i) else if i > len then len else i
  }

  /** `s.slice(start, end)`. */
  function JsSlice<T>(s: seq<T>, start: int, end: int): seq<T> {
    var a, b := SliceIndex(start, |s|), SliceIndex(end, |s|);
    if a < b then s[a..b] else []
  }

  /** `paginatedArtworks`: the slice `[(page - 1) * 12, page * 12)`. */
  function PageItems<T>(s: seq<T>, page: int): seq<T> {
    JsSlice(s, (page - 1) * ItemsPerPage, page * ItemsPerPage)
  }

  /** A page never shows more than twelve artworks; pages 1 to `TotalPages`
      are never empty, and the page after the last is. */
  lemma PageItemsBounds<T>(s: seq<T>, page: int)
    ensures |PageItems(s, page)| <= ItemsPerPage
    ensures 1 <= page <= TotalPages(|s|) ==> PageItems(s, page) != []
    ensures page == TotalPages(|s|) + 1 ==> PageItems(s, page) == []
  {
  }

  /** Every artwork is on exactly the page its position says: position `i`
      is entry `i % 12` of page `i / 12 + 1`. */
  lemma PageOfIndex<T>(s: seq<T>, i: nat)
    requires i < |s|
    ensures i / ItemsPerPage + 1 <= TotalPages(|s|)
    ensures var p := PageItems(s, i / ItemsPerPage + 1);
      i % ItemsPerPage < |p| && p[i % ItemsPerPage] == s[i]
  {
    var q := i / ItemsPerPage;
    assert q * ItemsPerPage <= i < (q + 1) * ItemsPerPage;
  }

  // ---------------------------------------------------------------------
  // The component's state

  /** The controls of the feed and the page shown. `selectedDistance` is set
      and reset but used by no filter. */
  class FeedState {
    var searchQuery: string
    var selectedCategory: string
    var selectedDistance: string
    var priceLow: int
    var priceHigh: int
    var yearLow: int
    var yearHigh: int
    var sortBy: string
    var page: int

    /** The criteria the filter and the sort read. */
    function Current(): (c: Criteria)
      reads this
      ensures c.searchQuery == searchQuery && c.category == selectedCategory && c.sortBy == sortBy
      ensures c.priceLow == priceLow && c.priceHigh == priceHigh && c.yearLow == yearLow && c.yearHigh == yearHigh
    {
      Criteria(searchQuery, selectedCategory, priceLow, priceHigh, yearLow, yearHigh, sortBy)
    }

    /** `paginatedArtworks`: the current page of the filtered, sorted list. */
    function Shown(artworks: seq<FeedArtwork>): seq<FeedArtwork>
      reads this
    {
      PageItems(SortArtworks(FilterArtworks(artworks, Current()), sortBy), page)
    }

    /** `totalPages` of the filtered list. */
    function Pages(artworks: seq<FeedArtwork>): nat
      reads this
    {
      TotalPages(|FilterArtworks(artworks, Current())|)
    }

    predicate AtDefaults(currentYear: int)
      reads this
    {
      && searchQuery == "" && selectedCategory == "all" && selectedDistance == "25"
      && priceLow == 0 && priceHigh == 10000 && yearLow == 1900 && yearHigh == currentYear
      && sortBy == "newest" && page == 1
    }

    /** The initial state: everything shown, newest first, first page. */
    constructor (currentYear: int)
      ensures AtDefaults(currentYear)
    {
      searchQuery, selectedCategory, selectedDistance := "", "all", "25";
      priceLow, priceHigh, yearLow, yearHigh := 0, 10000, 1900, currentYear;
      sortBy, page := "newest", 1;
    }

    /** `handleSearch`. */
    method Search(value: string)
      modifies this
      ensures searchQuery == value && page == 1
      ensures selectedCategory == old(selectedCategory) && selectedDistance == old(selectedDistance)
      ensures priceLow == old(priceLow) && priceHigh == old(priceHigh)
      ensures yearLow == old(yearLow) && yearHigh == old(yearHigh) && sortBy == old(sortBy)
    {
      searchQuery := value;
      page := 1;
    }

    /** `handleCategoryChange`. */
    method ChangeCategory(value: string)
      modifies this
      ensures selectedCategory == value && page == 1
      ensures searchQuery == old(searchQuery) && selectedDistance == old(selectedDistance)
      ensures priceLow == old(priceLow) && priceHigh == old(priceHigh)
      ensures yearLow == old(yearLow) && yearHigh == old(yearHigh) && sortBy == old(sortBy)
    {
      selectedCategory := value;
      page := 1;
    }

    /** `handlePriceRangeChange`. */
    method ChangePriceRange(low: int, high: int)
      modifies this
      ensures priceLow == low && priceHigh == high && page == 1
      ensures searchQuery == old(searchQuery) && selectedCategory == old(selectedCategory)
      ensures selectedDistance == old(selectedDistance)
      ensures yearLow == old(yearLow) && yearHigh == old(yearHigh) && sortBy == old(sortBy)
    {
      priceLow, priceHigh := low, high;
      page := 1;
    }

    /** `handleYearRangeChange`. */
    method ChangeYearRange(low: int, high: int)
      modifies this
      ensures yearLow == low && yearHigh == high && page == 1
      ensures searchQuery == old(searchQuery) && selectedCategory == old(selectedCategory)
      ensures selectedDistance == old(selectedDistance)
      ensures priceLow == old(priceLow) && priceHigh == old(priceHigh) && sortBy == old(sortBy)
    {
      yearLow, yearHigh := low, high;
      page := 1;
    }

    /** `handleSortChange`. */
    method ChangeSort(value: string)
      modifies this
      ensures sortBy == value && page == 1
      ensures searchQuery == old(searchQuery) && selectedCategory == old(selectedCategory)
      ensures selectedDistance == old(selectedDistance)
      ensures priceLow == old(priceLow) && priceHigh == old(priceHigh)
      ensures yearLow == old(yearLow) && yearHigh == old(yearHigh)
    {
      sortBy := value;
      page := 1;
    }

    /** `clearFilters`: back to the initial state. */
    method ClearFilters(currentYear: int)
      modifies this
      ensures AtDefaults(currentYear)
    {
      searchQuery, selectedCategory, selectedDistance := "", "all", "25";
      priceLow, priceHigh, yearLow, yearHigh := 0, 10000, 1900, currentYear;
      sortBy, page := "newest", 1;
    }

    /** The "Previous" control: disabled on page 1. */
    method PreviousPage()
      modifies this
      ensures page == if old(page) == 1 then 1 else old(page) - 1
      ensures Current() == old(Current()) && selectedDistance == old(selectedDistance)
    {
      if page != 1 {
        page := page - 1;
      }
    }

    /** The "Next" control: disabled on the last page. */
    method NextPage(artworks: seq<FeedArtwork>)
      modifies this
      ensures page == if old(page) == old(Pages(artworks)) then old(page) else old(page) + 1
      ensures Current() == old(Current()) && selectedDistance == old(selectedDistance)
    {
      if page != Pages(artworks) {
        page := page + 1;
      }
    }

    /** A numbered page link, shown for pages 1 to `totalPages`. */
    method GoToPage(artworks: seq<FeedArtwork>, target: int)
      modifies this
      requires 1 <= target <= Pages(artworks)
      ensures page == target
      ensures Current() == old(Current()) && selectedDistance == old(selectedDistance)
    {
      page := target;
    }
  }

  /** The page shown after any filter change, or at start, is the first
      twelve of the filtered, sorted list. */
  lemma FirstPageShown(state: FeedState, artworks: seq<FeedArtwork>)
    requires state.page == 1
    ensures var all := SortArtworks(FilterArtworks(artworks, state.Current()), state.sortBy);
      state.Shown(artworks) == all[..if |all| < ItemsPerPage then |all| else ItemsPerPage]
  {
  }

  /** Walking with "Next" from page 1 never leaves the pages that hold
      artworks: a page from 1 to `totalPages` is never empty. */
  lemma PageInRangeNotEmpty(state: FeedState, artworks: seq<FeedArtwork>)
    requires 1 <= state.page <= state.Pages(artworks)
    ensures state.Shown(artworks) != []
  {
    var c := state.Current();
    var all := SortArtworks(FilterArtworks(artworks, c), state.sortBy);
    var sortBy := state.sortBy;
    SortByKeyLength(FilterArtworks(artworks, c), (a: FeedArtwork) => Key(a, sortBy));
    PageItemsBounds(all, state.page);
  }
}
