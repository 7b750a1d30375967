/**
 * The filter state of the storefront product list
 * (`src/pages/user/ProductsPage.jsx`): the query sent to the server, the
 * filter, page, sort and search transitions, and the "showing x - y of n"
 * range.
 */
module ProductsPage {
  import opened Wrappers
  import opened Text

  /** The filter object; page and limit are numbers, the rest strings. */
  datatype Filters = Filters(
    page: int, limit: int,
    category: string, search: string, minPrice: string, maxPrice: string,
    sortBy: string, sortOrder: string)

  const DEFAULT_FILTERS := Filters(1, 12, "", "", "", "", "createdAt", "desc")

  /** The filters a user edits through `handleFilterChange`. */
  datatype TextFilter = Category | Search | MinPrice | MaxPrice

  function Get(f: Filters, k: TextFilter): string {
    match k
    case Category => f.category
    case Search => f.search
    case MinPrice => f.minPrice
    case MaxPrice => f.maxPrice
  }

  function KeyName(k: TextFilter): string {
    match k
    case Category => "category"
    case Search => "search"
    case MinPrice => "minPrice"
    case MaxPrice => "maxPrice"
  }

  // ---------------------------------------------------------------- the query

  datatype ParamValue = Number(n: int) | Text(s: string)

  /** The query keys; `Filter` are the four that are dropped when ''. */
  datatype Key = Page | Limit | Filter(k: TextFilter) | SortBy | SortOrder
  type Param = (Key, ParamValue)

  /** `Object.entries(filters)`, in the order the keys were declared. */
  function Entries(f: Filters): seq<Param> {
    [(Page, Number(f.page)), (Limit, Number(f.limit)),
     (Filter(Category), Text(f.category)), (Filter(Search), Text(f.search)),
     (Filter(MinPrice), Text(f.minPrice)), (Filter(MaxPrice), Text(f.maxPrice)),
     (SortBy, Text(f.sortBy)), (SortOrder, Text(f.sortOrder))]
  }

  /** page, limit, sortBy and sortOrder are always kept; the rest only when not ''. */
  predicate Kept(p: Param) {
    !p.0.Filter? || p.1 != Text("")
  }

  /** The entry filter, keeping order. */
  function KeepEntries(ps: seq<Param>): seq<Param> {
    if ps == [] then [] else (if Kept(ps[0]) then [ps[0]] else []) + KeepEntries(ps[1..])
  }

  /** An entry survives the filter exactly when it was there and is kept. */
  lemma {:induction false} KeepEntriesMembers(ps: seq<Param>, p: Param)
    ensures p in KeepEntries(ps) <==> p in ps && Kept(p)
  {
    if ps != [] {
      KeepEntriesMembers(ps[1..], p);
      assert ps == [ps[0]] + ps[1..];
    }
  }

  /** The cleaned query sent with the product request. */
  function CleanedQuery(f: Filters): seq<Param> {
    KeepEntries(Entries(f))
  }

  /** The four fixed keys are always sent; a text filter is sent exactly when it is not ''. */
  lemma CleanedQueryContents(f: Filters, k: TextFilter)
    ensures (Page, Number(f.page)) in CleanedQuery(f) && (Limit, Number(f.limit)) in CleanedQuery(f)
    ensures (SortBy, Text(f.sortBy)) in CleanedQuery(f) && (SortOrder, Text(f.sortOrder)) in CleanedQuery(f)
    ensures (Filter(k), Text(Get(f, k))) in CleanedQuery(f) <==> Get(f, k) != ""
  {
    var e := Entries(f);
    KeepEntriesMembers(e, e[0]);
    KeepEntriesMembers(e, e[1]);
    KeepEntriesMembers(e, e[6]);
    KeepEntriesMembers(e, e[7]);
    var i := match k case Category => 2 case Search => 3 case MinPrice => 4 case MaxPrice => 5;
    assert e[i] == (Filter(k), Text(Get(f, k)));
    KeepEntriesMembers(e, e[i]);
  }

  /** The query keeps the entries' order: the fixed keys frame the kept text filters. */
  lemma CleanedQueryOrder(f: Filters)
    ensures CleanedQuery(f) == [(Page, Number(f.page)), (Limit, Number(f.limit))]
      + KeepEntries(Entries(f)[2..6]) + [(SortBy, Text(f.sortBy)), (SortOrder, Text(f.sortOrder))]
  {
    var e := Entries(f);
    assert e == [e[0], e[1]] + e[2..6] + [e[6], e[7]];
    KeepFrame(e[0], e[1], e[2..6], e[6], e[7]);
  }

  lemma KeepFrame(a: Param, b: Param, m: seq<Param>, c: Param, d: Param)
    requires Kept(a) && Kept(b) && Kept(c) && Kept(d)
    ensures KeepEntries([a, b] + m + [c, d]) == [a, b] + KeepEntries(m) + [c, d]
  {
    KeepAppend([a, b] + m, [c, d]);
    KeepAppend([a, b], m);
    assert [a, b][1..] == [b] && [b][1..] == [];
    assert [c, d][1..] == [d] && [d][1..] == [];
  }

  lemma {:induction false} KeepAppend(a: seq<Param>, b: seq<Param>)
    ensures KeepEntries(a + b) == KeepEntries(a) + KeepEntries(b)
  {
    if a != [] {
      assert (a + b)[1..] == a[1..] + b;
      KeepAppend(a[1..], b);
    } else {
      assert a + b == b;
    }
  }

  // ---------------------------------------------------------------- transitions

  /** `handleFilterChange`: one filter changes and the page goes back to 1. */
  function FilterChange(f: Filters, k: TextFilter, v: string): (g: Filters)
    ensures g.page == 1 && Get(g, k) == v
    ensures forall k' :: k' != k ==> Get(g, k') == Get(f, k')
    ensures g.limit == f.limit && g.sortBy == f.sortBy && g.sortOrder == f.sortOrder
  {
    match k
    case Category => f.(category := v, page := 1)
    case Search => f.(search := v, page := 1)
    case MinPrice => f.(minPrice := v, page := 1)
    case MaxPrice => f.(maxPrice := v, page := 1)
  }

  /** The debounced search: the settled input becomes the `search` filter, on page 1. */
  function SearchSettled(f: Filters, input: string): Filters {
    f.(search := input, page := 1)
  }

  lemma SearchSettledIsFilterChange(f: Filters, input: string)
    ensures SearchSettled(f, input) == FilterChange(f, Search, input)
  {
  }

  /** `handlePageChange`: only the page changes. */
  function PageChange(f: Filters, page: int): (g: Filters)
    ensures g.page == page && g.(page := f.page) == f
  {
    f.(page := page)
  }

  /** The value of the sort selector. */
  function SortValue(f: Filters): string {
    f.sortBy + "-" + f.sortOrder
  }

  const SORT_OPTIONS := ["createdAt-desc", "createdAt-asc", "price-asc", "price-desc", "name-asc", "name-desc"]

  /** The sort selector's change handler: split on '-', take the two halves, go back to page 1. */
  function SortChange(f: Filters, value: string): Filters
    requires |Split(value, '-')| >= 2
  {
    var parts := Split(value, '-');
    f.(sortBy := parts[0], sortOrder := parts[1], page := 1)
  }

  predicate NoDash(s: string) { forall i :: 0 <= i < |s| ==> s[i] != '-' }

  /** Selecting the option that shows the current sort gives back the same sort, on page 1. */
  lemma SortRoundTrip(f: Filters)
    requires NoDash(f.sortBy) && NoDash(f.sortOrder)
    ensures |Split(SortValue(f), '-')| >= 2
    ensures SortChange(f, SortValue(f)) == f.(page := 1)
  {
    SplitAtSeparator(f.sortBy, '-', f.sortOrder);
    SplitNoSeparator(f.sortOrder, '-');
    assert SortValue(f) == f.sortBy + ['-'] + f.sortOrder;
  }

  /** Each of the six options splits into a sort key and an order that display as that option again. */
  lemma SortOptionsRoundTrip(f: Filters, option: string)
    requires option in SORT_OPTIONS
    ensures |Split(option, '-')| >= 2
    ensures SortValue(SortChange(f, option)) == option
    ensures SortChange(f, option).page == 1
  {
    var key, order := OptionParts(option);
    var g := f.(sortBy := key, sortOrder := order);
    SortRoundTrip(g);
    assert SortValue(g) == option;
  }

  /** The sort key and order that an option is made of; neither holds a '-'. */
  lemma OptionParts(option: string) returns (key: string, order: string)
    requires option in SORT_OPTIONS
    ensures NoDash(key) && NoDash(order) && key + "-" + order == option
  {
    var k :| 0 <= k < |SORT_OPTIONS| && SORT_OPTIONS[k] == option;
    key := if k < 2 then "createdAt" else if k < 4 then "price" else "name";
    order := if k in {0, 3, 5} then "desc" else "asc";
  }

  // ---------------------------------------------------------------- the search box

  /**
   * The page's state: the text in the search box, the filters, and the
   * debounce timer, if one is waiting, with the input it will settle.
   */
  datatype ListState = ListState(searchInput: string, filters: Filters, pendingSearch: Option<string>)

  /** A waiting timer always settles the text currently in the box. */
  predicate TimerTracksInput(s: ListState) {
    s.pendingSearch.Some? ==> s.pendingSearch.value == s.searchInput
  }

  /**
   * The effect keyed on the search input: when the input changes, the old
   * timer is cleared and a new one is set for the new input; an unchanged
   * input leaves the timer as it was.
   */
  function SetSearchInput(s: ListState, input: string): ListState {
    if input == s.searchInput then s
    else s.(searchInput := input, pendingSearch := Some(input))
  }

  /** The timer fires: its input becomes the `search` filter, on page 1. */
  function TimerFires(s: ListState): ListState {
    if s.pendingSearch.None? then s
    else s.(filters := SearchSettled(s.filters, s.pendingSearch.value), pendingSearch := None)
  }

  /** `handlePageChange` on the page state. */
  function ListPageChange(s: ListState, page: int): ListState {
    s.(filters := PageChange(s.filters, page))
  }

  /** "Clear Filters": the search box is emptied, then the initial filter object is set. */
  function ClearFilters(s: ListState): (r: ListState)
    ensures r.searchInput == "" && r.filters == DEFAULT_FILTERS
    ensures TimerTracksInput(s) ==> TimerTracksInput(r)
  {
    SetSearchInput(s, "").(filters := DEFAULT_FILTERS)
  }

  /**
   * Clearing leaves the defaults in place once the search timer has settled:
   * the timer it may start settles "" on page 1, which is what the defaults
   * already hold.
   */
  lemma ClearSettlesToDefaults(s: ListState)
    requires TimerTracksInput(s)
    ensures SearchSettled(DEFAULT_FILTERS, "") == DEFAULT_FILTERS
    ensures TimerFires(ClearFilters(s)).filters == DEFAULT_FILTERS
    ensures TimerFires(ClearFilters(s)).searchInput == "" && TimerFires(ClearFilters(s)).pendingSearch.None?
  {
  }

  /**
   * When the box held text, clearing starts a timer, and a page change made
   * before it fires is undone: the settled search sends the list back to
   * page 1. With an empty box and no timer waiting, the page change stays.
   */
  lemma PageChangeAfterClear(s: ListState, page: int)
    requires TimerTracksInput(s)
    ensures s.searchInput != "" ==> TimerFires(ListPageChange(ClearFilters(s), page)).filters == DEFAULT_FILTERS
    ensures s.searchInput == "" && s.pendingSearch.None? ==>
      TimerFires(ListPageChange(ClearFilters(s), page)).filters == DEFAULT_FILTERS.(page := page)
  {
  }

  /** After clearing, only page 1, limit 12 and the newest-first sort are sent. */
  lemma ClearedQuery(s: ListState)
    ensures CleanedQuery(ClearFilters(s).filters) == [(Page, Number(1)), (Limit, Number(12)), (SortBy, Text("createdAt")), (SortOrder, Text("desc"))]
  {
    var g := ClearFilters(s).filters;
    CleanedQueryOrder(g);
    var m := Entries(g)[2..6];
    assert KeepEntries(m) == [] by {
      assert m[1..][1..][1..][1..] == [];
    }
  }

  // ---------------------------------------------------------------- shown range

  /** The "Showing from - to of total" line, present only when total > 0. */
  function ShownRange(page: int, limit: int, total: int): Option<(int, int)> {
    if total > 0 then Some(((page - 1) * limit + 1, if page * limit < total then page * limit else total))
    else None
  }

  /**
   * On a page that exists, the range lies within 1..total, covers at most
   * `limit` items, and the next page starts right after it.
   */
  lemma ShownRangeBounds(page: int, limit: int, total: int)
    requires page >= 1 && limit >= 1 && (page - 1) * limit < total
    ensures ShownRange(page, limit, total).Some?
    ensures var (lo, hi) := ShownRange(page, limit, total).value;
      1 <= lo <= hi <= total && hi - lo < limit
    ensures page * limit < total ==>
      ShownRange(page + 1, limit, total).value.0 == ShownRange(page, limit, total).value.1 + 1
  {
    assert page * limit == (page - 1) * limit + limit;
    assert (page + 1 - 1) * limit == page * limit;
    assert (page - 1) * limit >= 0;
  }

  lemma NoRangeWithoutProducts(page: int, limit: int, total: int)
    ensures ShownRange(page, limit, total).None? <==> total <= 0
  {
  }
}
