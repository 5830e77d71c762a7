/** The filter panel of the catalog page. It keeps a local copy of the page's filters,
    and every handler builds a new filters value from that copy and hands it both to
    the local setter and to the page (whose `onFiltersChange` is its own state setter,
    client/src/pages/Products.tsx:140). Each handler is modelled as the function from
    the copy it reads to the value it emits. */
module ProductFilters {
  import opened Text
  import opened Seqs

  /** The panel's filters; prices are kept as the strings typed in. */
  datatype Filters = Filters(
    brand: string, minPrice: string, maxPrice: string, storage: string, color: string,
    platform: seq<string>, sort: string, order: string)

  /** The string-valued keys `handleChange` is called with. */
  datatype Field = Brand | MinPrice | MaxPrice | Storage | Color | Sort | Order

  function Get(f: Filters, key: Field): string
  {
    match key
    case Brand => f.brand
    case MinPrice => f.minPrice
    case MaxPrice => f.maxPrice
    case Storage => f.storage
    case Color => f.color
    case Sort => f.sort
    case Order => f.order
  }

  /** `handleChange(key, value)`: `{ ...localFilters, [key]: value }`. */
  function HandleChange(f: Filters, key: Field, value: string): (r: Filters)
    ensures Get(r, key) == value
    ensures forall other :: other != key ==> Get(r, other) == Get(f, other)
    ensures r.platform == f.platform
  {
    match key
    case Brand => f.(brand := value)
    case MinPrice => f.(minPrice := value)
    case MaxPrice => f.(maxPrice := value)
    case Storage => f.(storage := value)
    case Color => f.(color := value)
    case Sort => f.(sort := value)
    case Order => f.(order := value)
  }

  /** Two filters values that agree on every key and on the platforms are the same value. */
  lemma FiltersExtensional(f: Filters, g: Filters)
    requires forall key :: Get(f, key) == Get(g, key)
    requires f.platform == g.platform
    ensures f == g
  {
    assert Get(f, Brand) == Get(g, Brand) && Get(f, MinPrice) == Get(g, MinPrice);
    assert Get(f, MaxPrice) == Get(g, MaxPrice) && Get(f, Storage) == Get(g, Storage);
    assert Get(f, Color) == Get(g, Color) && Get(f, Sort) == Get(g, Sort) && Get(f, Order) == Get(g, Order);
  }

  function Other(platform: string): string -> bool
  {
    (p: string) => p != platform
  }

  /** `handlePlatformChange(platform, checked)`: append when checked, otherwise drop it. */
  function HandlePlatformChange(f: Filters, platform: string, checked: bool): Filters
  {
    var newPlatforms := if checked then f.platform + [platform] else Filter(Other(platform), f.platform);
    f.(platform := newPlatforms)
  }

  /** Checking a platform puts it at the end of the list, one more time than it was there,
      even if it was there already; nothing else changes. */
  lemma CheckAppends(f: Filters, platform: string)
    ensures var r := HandlePlatformChange(f, platform, true);
      && r.platform == f.platform + [platform]
      && multiset(r.platform)[platform] == multiset(f.platform)[platform] + 1
      && r == f.(platform := r.platform)
  {
  }

  /** Unchecking a platform removes every occurrence of it and keeps the others, each as
      often as before and in their order; nothing else changes. */
  lemma UncheckRemovesAll(f: Filters, platform: string)
    ensures var r := HandlePlatformChange(f, platform, false);
      && platform !in r.platform
      && (forall p :: p != platform ==> multiset(r.platform)[p] == multiset(f.platform)[p])
      && SubsequenceOf(r.platform, f.platform)
      && r == f.(platform := r.platform)
  {
    var r := HandlePlatformChange(f, platform, false);
    forall p | p != platform ensures multiset(r.platform)[p] == multiset(f.platform)[p] {
      FilterMultiset(Other(platform), f.platform, p);
    }
    FilterMultiset(Other(platform), f.platform, platform);
    assert platform !in multiset(r.platform);
    FilterSubsequence(Other(platform), f.platform);
  }

  /** `removePlatform(platform)`: the chip's remove button. */
  function RemovePlatform(f: Filters, platform: string): Filters
  {
    f.(platform := Filter(Other(platform), f.platform))
  }

  /** Removing a platform chip has the same effect as unchecking its box. */
  lemma RemoveIsUncheck(f: Filters, platform: string)
    ensures RemovePlatform(f, platform) == HandlePlatformChange(f, platform, false)
  {
  }

  /** `clearFilters()`. */
  function ClearFilters(): (r: Filters)
    ensures r.platform == []
    ensures forall key :: Get(r, key) == (if key == Sort then "name" else if key == Order then "ASC" else "")
  {
    Filters("", "", "", "", "", [], "name", "ASC")
  }

  /** The four options of the sort select, as (sort, order) pairs. */
  const SortPairs: seq<(string, string)> := [("name", "ASC"), ("name", "DESC"), ("price", "ASC"), ("price", "DESC")]

  /** `${sort}-${order}`: the value the select shows and its options carry. */
  function SortValue(sort: string, order: string): string
  {
    sort + "-" + order
  }

  /** `value.split('-')` destructured into `[sort, order]`; a missing part is "". */
  function SplitSortValue(value: string): (string, string)
  {
    var parts := Split(value, '-');
    (parts[0], if |parts| > 1 then parts[1] else "")
  }

  /** Splitting a value the select can show gives back the sort and order it was made of. */
  lemma {:induction false} SortValueRoundTrip(sort: string, order: string)
    requires '-' !in sort && '-' !in order
    ensures SplitSortValue(SortValue(sort, order)) == (sort, order)
  {
    var parts := [sort, order];
    assert Join(parts, '-') == SortValue(sort, order) by {
      assert Join(parts[1..], '-') == order;
    }
    SplitJoin(parts, '-');
  }

  /** Each of the four options splits into its own (sort, order) pair and joins back to itself. */
  lemma SortOptionsRoundTrip(i: int)
    requires 0 <= i < |SortPairs|
    ensures var (sort, order) := SortPairs[i];
      var value := SortValue(sort, order);
      SplitSortValue(value) == (sort, order) && SortValue(SplitSortValue(value).0, SplitSortValue(value).1) == value
  {
    var (sort, order) := SortPairs[i];
    assert '-' !in sort && '-' !in order;
    SortValueRoundTrip(sort, order);
  }

  /** The sort select's onChange as written: both `handleChange` calls read the same copy
      of the filters, so it emits the copy with the new sort and then the copy with the new
      order. The page keeps the value it was handed last. */
  function SortSelectAsWritten(f: Filters, value: string): (emitted: seq<Filters>)
  {
    var (sort, order) := SplitSortValue(value);
    [HandleChange(f, Sort, sort), HandleChange(f, Order, order)]
  }

  /** As written, the filters the page ends up with always keep the old sort column. */
  lemma SortSelectAsWrittenKeepsOldSort(f: Filters, value: string)
    ensures var emitted := SortSelectAsWritten(f, value);
      emitted[|emitted| - 1].sort == f.sort
  {
  }

  /** From "Name (A-Z)", choosing "Price (Low to High)" leaves the filters as they were:
      the catalog is still sorted by name. */
  lemma SortByPriceIsLost()
    ensures var f := ClearFilters();
      var emitted := SortSelectAsWritten(f, SortValue("price", "ASC"));
      emitted[|emitted| - 1] == f && emitted[|emitted| - 1].sort == "name"
  {
    var f := ClearFilters();
    SortValueRoundTrip("price", "ASC");
    FiltersExtensional(HandleChange(f, Order, "ASC"), f);
  }

  /** The sort select's onChange applying both changes in turn: the page gets the chosen
      sort and order together. */
  function SortSelect(f: Filters, value: string): Filters
  {
    var (sort, order) := SplitSortValue(value);
    HandleChange(HandleChange(f, Sort, sort), Order, order)
  }

  /** Choosing any option sets exactly the sort and the order it names, so the select then
      shows that option, and every other filter is kept. */
  lemma SortSelectTakesOption(f: Filters, i: int)
    requires 0 <= i < |SortPairs|
    ensures var (sort, order) := SortPairs[i];
      var r := SortSelect(f, SortValue(sort, order));
      && r.sort == sort && r.order == order
      && SortValue(r.sort, r.order) == SortValue(sort, order)
      && r == f.(sort := sort, order := order)
  {
    var (sort, order) := SortPairs[i];
    SortOptionsRoundTrip(i);
    var r := SortSelect(f, SortValue(sort, order));
    FiltersExtensional(r, f.(sort := sort, order := order));
  }
}
