/** The catalog routes of the server. GET /products filters the products table by the
    query string, orders the matches by an allow-listed column, cuts one page out of
    them and adds pagination figures and the filter facets of the whole table; GET
    /products/:id looks one product up. The handler assembles its SQL step by step
    (`Plan`); what that SQL selects is stated as the pure filter, sort and slice of
    `ListProducts`, and `PlanSelectsListing` proves the two agree. */
module ProductsRoute {
  import opened Text
  import opened Seqs
  import opened Tables

  /** The query string after defaulting. A string filter that is absent or empty is "",
      a price bound that is absent or empty is None; `platform` lists every `platform`
      parameter given (none: []); an absent `sort` or `order` behaves like "name" and
      "ASC"; `page` and `limit` are the parsed integers. */
  datatype Query = Query(
    brand: string, minPrice: Option<int>, maxPrice: Option<int>, storage: string,
    color: string, search: string, platform: seq<string>, sort: string, order: string,
    page: int, limit: int)

  /** What the platform selection asks of the brand. */
  datatype PlatformRule = AnyBrand | OnlyApple | NotApple

  /** iPhone means Apple, Android means any other brand, both mean no constraint. */
  function PlatformRuleOf(platforms: seq<string>): PlatformRule
  {
    var iPhone := "iPhone" in platforms;
    var android := "Android" in platforms;
    if iPhone && android then AnyBrand
    else if iPhone then OnlyApple
    else if android then NotApple
    else AnyBrand
  }

  predicate PlatformAllows(rule: PlatformRule, brand: string)
  {
    match rule
    case AnyBrand => true
    case OnlyApple => brand == "Apple"
    case NotApple => brand != "Apple"
  }

  /** A product satisfies every filter the query supplies. */
  predicate Matches(q: Query, p: Product)
  {
    && PlatformAllows(PlatformRuleOf(q.platform), p.brand)
    && (q.brand == "" || p.brand == q.brand)
    && (q.minPrice.None? || q.minPrice.value <= p.price)
    && (q.maxPrice.None? || p.price <= q.maxPrice.value)
    && (q.storage == "" || p.storage == q.storage)
    && (q.color == "" || Like(p.color, q.color))
    && (q.search == "" || Like(p.name, q.search) || Like(p.brand, q.search) || Like(p.model, q.search))
  }

  function Matching(q: Query): Product -> bool
  {
    (p: Product) => Matches(q, p)
  }

  /** The platform selection: both platforms or neither constrain nothing; only iPhone
      keeps exactly the Apple products, only Android exactly the others. */
  lemma PlatformCases(q: Query, p: Product)
    ensures var unconstrained := Matches(q.(platform := []), p);
      && ("iPhone" in q.platform && "Android" in q.platform ==> (Matches(q, p) <==> unconstrained))
      && ("iPhone" !in q.platform && "Android" !in q.platform ==> (Matches(q, p) <==> unconstrained))
      && ("iPhone" in q.platform && "Android" !in q.platform ==> (Matches(q, p) <==> unconstrained && p.brand == "Apple"))
      && ("iPhone" !in q.platform && "Android" in q.platform ==> (Matches(q, p) <==> unconstrained && p.brand != "Apple"))
  {
  }

  /** One `AND …` term of the WHERE clause. */
  datatype Cond =
    | BrandIs(brand: string)
    | BrandIsNot(brand: string)
    | PriceAtLeast(min: int)
    | PriceAtMost(max: int)
    | StorageIs(storage: string)
    | ColorLike(color: string)
    | SearchLike(term: string)

  predicate Holds(c: Cond, p: Product)
  {
    match c
    case BrandIs(b) => p.brand == b
    case BrandIsNot(b) => p.brand != b
    case PriceAtLeast(m) => p.price >= m
    case PriceAtMost(m) => p.price <= m
    case StorageIs(s) => p.storage == s
    case ColorLike(c) => Like(p.color, c)
    case SearchLike(t) => Like(p.name, t) || Like(p.brand, t) || Like(p.model, t)
  }

  /** `WHERE 1=1 AND …`: every term holds. */
  predicate AllHold(conds: seq<Cond>, p: Product)
  {
    forall i :: 0 <= i < |conds| ==> Holds(conds[i], p)
  }

  function Satisfying(conds: seq<Cond>): Product -> bool
  {
    (p: Product) => AllHold(conds, p)
  }

  lemma AllHoldSnoc(conds: seq<Cond>, c: Cond, p: Product)
    ensures AllHold(conds + [c], p) <==> AllHold(conds, p) && Holds(c, p)
  {
    assert forall i :: 0 <= i < |conds| ==> (conds + [c])[i] == conds[i];
    assert (conds + [c])[|conds|] == c;
  }

  /** The columns ORDER BY may name. */
  datatype Column = Name | Price | Brand | CreatedAt

  function ColumnName(c: Column): string
  {
    match c
    case Name => "name"
    case Price => "price"
    case Brand => "brand"
    case CreatedAt => "created_at"
  }

  /** The allow-list: the requested column when it is one of the four, otherwise name. */
  function SortColumn(sort: string): (c: Column)
  {
    if sort == "price" then Price
    else if sort == "brand" then Brand
    else if sort == "created_at" then CreatedAt
    else Name
  }

  /** The allow-list admits exactly the four column names, each as itself, and falls back
      to name for anything else. */
  lemma SortColumnAllowList(sort: string, c: Column)
    ensures SortColumn(ColumnName(c)) == c
    ensures (forall c' :: ColumnName(c') != sort) ==> SortColumn(sort) == Name
  {
    if forall c' :: ColumnName(c') != sort {
      assert ColumnName(Price) != sort && ColumnName(Brand) != sort && ColumnName(CreatedAt) != sort;
    }
  }

  /** The value ORDER BY compares for a column. */
  function ColumnKey(c: Column): Product -> Key
  {
    match c
    case Name => (p: Product) => Str(p.name)
    case Price => (p: Product) => Num(p.price)
    case Brand => (p: Product) => Str(p.brand)
    case CreatedAt => (p: Product) => Num(p.createdAt)
  }

  /** DESC only for exactly "DESC"; any other value sorts ascending. */
  function Descending(order: string): bool
  {
    order == "DESC"
  }

  /** `(page - 1) * limit`. */
  function Offset(page: int, limit: int): (r: int)
    ensures page >= 1 && limit >= 0 ==> r >= 0
  {
    (page - 1) * limit
  }

  /** SQLite's `LIMIT limit OFFSET offset`: a negative offset counts as 0 and a negative
      limit means no limit. */
  function Slice<T>(s: seq<T>, limit: int, offset: int): (r: seq<T>)
    ensures var from := if offset < 0 then 0 else offset;
      && |r| == (if from >= |s| then 0 else if limit < 0 || |s| - from < limit then |s| - from else limit)
      && forall i :: 0 <= i < |r| ==> from + i < |s| && r[i] == s[from + i]
  {
    var from := if offset < 0 then 0 else offset;
    if limit < 0 then (if from >= |s| then [] else s[from..])
    else Window(s, from, limit)
  }

  /** `Math.ceil(a / b)` for b ≠ 0. */
  function CeilDiv(a: int, b: int): int
    requires b != 0
  {
    if b > 0 then (a + b - 1) / b else (-a - b - 1) / -b
  }

  /** CeilDiv is the least multiple count that covers `a`. */
  lemma CeilDivBounds(a: int, b: int)
    requires b > 0
    ensures (CeilDiv(a, b) - 1) * b < a <= CeilDiv(a, b) * b
  {
    var r := CeilDiv(a, b);
    assert (a + b - 1) == r * b + (a + b - 1) % b;
  }

  lemma MulMonotone(a: int, b: int, l: int)
    requires a <= b && l >= 0
    ensures a * l <= b * l
  {
    assert b * l - a * l == (b - a) * l;
  }

  lemma OffsetNonNegative(page: int, limit: int)
    requires page >= 1 && limit >= 0
    ensures Offset(page, limit) >= 0
  {
    MulMonotone(0, page - 1, limit);
  }

  /** `totalPages: Math.ceil(total / limit)`; a zero limit gives Infinity or NaN, which the
      JSON body carries as null (None). */
  function TotalPages(total: int, limit: int): Option<int>
  {
    if limit == 0 then None else Some(CeilDiv(total, limit))
  }

  datatype Pagination = Pagination(page: int, limit: int, total: int, totalPages: Option<int>)

  datatype Facets = Facets(brands: seq<string>, storages: seq<string>, colors: seq<string>)

  datatype Listing = Listing(products: seq<Product>, pagination: Pagination, filters: Facets)

  function ValuesOf<T>(table: seq<Product>, field: Product -> T): (r: seq<T>)
    ensures |r| == |table| && forall i :: 0 <= i < |table| ==> r[i] == field(table[i])
  {
    seq(|table|, i requires 0 <= i < |table| => field(table[i]))
  }

  /** `SELECT DISTINCT brand/storage/color FROM products ORDER BY …`. */
  function FacetsOf(table: seq<Product>): Facets
  {
    Facets(Distinct(ValuesOf(table, (p: Product) => p.brand)),
           Distinct(ValuesOf(table, (p: Product) => p.storage)),
           Distinct(ValuesOf(table, (p: Product) => p.color)))
  }

  /** Each facet lists every value its column takes in the table, once, in code-point
      order, and nothing else. */
  lemma FacetsDescribeTable(table: seq<Product>)
    ensures var r := FacetsOf(table);
      && StrictlyIncreasing(r.brands) && StrictlyIncreasing(r.storages) && StrictlyIncreasing(r.colors)
      && (forall b :: b in r.brands <==> exists i :: 0 <= i < |table| && table[i].brand == b)
      && (forall s :: s in r.storages <==> exists i :: 0 <= i < |table| && table[i].storage == s)
      && (forall c :: c in r.colors <==> exists i :: 0 <= i < |table| && table[i].color == c)
  {
  }

  /** Every matching product, in the requested order. */
  function Ranked(table: seq<Product>, q: Query): seq<Product>
  {
    SortBy(ColumnKey(SortColumn(q.sort)), Descending(q.order), Filter(Matching(q), table))
  }

  /** The rows of the requested page: `LIMIT limit OFFSET (page - 1) * limit`. */
  function Page(table: seq<Product>, q: Query): seq<Product>
  {
    Slice(Ranked(table, q), q.limit, Offset(q.page, q.limit))
  }

  /** The pagination figures: `total` counts every match (the COUNT(*) query). */
  function PaginationOf(table: seq<Product>, q: Query): Pagination
  {
    var total := |Ranked(table, q)|;
    Pagination(q.page, q.limit, total, TotalPages(total, q.limit))
  }

  /** GET /products. */
  function ListProducts(table: seq<Product>, q: Query): Listing
  {
    Listing(Page(table, q), PaginationOf(table, q), FacetsOf(table))
  }

  /** The ranked list holds exactly the table's matching products, each as often as in
      the table, in key order. */
  lemma RankedContents(table: seq<Product>, q: Query)
    ensures var ranked := Ranked(table, q);
      && SortedBy(ColumnKey(SortColumn(q.sort)), Descending(q.order), ranked)
      && (forall i :: 0 <= i < |ranked| ==> ranked[i] in table && Matches(q, ranked[i]))
      && (forall i :: 0 <= i < |table| && Matches(q, table[i]) ==> table[i] in ranked)
      && (forall p :: multiset(ranked)[p] == if Matches(q, p) then multiset(table)[p] else 0)
  {
    var matches := Filter(Matching(q), table);
    var ranked := Ranked(table, q);
    forall p ensures multiset(ranked)[p] == if Matches(q, p) then multiset(table)[p] else 0 {
      FilterMultiset(Matching(q), table, p);
    }
    RankedMembers(table, q);
    forall i | 0 <= i < |table| && Matches(q, table[i]) ensures table[i] in ranked {
      SortByMembers(ColumnKey(SortColumn(q.sort)), Descending(q.order), matches, table[i]);
    }
  }

  lemma RankedMembers(table: seq<Product>, q: Query)
    ensures var ranked := Ranked(table, q);
      forall i :: 0 <= i < |ranked| ==> ranked[i] in table && Matches(q, ranked[i])
  {
    var matches := Filter(Matching(q), table);
    var ranked := Ranked(table, q);
    forall i | 0 <= i < |ranked| ensures ranked[i] in table && Matches(q, ranked[i]) {
      SortByMembers(ColumnKey(SortColumn(q.sort)), Descending(q.order), matches, ranked[i]);
    }
  }

  /** A cut of a sorted sequence is sorted. */
  lemma SliceSorted<T>(key: T -> Key, desc: bool, s: seq<T>, limit: int, offset: int)
    requires SortedBy(key, desc, s)
    ensures SortedBy(key, desc, Slice(s, limit, offset))
  {
    var r := Slice(s, limit, offset);
    var from := if offset < 0 then 0 else offset;
    forall i, j | 0 <= i < j < |r| ensures InOrder(key, desc, r[i], r[j]) {
      assert r[i] == s[from + i] && r[j] == s[from + j];
    }
  }

  /** A cut with a limit that is not negative has at most `limit` rows. */
  lemma SliceAtMost<T>(s: seq<T>, limit: int, offset: int)
    requires limit >= 0
    ensures |Slice(s, limit, offset)| <= limit
  {
  }

  /** Position k of the cut is position offset + k of the whole, while both exist. */
  lemma SliceIndex<T>(s: seq<T>, limit: int, offset: int, k: int)
    requires 0 <= offset && 0 <= k < limit && offset + k < |s|
    ensures k < |Slice(s, limit, offset)| && Slice(s, limit, offset)[k] == s[offset + k]
  {
  }

  /** A cut with a positive limit and an offset that is not negative has rows exactly when
      the offset is before the end. */
  lemma SliceNonEmptyIff<T>(s: seq<T>, limit: int, offset: int)
    requires 0 <= offset && 1 <= limit
    ensures |Slice(s, limit, offset)| > 0 <==> offset < |s|
  {
  }

  /** Page `page` starts before row n exactly when page ≤ ceil(n / limit). */
  lemma PageWithin(page: int, limit: int, n: int)
    requires page >= 1 && limit >= 1
    ensures Offset(page, limit) >= 0
    ensures Offset(page, limit) < n <==> page <= CeilDiv(n, limit)
  {
    var c := CeilDiv(n, limit);
    CeilDivBounds(n, limit);
    OffsetNonNegative(page, limit);
    if page <= c {
      MulMonotone(page - 1, c - 1, limit);
    } else {
      MulMonotone(c, page - 1, limit);
    }
  }

  /** Row j lies on page j div limit + 1, at position j mod limit. */
  lemma PageOfRow(j: int, limit: int, n: int)
    requires limit >= 1 && 0 <= j < n
    ensures Offset(j / limit + 1, limit) + j % limit == j
    ensures 0 <= j % limit < limit && j / limit + 1 >= 1
    ensures j / limit + 1 <= CeilDiv(n, limit)
  {
    var page := j / limit + 1;
    PageWithin(page, limit, n);
  }

  /** Every listed product matches every supplied filter; the page is the run of the ranked
      matches starting at (page - 1) × limit, at most `limit` long and in key order; and the
      pagination total counts every match, before the cut. */
  lemma ListingIsPageOfMatches(table: seq<Product>, q: Query)
    requires q.page >= 1 && q.limit >= 0
    ensures var rows := Page(table, q);
      var ranked := Ranked(table, q);
      && (forall i :: 0 <= i < |rows| ==> rows[i] in table && Matches(q, rows[i]))
      && |rows| <= q.limit
      && (forall i :: 0 <= i < |rows| ==> rows[i] == ranked[Offset(q.page, q.limit) + i])
      && SortedBy(ColumnKey(SortColumn(q.sort)), Descending(q.order), rows)
      && PaginationOf(table, q).total == |ranked| == |Filter(Matching(q), table)|
  {
    var ranked := Ranked(table, q);
    var rows := Page(table, q);
    var from := Offset(q.page, q.limit);
    OffsetNonNegative(q.page, q.limit);
    SliceAtMost(ranked, q.limit, from);
    assert rows == Slice(ranked, q.limit, from);
    assert forall i :: 0 <= i < |rows| ==> from + i < |ranked| && rows[i] == ranked[from + i];
    RankedMembers(table, q);
    forall i | 0 <= i < |rows| ensures rows[i] in table && Matches(q, rows[i]) {
      assert rows[i] == ranked[from + i];
    }
    SliceSorted(ColumnKey(SortColumn(q.sort)), Descending(q.order), ranked, q.limit, from);
  }

  /** With a positive limit the pages cover the ranked matches: match number j is row k of
      the page that starts k rows before it, and that page is within totalPages. Such a page
      always exists (PageOfRow: page j div limit + 1, row j mod limit). */
  lemma PagesCoverMatches(table: seq<Product>, q: Query, j: int, page: int, k: int)
    requires q.limit >= 1 && 0 <= j < |Ranked(table, q)|
    requires page >= 1 && 0 <= k < q.limit && Offset(page, q.limit) + k == j
    ensures var rows := Page(table, q.(page := page));
      && k < |rows|
      && rows[k] == Ranked(table, q)[j]
      && page <= PaginationOf(table, q.(page := page)).totalPages.value
  {
    var ranked := Ranked(table, q);
    RankedIgnoresPage(table, q, page);
    PageWithin(page, q.limit, |ranked|);
    SliceIndex(ranked, q.limit, Offset(page, q.limit), k);
  }

  /** The page number plays no part in which rows match or in what order. */
  lemma RankedIgnoresPage(table: seq<Product>, q: Query, page: int)
    ensures Ranked(table, q.(page := page)) == Ranked(table, q)
  {
    FilterSame(Matching(q.(page := page)), Matching(q), table);
  }

  /** With page and limit positive, a page has rows exactly when it is within totalPages. */
  lemma PageNonEmptyIff(table: seq<Product>, q: Query)
    requires q.page >= 1 && q.limit >= 1
    ensures |Page(table, q)| > 0 <==> q.page <= PaginationOf(table, q).totalPages.value
  {
    var ranked := Ranked(table, q);
    PageWithin(q.page, q.limit, |ranked|);
    SliceNonEmptyIff(ranked, q.limit, Offset(q.page, q.limit));
  }

  /** The facets describe the whole table, whatever the query. */
  lemma FacetsIgnoreQuery(table: seq<Product>, q: Query, q': Query)
    ensures ListProducts(table, q).filters == ListProducts(table, q').filters
  {
  }

  /** The SQL statement the handler assembles. */
  datatype Select = Select(conds: seq<Cond>, column: Column, desc: bool, limit: int, offset: int)

  /** What SQLite returns for the statement. */
  function Run(table: seq<Product>, s: Select): seq<Product>
  {
    Slice(SortBy(ColumnKey(s.column), s.desc, Filter(Satisfying(s.conds), table)), s.limit, s.offset)
  }

  /** Filter number k of the query, in the order the handler adds them: 0 platform,
      1 brand, 2 minimum price, 3 maximum price, 4 storage, 5 colour, 6 search. */
  predicate Part(q: Query, k: int, p: Product)
  {
    if k == 0 then PlatformAllows(PlatformRuleOf(q.platform), p.brand)
    else if k == 1 then q.brand == "" || p.brand == q.brand
    else if k == 2 then q.minPrice.None? || q.minPrice.value <= p.price
    else if k == 3 then q.maxPrice.None? || p.price <= q.maxPrice.value
    else if k == 4 then q.storage == "" || p.storage == q.storage
    else if k == 5 then q.color == "" || Like(p.color, q.color)
    else q.search == "" || Like(p.name, q.search) || Like(p.brand, q.search) || Like(p.model, q.search)
  }

  /** The first n filters hold. */
  predicate Stage(q: Query, n: int, p: Product)
  {
    forall k :: 0 <= k < n ==> Part(q, k, p)
  }

  lemma AllStages(q: Query, p: Product)
    ensures Stage(q, 7, p) <==> Matches(q, p)
  {
    assert Stage(q, 7, p) ==> Part(q, 0, p) && Part(q, 1, p) && Part(q, 2, p) && Part(q, 3, p)
                              && Part(q, 4, p) && Part(q, 5, p) && Part(q, 6, p);
  }

  /** Adding the term for filter n extends what the terms select by that filter. */
  lemma Push(q: Query, n: int, conds: seq<Cond>, c: Cond)
    requires 0 <= n
    requires forall p :: AllHold(conds, p) <==> Stage(q, n, p)
    requires forall p :: Holds(c, p) <==> Part(q, n, p)
    ensures forall p :: AllHold(conds + [c], p) <==> Stage(q, n + 1, p)
  {
    forall p ensures AllHold(conds + [c], p) <==> Stage(q, n + 1, p) {
      AllHoldSnoc(conds, c, p);
    }
  }

  /** A filter the query does not supply needs no term. */
  lemma Skip(q: Query, n: int, conds: seq<Cond>)
    requires 0 <= n
    requires forall p :: AllHold(conds, p) <==> Stage(q, n, p)
    requires forall p :: Part(q, n, p)
    ensures forall p :: AllHold(conds, p) <==> Stage(q, n + 1, p)
  {
    forall p ensures AllHold(conds, p) <==> Stage(q, n + 1, p) {
      assert Stage(q, n + 1, p) <==> Stage(q, n, p) && Part(q, n, p);
    }
  }

  /** Builds the statement term by term, as the handler appends to `query` and `params`. */
  method Plan(q: Query) returns (s: Select)
    ensures forall p :: AllHold(s.conds, p) <==> Matches(q, p)
    ensures s.column == SortColumn(q.sort) && s.desc == Descending(q.order)
    ensures s.limit == q.limit && s.offset == Offset(q.page, q.limit)
  {
    var conds: seq<Cond> := [];
    var hasIPhone := "iPhone" in q.platform;
    var hasAndroid := "Android" in q.platform;
    if q.platform != [] && !(hasIPhone && hasAndroid) && hasIPhone {
      Push(q, 0, conds, BrandIs("Apple"));
      conds := conds + [BrandIs("Apple")];
    } else if q.platform != [] && !(hasIPhone && hasAndroid) && hasAndroid {
      Push(q, 0, conds, BrandIsNot("Apple"));
      conds := conds + [BrandIsNot("Apple")];
    } else {
      Skip(q, 0, conds);
    }
    if q.brand != "" {
      Push(q, 1, conds, BrandIs(q.brand));
      conds := conds + [BrandIs(q.brand)];
    } else {
      Skip(q, 1, conds);
    }
    if q.minPrice.Some? {
      Push(q, 2, conds, PriceAtLeast(q.minPrice.value));
      conds := conds + [PriceAtLeast(q.minPrice.value)];
    } else {
      Skip(q, 2, conds);
    }
    if q.maxPrice.Some? {
      Push(q, 3, conds, PriceAtMost(q.maxPrice.value));
      conds := conds + [PriceAtMost(q.maxPrice.value)];
    } else {
      Skip(q, 3, conds);
    }
    if q.storage != "" {
      Push(q, 4, conds, StorageIs(q.storage));
      conds := conds + [StorageIs(q.storage)];
    } else {
      Skip(q, 4, conds);
    }
    if q.color != "" {
      Push(q, 5, conds, ColorLike(q.color));
      conds := conds + [ColorLike(q.color)];
    } else {
      Skip(q, 5, conds);
    }
    if q.search != "" {
      Push(q, 6, conds, SearchLike(q.search));
      conds := conds + [SearchLike(q.search)];
    } else {
      Skip(q, 6, conds);
    }
    forall p ensures AllHold(conds, p) <==> Matches(q, p) {
      AllStages(q, p);
    }
    var column := SortColumn(q.sort);
    var desc := q.order == "DESC";
    s := Select(conds, column, desc, q.limit, (q.page - 1) * q.limit);
  }

  /** A statement built by Plan returns exactly the page ListProducts describes. */
  lemma PlanSelectsListing(table: seq<Product>, q: Query, s: Select)
    requires forall p :: AllHold(s.conds, p) <==> Matches(q, p)
    requires s.column == SortColumn(q.sort) && s.desc == Descending(q.order)
    requires s.limit == q.limit && s.offset == Offset(q.page, q.limit)
    ensures Run(table, s) == ListProducts(table, q).products
  {
    FilterSame(Satisfying(s.conds), Matching(q), table);
  }

  /** GET /products/:id: the product with that id, or 404. */
  function GetProduct(table: seq<Product>, id: int): (r: Result<Product>)
    ensures r == Fail(ProductNotFound) <==> forall i :: 0 <= i < |table| ==> table[i].id != id
    ensures r.Ok? ==> r.value in table && r.value.id == id
    ensures r.Fail? ==> r == Fail(ProductNotFound)
  {
    match FindProduct(table, id)
    case None => Fail(ProductNotFound)
    case Some(p) => Ok(p)
  }
}
