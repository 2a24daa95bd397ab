// The list and detail endpoints of the stock handler: query-string
// normalisation (pagination, ordering allow-list), the choice of repository
// query by filter precedence, and the page count of the response.

module Handlers {
  import opened Wrappers
  import opened Models
  import opened Strings
  import opened Strconv
  import Cockroachdb

  /** A parsed query string: each key with all its values, in order. */
  type Query = map<string, seq<string>>

  /** url.Values.Get: the first value of the key, or "" when there is none. */
  function QueryGet(q: Query, key: string): (v: string)
    ensures key !in q || q[key] == [] ==> v == ""
    ensures key in q && q[key] != [] ==> v == q[key][0]
  {
    if key in q && |q[key]| > 0 then q[key][0] else ""
  }

  // ---------------------------------------------------------------------
  // parsePagination
  // ---------------------------------------------------------------------

  datatype Pagination = Pagination(page: int, limit: int, offset: int)

  const DefaultPage := 1
  const DefaultPageSize := 10
  const MaxPageSize := 100

  /** The value of a numeric parameter when it is present, parses as a Go
      int and is positive. */
  function PositiveParam(q: Query, key: string): (r: Option<int>)
    ensures r.Some? ==> r.value > 0 && Atoi(QueryGet(q, key)) == r
    ensures r.None? ==> QueryGet(q, key) == "" || Atoi(QueryGet(q, key)).None? || Atoi(QueryGet(q, key)).value <= 0
  {
    var s := QueryGet(q, key);
    if s == "" then None
    else match Atoi(s)
      case Some(v) => if v > 0 then Some(v) else None
      case None => None
  }

  /** The requested page, 1 when absent or invalid. */
  function PageOf(q: Query): int
  {
    match PositiveParam(q, "page")
    case Some(p) => p
    case None => DefaultPage
  }

  /** The requested page size, 10 when absent or invalid, at most 100. */
  function PageSizeOf(q: Query): int
  {
    match PositiveParam(q, "page_size")
    case Some(s) => if s > MaxPageSize then MaxPageSize else s
    case None => DefaultPageSize
  }

  /** a <= b scales to a * m <= b * m for m >= 0. */
  lemma MulMonotone(a: int, b: int, m: int)
    requires a <= b && m >= 0
    ensures a * m <= b * m
  {
    assert b * m - a * m == (b - a) * m;
  }

  /** k whole pages of m items start at k * m, a multiple of m. */
  lemma WholePages(k: int, m: int)
    requires k >= 0 && m >= 1
    ensures k * m >= 0 && (k * m) % m == 0 && (k * m) / m == k
  {
    MulMonotone(0, k, m);
    var a := k * m;
    var d := a / m - k;
    assert d * m == -(a % m) by {
      assert a == (a / m) * m + a % m;
      assert (a / m) * m - k * m == d * m;
    }
    if d >= 1 {
      MulMonotone(1, d, m);
      assert false;
    } else if d <= -1 {
      MulMonotone(d, -1, m);
      assert false;
    }
  }

  /** parsePagination, with the offset computed on unbounded integers (what
      the code evidently intends; see ParsePaginationAsWritten). The offset
      is where the requested page starts: page - 1 whole pages are skipped. */
  function ParsePagination(q: Query): (p: Pagination)
    ensures p.page >= 1
    ensures 1 <= p.limit <= MaxPageSize
    ensures p.offset >= 0 && p.offset % p.limit == 0 && p.offset / p.limit == p.page - 1
  {
    var page := PageOf(q);
    var pageSize := PageSizeOf(q);
    WholePages(page - 1, pageSize);
    Pagination(page, pageSize, (page - 1) * pageSize)
  }

  /** The page parameter: taken when it is a positive Go int, else 1. */
  lemma PageParameter(q: Query)
    ensures QueryGet(q, "page") == "" ==> ParsePagination(q).page == 1
    ensures Atoi(QueryGet(q, "page")).None? ==> ParsePagination(q).page == 1
    ensures Atoi(QueryGet(q, "page")).Some? && Atoi(QueryGet(q, "page")).value <= 0 ==> ParsePagination(q).page == 1
    ensures Atoi(QueryGet(q, "page")).Some? && Atoi(QueryGet(q, "page")).value > 0 ==>
              ParsePagination(q).page == Atoi(QueryGet(q, "page")).value
  {
  }

  /** The page_size parameter: a positive Go int is taken and clamped to
      100; anything else gives 10. */
  lemma PageSizeParameter(q: Query)
    ensures QueryGet(q, "page_size") == "" ==> ParsePagination(q).limit == 10
    ensures Atoi(QueryGet(q, "page_size")).None? ==> ParsePagination(q).limit == 10
    ensures Atoi(QueryGet(q, "page_size")).Some? && Atoi(QueryGet(q, "page_size")).value <= 0 ==>
              ParsePagination(q).limit == 10
    ensures Atoi(QueryGet(q, "page_size")).Some? && 0 < Atoi(QueryGet(q, "page_size")).value <= 100 ==>
              ParsePagination(q).limit == Atoi(QueryGet(q, "page_size")).value
    ensures Atoi(QueryGet(q, "page_size")).Some? && Atoi(QueryGet(q, "page_size")).value > 100 ==>
              ParsePagination(q).limit == 100
  {
  }

  /** An empty query asks for the first ten items. */
  lemma EmptyQueryPagination()
    ensures ParsePagination(map[]) == Pagination(1, 10, 0)
  {
  }

  /** parsePagination as written: Go computes the offset in int, which wraps
      around modulo 2^64. */
  function ParsePaginationAsWritten(q: Query): (p: Pagination)
    ensures p.page == ParsePagination(q).page && p.limit == ParsePagination(q).limit
    ensures InInt64(p.offset)
    ensures InInt64(ParsePagination(q).offset) ==> p == ParsePagination(q)
  {
    var page := PageOf(q);
    var pageSize := PageSizeOf(q);
    Pagination(page, pageSize, Wrap64((page - 1) * pageSize))
  }

  /** A page number that Atoi accepts but whose offset does not fit in an
      int: page=100000000000000000&page_size=100 (the parameters are the
      decimal texts of `page` and `size`) yields a negative offset
      (-8446744073709551716) instead of 9999999999999999900. */
  lemma OffsetOverflow(page: int, size: int)
    requires page == 100_000_000_000_000_000 && size == 100
    ensures var q := map["page" := [Itoa(page)], "page_size" := [Itoa(size)]];
      && ParsePagination(q).offset == 9_999_999_999_999_999_900
      && ParsePaginationAsWritten(q).offset == -8_446_744_073_709_551_716
      && ParsePaginationAsWritten(q).offset < 0
  {
    var q := map["page" := [Itoa(page)], "page_size" := [Itoa(size)]];
    AtoiItoa(page);
    AtoiItoa(size);
    assert QueryGet(q, "page") == Itoa(page);
    assert QueryGet(q, "page_size") == Itoa(size);
    assert PageOf(q) == page && PageSizeOf(q) == size;
    assert Wrap64(9_999_999_999_999_999_900) == -8_446_744_073_709_551_716;
  }

  /** The offset can also wrap to a small value: page=288230376151711745
      with page_size=64 asks for 2^64 rows of skip, which wraps to 0, so the
      first page's rows are served under that page number. */
  lemma OffsetWrapsToZero(page: int, size: int)
    requires page == 288_230_376_151_711_745 && size == 64
    ensures var q := map["page" := [Itoa(page)], "page_size" := [Itoa(size)]];
      && ParsePagination(q).page == page
      && ParsePagination(q).offset == TwoTo64
      && ParsePaginationAsWritten(q).offset == 0
  {
    var q := map["page" := [Itoa(page)], "page_size" := [Itoa(size)]];
    AtoiItoa(page);
    AtoiItoa(size);
    assert QueryGet(q, "page") == Itoa(page);
    assert QueryGet(q, "page_size") == Itoa(size);
    assert PageOf(q) == page && PageSizeOf(q) == size;
    assert (page - 1) * size == TwoTo64;
  }

  // ---------------------------------------------------------------------
  // Ordering normalisation
  // ---------------------------------------------------------------------

  /** The column names ListStocks lets through to ORDER BY. */
  const ValidFields: set<string> := {"ticker", "company", "brokerage", "rating_from", "rating_to", "time"}

  /** order_by: an allow-listed column name is kept; empty or anything else
      becomes "time". */
  function NormalizeOrderBy(orderBy: string): (r: string)
    ensures r in ValidFields
    ensures orderBy in ValidFields ==> r == orderBy
    ensures orderBy !in ValidFields ==> r == "time"
  {
    if orderBy == "" then "time"
    else if orderBy in ValidFields then orderBy
    else "time"
  }

  /** The allow-list is exactly the set of names the repository can order
      by, so whatever reaches GetStocks names a column of the table. */
  lemma AllowListIsSchema(name: string)
    ensures name in ValidFields <==> Cockroachdb.ColumnNamed(name).Some?
    ensures Cockroachdb.ColumnNamed(NormalizeOrderBy(name)).Some?
  {
  }

  lemma NormalizeOrderByIdempotent(orderBy: string)
    ensures NormalizeOrderBy(NormalizeOrderBy(orderBy)) == NormalizeOrderBy(orderBy)
  {
  }

  /** sort: "ASC" or "DESC" after upper-casing; empty or anything else
      becomes "DESC". */
  function NormalizeSortOrder(sortOrder: string): (r: string)
    ensures r == "ASC" || r == "DESC"
    ensures r == "ASC" <==> ToUpper(sortOrder) == "ASC"
  {
    if sortOrder == "" then "DESC"
    else
      var upper := ToUpper(sortOrder);
      if upper != "ASC" && upper != "DESC" then "DESC" else upper
  }

  /** Ascending order is chosen by exactly the three-letter spellings of
      "asc" in any case (and the long s, which Go upper-cases to 'S'). */
  lemma AscendingSpellings(sortOrder: string)
    ensures NormalizeSortOrder(sortOrder) == "ASC" <==>
              |sortOrder| == 3 && sortOrder[0] in "aA" && sortOrder[1] in "sS\U{017F}" && sortOrder[2] in "cC"
  {
    ToUpperIsAsc(sortOrder);
  }

  /** Descending order is chosen by the four-letter spellings of "desc" in
      any case (long s included), and by every other value. */
  lemma DescendingSpellings(sortOrder: string)
    ensures NormalizeSortOrder(sortOrder) == "DESC" <==>
              !(|sortOrder| == 3 && sortOrder[0] in "aA" && sortOrder[1] in "sS\U{017F}" && sortOrder[2] in "cC")
    ensures ToUpper(sortOrder) == "DESC" <==>
              |sortOrder| == 4 && sortOrder[0] in "dD" && sortOrder[1] in "eE" && sortOrder[2] in "sS\U{017F}" && sortOrder[3] in "cC"
    ensures ToUpper(sortOrder) == "DESC" ==> NormalizeSortOrder(sortOrder) == "DESC"
  {
    AscendingSpellings(sortOrder);
    ToUpperIsDesc(sortOrder);
  }

  lemma NormalizeSortOrderIdempotent(sortOrder: string)
    ensures NormalizeSortOrder(NormalizeSortOrder(sortOrder)) == NormalizeSortOrder(sortOrder)
  {
    var r := NormalizeSortOrder(sortOrder);
    assert ToUpper("ASC") == "ASC";
    assert ToUpper("DESC") == "DESC";
  }

  // ---------------------------------------------------------------------
  // Filter dispatch
  // ---------------------------------------------------------------------

  /** The repository query ListStocks issues. */
  datatype ListQuery =
    | ByTicker(pattern: string)
    | ByBrokerage(brokerage: string)
    | ByRating(rating: string)
    | Unfiltered(orderBy: string, sortOrder: string)

  /** Filter precedence: ticker, then brokerage, then rating, then none;
      only the unfiltered query is ordered as the request asks. */
  function PlanQuery(q: Query): (r: ListQuery)
    ensures r.ByTicker? <==> QueryGet(q, "ticker") != ""
    ensures r.ByBrokerage? <==> QueryGet(q, "ticker") == "" && QueryGet(q, "brokerage") != ""
    ensures r.ByRating? <==>
              QueryGet(q, "ticker") == "" && QueryGet(q, "brokerage") == "" && QueryGet(q, "rating") != ""
    ensures r.ByTicker? ==> r.pattern == QueryGet(q, "ticker")
    ensures r.ByBrokerage? ==> r.brokerage == QueryGet(q, "brokerage")
    ensures r.ByRating? ==> r.rating == QueryGet(q, "rating")
    ensures r.Unfiltered? ==> r.orderBy in ValidFields && (r.sortOrder == "ASC" || r.sortOrder == "DESC")
    ensures r.Unfiltered? ==>
              r == Unfiltered(NormalizeOrderBy(QueryGet(q, "order_by")), NormalizeSortOrder(QueryGet(q, "sort")))
  {
    var ticker := QueryGet(q, "ticker");
    var brokerage := QueryGet(q, "brokerage");
    var rating := QueryGet(q, "rating");
    if ticker != "" then ByTicker(ticker)
    else if brokerage != "" then ByBrokerage(brokerage)
    else if rating != "" then ByRating(rating)
    else Unfiltered(NormalizeOrderBy(QueryGet(q, "order_by")), NormalizeSortOrder(QueryGet(q, "sort")))
  }

  /** order_by and sort are ignored as soon as any filter is present. */
  lemma OrderingOnlyUnfiltered(q: Query, orderBy: seq<string>, sort: seq<string>)
    requires QueryGet(q, "ticker") != "" || QueryGet(q, "brokerage") != "" || QueryGet(q, "rating") != ""
    ensures PlanQuery(q["order_by" := orderBy]["sort" := sort]) == PlanQuery(q)
  {
    var q' := q["order_by" := orderBy]["sort" := sort];
    assert QueryGet(q', "ticker") == QueryGet(q, "ticker");
    assert QueryGet(q', "brokerage") == QueryGet(q, "brokerage");
    assert QueryGet(q', "rating") == QueryGet(q, "rating");
  }

  /** The rows a planned query selects. */
  function PlanFilter(plan: ListQuery): Cockroachdb.Filter
  {
    match plan
    case ByTicker(p) => Cockroachdb.TickerLike("%" + p + "%")
    case ByBrokerage(b) => Cockroachdb.BrokerageIs(b)
    case ByRating(r) => Cockroachdb.RatingIs(r)
    case Unfiltered(_, _) => Cockroachdb.All
  }

  /** The order a planned query lists its rows in. */
  function PlanOrdering(plan: ListQuery): Cockroachdb.Ordering
    requires plan.Unfiltered? ==> plan.orderBy in ValidFields
  {
    match plan
    case Unfiltered(orderBy, sortOrder) =>
      AllowListIsSchema(orderBy);
      Cockroachdb.RequestedOrdering(orderBy, sortOrder)
    case _ => Cockroachdb.TimeDesc
  }

  // ---------------------------------------------------------------------
  // Page count and the list response
  // ---------------------------------------------------------------------

  /** totalPages = ceil(total / limit), computed as (total + limit - 1) / limit
      (both operands non-negative, so Go's truncation agrees with Dafny's /). */
  function TotalPages(total: int, limit: int): (n: int)
    requires total >= 0 && limit >= 1
    ensures n >= 0
    ensures n * limit >= total
    ensures total > 0 ==> (n - 1) * limit < total
    ensures total == 0 ==> n == 0
  {
    (total + limit - 1) / limit
  }

  /** Page p (counted from 1) of a result holds items exactly when p is at
      most the reported page count. */
  lemma PageNonEmptyIffWithinTotal(q: seq<Stock>, page: int, limit: int)
    requires page >= 1 && limit >= 1
    ensures Cockroachdb.Window(q, (page - 1) * limit, limit) != [] <==> page <= TotalPages(|q|, limit)
  {
    var n := TotalPages(|q|, limit);
    Cockroachdb.WindowShape(q, (page - 1) * limit, limit);
    if page <= n {
      MulMonotone(page - 1, n - 1, limit);
    } else {
      MulMonotone(n, page - 1, limit);
    }
  }

  datatype ListResponse = ListResponse(
    stocks: seq<Stock>,
    totalStocks: int,
    totalPages: int,
    currentPage: int,
    itemsPerPage: int)

  /** ListStocks: the requested page of the planned query's result, with the
      total that the paired count reports. `ordered` is the query's whole
      ordered result, of which `stocks` is a window. */
  method ListStocks(repo: Cockroachdb.StockRepository, q: Query) returns (resp: ListResponse, ghost ordered: seq<Stock>)
    requires repo.Valid()
    ensures var p := ParsePagination(q);
      && Cockroachdb.IsResultOf(ordered, repo.rows, PlanFilter(PlanQuery(q)), PlanOrdering(PlanQuery(q)))
      && resp.stocks == Cockroachdb.Window(ordered, p.offset, p.limit)
      && resp.totalStocks == |ordered|
      && resp.totalPages == TotalPages(|ordered|, p.limit)
      && resp.currentPage == p.page && resp.itemsPerPage == p.limit
  {
    var pagination := ParsePagination(q);
    var plan := PlanQuery(q);
    var stocks: seq<Stock>;
    var totalStocks: nat;
    match plan {
      case ByTicker(ticker) =>
        stocks, ordered := repo.GetStocksByTickerPattern(ticker, pagination.offset, pagination.limit);
        totalStocks := repo.CountStocksByTickerPattern(ticker);
      case ByBrokerage(brokerage) =>
        stocks, ordered := repo.GetStocksByBrokerage(brokerage, pagination.offset, pagination.limit);
        totalStocks := repo.CountStocksByBrokerage(brokerage);
      case ByRating(rating) =>
        stocks, ordered := repo.GetStocksByRating(rating, pagination.offset, pagination.limit);
        totalStocks := repo.CountStocksByRating(rating);
      case Unfiltered(orderBy, sortOrder) =>
        AllowListIsSchema(orderBy);
        stocks, ordered := repo.GetStocks(orderBy, sortOrder, pagination.offset, pagination.limit);
        totalStocks := repo.CountStocks();
        assert Cockroachdb.MatchingKeys(repo.rows, Cockroachdb.All) == repo.rows.Keys;
    }
    var totalPages := TotalPages(totalStocks, pagination.limit);
    resp := ListResponse(stocks, totalStocks, totalPages, pagination.page, pagination.limit);
  }

  // ---------------------------------------------------------------------
  // GetStockDetails
  // ---------------------------------------------------------------------

  /** Why the details endpoint answers with an error: 400 for a missing
      ticker, 404 for any lookup error (a query failure included). */
  datatype DetailsError = TickerRequired | StockNotFound(cause: Cockroachdb.LookupError)

  method GetStockDetails(repo: Cockroachdb.StockRepository, ticker: string, dbError: Option<string>)
    returns (r: Result<Stock, DetailsError>)
    requires repo.Valid()
    ensures ticker == "" ==> r == Failure(TickerRequired)
    ensures ticker != "" && dbError.Some? ==> r == Failure(StockNotFound(Cockroachdb.QueryFailed(dbError.value)))
    ensures ticker != "" && dbError.None? ==>
      && (r.Success? <==> ticker in repo.rows)
      && (r.Success? ==> r.value == repo.rows[ticker])
      && (r.Failure? ==> r.error == StockNotFound(Cockroachdb.NotFound(ticker)))
  {
    if ticker == "" {
      return Failure(TickerRequired);
    }
    var found := repo.GetStockByTicker(ticker, dbError);
    match found {
      case Success(stock) => r := Success(stock);
      case Failure(e) => r := Failure(StockNotFound(e));
    }
  }
}
