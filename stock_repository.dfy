/** The CockroachDB-backed event store of
    internal/adapters/secondary/cockroachdb/stock_repository.go: one `stocks`
    table keyed by ticker, written by a transactional batch UPSERT and read by
    filtered, ordered and windowed SELECTs. */
module Cockroachdb {
  import opened Wrappers
  import opened Models
  import opened Strings

  // ---------------------------------------------------------------------
  // WHERE clauses
  // ---------------------------------------------------------------------

  datatype Filter =
    | All                                 // no WHERE clause
    | BrokerageIs(brokerage: string)      // WHERE brokerage = $1
    | TickerLike(pattern: string)         // WHERE ticker ILIKE $1
    | RatingIs(rating: string)            // WHERE rating_from = $1 OR rating_to = $1
    | TimeBetween(start: int, end: int)   // WHERE time BETWEEN $1 AND $2

  predicate Matches(f: Filter, s: Stock)
  {
    match f
    case All => true
    case BrokerageIs(b) => s.brokerage == b
    case TickerLike(p) => ILike(s.ticker, p)
    case RatingIs(r) => s.ratingFrom == r || s.ratingTo == r
    case TimeBetween(a, b) => a <= s.time <= b
  }

  // ---------------------------------------------------------------------
  // ORDER BY
  // ---------------------------------------------------------------------

  datatype Column = TickerColumn | CompanyColumn | BrokerageColumn | RatingFromColumn | RatingToColumn | TimeColumn

  datatype Direction = Asc | Desc

  datatype Ordering = OrderBy(column: Column, direction: Direction)

  /** ORDER BY time DESC, the order of every filtered query. */
  const TimeDesc := OrderBy(TimeColumn, Desc)

  /** The column a name in the table's schema denotes. */
  function ColumnNamed(name: string): Option<Column>
  {
    match name
    case "ticker" => Some(TickerColumn)
    case "company" => Some(CompanyColumn)
    case "brokerage" => Some(BrokerageColumn)
    case "rating_from" => Some(RatingFromColumn)
    case "rating_to" => Some(RatingToColumn)
    case "time" => Some(TimeColumn)
    case _ => None
  }

  /** The ordering GetStocks asks for, with its defaults for empty arguments. */
  function RequestedOrdering(orderBy: string, sortOrder: string): Ordering
    requires orderBy == "" || ColumnNamed(orderBy).Some?
  {
    OrderBy(if orderBy == "" then TimeColumn else ColumnNamed(orderBy).value,
            if sortOrder == "ASC" then Asc else Desc)
  }

  /** a's value in column c is at most b's. */
  predicate KeyLe(c: Column, a: Stock, b: Stock)
  {
    match c
    case TickerColumn => LexLe(a.ticker, b.ticker)
    case CompanyColumn => LexLe(a.company, b.company)
    case BrokerageColumn => LexLe(a.brokerage, b.brokerage)
    case RatingFromColumn => LexLe(a.ratingFrom, b.ratingFrom)
    case RatingToColumn => LexLe(a.ratingTo, b.ratingTo)
    case TimeColumn => a.time <= b.time
  }

  /** a may be returned before b under ordering o. */
  predicate InOrder(o: Ordering, a: Stock, b: Stock)
  {
    if o.direction == Asc then KeyLe(o.column, a, b) else KeyLe(o.column, b, a)
  }

  lemma InOrderTotal(o: Ordering, a: Stock, b: Stock)
    ensures InOrder(o, a, b) || InOrder(o, b, a)
  {
    match o.column
    case TickerColumn => LexLeTotal(a.ticker, b.ticker);
    case CompanyColumn => LexLeTotal(a.company, b.company);
    case BrokerageColumn => LexLeTotal(a.brokerage, b.brokerage);
    case RatingFromColumn => LexLeTotal(a.ratingFrom, b.ratingFrom);
    case RatingToColumn => LexLeTotal(a.ratingTo, b.ratingTo);
    case TimeColumn =>
  }

  lemma InOrderTransitive(o: Ordering, a: Stock, b: Stock, c: Stock)
    requires InOrder(o, a, b) && InOrder(o, b, c)
    ensures InOrder(o, a, c)
  {
    var (x, y, z) := if o.direction == Asc then (a, b, c) else (c, b, a);
    assert KeyLe(o.column, x, y) && KeyLe(o.column, y, z);
    match o.column
    case TickerColumn => LexLeTransitive(x.ticker, y.ticker, z.ticker);
    case CompanyColumn => LexLeTransitive(x.company, y.company, z.company);
    case BrokerageColumn => LexLeTransitive(x.brokerage, y.brokerage, z.brokerage);
    case RatingFromColumn => LexLeTransitive(x.ratingFrom, y.ratingFrom, z.ratingFrom);
    case RatingToColumn => LexLeTransitive(x.ratingTo, y.ratingTo, z.ratingTo);
    case TimeColumn =>
  }

  ghost predicate Sorted(o: Ordering, q: seq<Stock>)
  {
    forall i, j :: 0 <= i < j < |q| ==> InOrder(o, q[i], q[j])
  }

  /** Places x in front of the first element it may precede. */
  function Insert(o: Ordering, x: Stock, q: seq<Stock>): (r: seq<Stock>)
    ensures |r| == |q| + 1
    ensures forall y :: y in r <==> y == x || y in q
  {
    if q == [] then [x]
    else if InOrder(o, x, q[0]) then [x] + q
    else [q[0]] + Insert(o, x, q[1..])
  }

  lemma {:induction false} InsertSorted(o: Ordering, x: Stock, q: seq<Stock>)
    requires Sorted(o, q)
    ensures Sorted(o, Insert(o, x, q))
  {
    if q == [] {
    } else if InOrder(o, x, q[0]) {
      forall j | 0 < j < |q| ensures InOrder(o, x, q[j]) {
        InOrderTransitive(o, x, q[0], q[j]);
      }
    } else {
      var rest := Insert(o, x, q[1..]);
      InsertSorted(o, x, q[1..]);
      InOrderTotal(o, x, q[0]);
      forall y | y in rest ensures InOrder(o, q[0], y) {
        if y != x {
          var j :| 0 <= j < |q[1..]| && q[1..][j] == y;
          assert q[j + 1] == y;
        }
      }
      var r := [q[0]] + rest;
      forall i, j | 0 <= i < j < |r| ensures InOrder(o, r[i], r[j]) {
        if i == 0 {
          assert r[j] == rest[j - 1];
          assert r[j] in rest;
        } else {
          assert r[i] == rest[i - 1] && r[j] == rest[j - 1];
        }
      }
    }
  }

  // ---------------------------------------------------------------------
  // The table as a map and what queries return
  // ---------------------------------------------------------------------

  /** Every stored row sits under its own ticker (ticker is the PRIMARY KEY). */
  ghost predicate KeyedByTicker(table: map<string, Stock>)
  {
    forall t :: t in table ==> table[t].ticker == t
  }

  /** The primary keys of the rows a WHERE clause selects. */
  ghost function MatchingKeys(table: map<string, Stock>, f: Filter): set<string>
  {
    set t | t in table && Matches(f, table[t])
  }

  /** The keys among `keys` whose rows satisfy the WHERE clause. */
  ghost function MatchingIn(table: map<string, Stock>, f: Filter, keys: set<string>): set<string>
  {
    Among(keys, MatchingKeys(table, f))
  }

  /** The members of `keys` that are in `selected`. */
  ghost function Among(keys: set<string>, selected: set<string>): set<string>
  {
    set t | t in keys && t in selected
  }

  /** Scanning one more key adds it to the selected keys exactly when its
      row satisfies the WHERE clause. */
  lemma MatchingStep(table: map<string, Stock>, f: Filter, done: set<string>, t: string)
    requires t in table && t !in done
    ensures MatchingIn(table, f, done + {t}) ==
            MatchingIn(table, f, done) + (if Matches(f, table[t]) then {t} else {})
    ensures |MatchingIn(table, f, done + {t})| ==
            |MatchingIn(table, f, done)| + (if Matches(f, table[t]) then 1 else 0)
  {
    var selected := MatchingKeys(table, f);
    assert t in selected <==> Matches(f, table[t]);
    AmongStep(done, selected, t);
  }

  /** Scanning every key selects the rows the WHERE clause selects. */
  lemma MatchingInAll(table: map<string, Stock>, f: Filter)
    ensures MatchingIn(table, f, table.Keys) == MatchingKeys(table, f)
  {
    assert MatchingKeys(table, f) <= table.Keys;
  }

  lemma AmongStep(done: set<string>, selected: set<string>, t: string)
    requires t !in done
    ensures Among(done + {t}, selected) == Among(done, selected) + (if t in selected then {t} else {})
    ensures |Among(done + {t}, selected)| == |Among(done, selected)| + (if t in selected then 1 else 0)
  {
    var added: set<string> := if t in selected then {t} else {};
    assert Among(done + {t}, selected) == Among(done, selected) + added;
    assert t !in Among(done, selected);
  }

  /** q is a full answer to "SELECT ... WHERE f ORDER BY o" on table: each
      selected row exactly once (no more entries than selected rows, every
      entry a selected row, every selected row present), in order o. Rows
      that tie under o may come in any order. */
  ghost predicate IsResultOf(q: seq<Stock>, table: map<string, Stock>, f: Filter, o: Ordering)
  {
    && |q| == |MatchingKeys(table, f)|
    && (forall x :: x in q ==> x.ticker in table && table[x.ticker] == x && Matches(f, x))
    && (forall t :: t in table && Matches(f, table[t]) ==> table[t] in q)
    && Sorted(o, q)
  }

  /** LIMIT limit OFFSET offset. */
  function Window(q: seq<Stock>, offset: nat, limit: nat): seq<Stock>
  {
    if offset >= |q| then []
    else if offset + limit >= |q| then q[offset..]
    else q[offset..offset + limit]
  }

  /** A window holds at most `limit` rows: the entries of q from `offset` on,
      as many as fit. */
  lemma WindowShape(q: seq<Stock>, offset: nat, limit: nat)
    ensures |Window(q, offset, limit)| <= limit
    ensures |Window(q, offset, limit)| == if offset >= |q| then 0
                                         else if offset + limit >= |q| then |q| - offset
                                         else limit
    ensures forall i :: 0 <= i < |Window(q, offset, limit)| ==> Window(q, offset, limit)[i] == q[offset + i]
  {
  }

  /** The rows of consecutive pages of size `limit`, from `offset` on. */
  function PagesFrom(q: seq<Stock>, offset: nat, limit: nat): seq<Stock>
    requires limit >= 1
    decreases |q| - offset
  {
    if offset >= |q| then [] else Window(q, offset, limit) + PagesFrom(q, offset + limit, limit)
  }

  /** Paging through a result with any page size returns every row once, in
      order. */
  lemma {:induction false} PagesCoverResult(q: seq<Stock>, offset: nat, limit: nat)
    requires limit >= 1 && offset <= |q|
    ensures PagesFrom(q, offset, limit) == q[offset..]
    decreases |q| - offset
  {
    if offset < |q| {
      if offset + limit >= |q| {
        assert PagesFrom(q, offset + limit, limit) == [];
      } else {
        PagesCoverResult(q, offset + limit, limit);
        assert q[offset..] == q[offset..offset + limit] + q[offset + limit..];
      }
    }
  }

  // ---------------------------------------------------------------------
  // Batch UPSERT
  // ---------------------------------------------------------------------

  /** The table after UPSERTing the batch's rows one after the other. */
  function Upserted(table: map<string, Stock>, batch: seq<Stock>): map<string, Stock>
  {
    if batch == [] then table
    else
      var last := batch[|batch| - 1];
      Upserted(table, batch[..|batch| - 1])[last.ticker := last]
  }

  function Tickers(batch: seq<Stock>): set<string>
  {
    set i | 0 <= i < |batch| :: batch[i].ticker
  }

  /** Exactly the batch's tickers are added to the keys. */
  lemma {:induction false} UpsertedKeys(table: map<string, Stock>, batch: seq<Stock>)
    ensures Upserted(table, batch).Keys == table.Keys + Tickers(batch)
  {
    if batch != [] {
      var init := batch[..|batch| - 1];
      UpsertedKeys(table, init);
      assert Tickers(batch) == Tickers(init) + {batch[|batch| - 1].ticker} by {
        forall t | t in Tickers(batch) ensures t in Tickers(init) + {batch[|batch| - 1].ticker} {
          var i :| 0 <= i < |batch| && batch[i].ticker == t;
          if i < |batch| - 1 { assert init[i] == batch[i]; }
        }
        forall t | t in Tickers(init) ensures t in Tickers(batch) {
          var i :| 0 <= i < |init| && init[i].ticker == t;
          assert batch[i] == init[i];
        }
      }
    }
  }

  /** A row whose ticker is not in the batch is left exactly as it was. */
  lemma {:induction false} UpsertedUntouched(table: map<string, Stock>, batch: seq<Stock>, t: string)
    requires t !in Tickers(batch)
    ensures t in Upserted(table, batch) <==> t in table
    ensures t in table ==> Upserted(table, batch)[t] == table[t]
  {
    if batch != [] {
      var init := batch[..|batch| - 1];
      assert batch[|batch| - 1].ticker in Tickers(batch);
      forall i | 0 <= i < |init| ensures init[i].ticker != t {
        assert init[i] == batch[i];
      }
      UpsertedUntouched(table, init, t);
    }
  }

  /** Last write wins and replaces the whole row: a ticker of the batch maps
      to the batch's last element with that ticker, with all its fields. */
  lemma {:induction false} UpsertedLastWins(table: map<string, Stock>, batch: seq<Stock>, t: string) returns (i: nat)
    requires t in Tickers(batch)
    ensures i < |batch| && batch[i].ticker == t
    ensures forall j :: i < j < |batch| ==> batch[j].ticker != t
    ensures t in Upserted(table, batch) && Upserted(table, batch)[t] == batch[i]
  {
    var last := batch[|batch| - 1];
    var init := batch[..|batch| - 1];
    if last.ticker == t {
      i := |batch| - 1;
    } else {
      assert t in Tickers(init) by {
        var k :| 0 <= k < |batch| && batch[k].ticker == t;
        assert init[k] == batch[k];
      }
      i := UpsertedLastWins(table, init, t);
      assert batch[i] == init[i];
      forall j | i < j < |batch| ensures batch[j].ticker != t {
        if j < |batch| - 1 { assert batch[j] == init[j]; }
      }
    }
  }

  /** Storage stays keyed by ticker. */
  lemma {:induction false} UpsertedKeyed(table: map<string, Stock>, batch: seq<Stock>)
    requires KeyedByTicker(table)
    ensures KeyedByTicker(Upserted(table, batch))
  {
    if batch != [] {
      UpsertedKeyed(table, batch[..|batch| - 1]);
    }
  }

  /** Saving the same batch twice leaves the table as saving it once. */
  lemma UpsertIdempotent(table: map<string, Stock>, batch: seq<Stock>)
    ensures Upserted(Upserted(table, batch), batch) == Upserted(table, batch)
  {
    var once := Upserted(table, batch);
    var twice := Upserted(once, batch);
    UpsertedKeys(table, batch);
    UpsertedKeys(once, batch);
    forall t | t in twice ensures twice[t] == once[t] {
      if t in Tickers(batch) {
        var i := UpsertedLastWins(table, batch, t);
        var i' := UpsertedLastWins(once, batch, t);
      } else {
        UpsertedUntouched(once, batch, t);
      }
    }
    assert twice.Keys == once.Keys;
  }

  // ---------------------------------------------------------------------
  // Failures of the write transaction
  // ---------------------------------------------------------------------

  /** Which steps of the SaveStocks transaction the database rejects:
      BeginTx, PrepareContext, the ExecContext of the listed batch positions,
      Commit. */
  datatype TxFaults = TxFaults(beginFails: bool, prepareFails: bool, failingUpserts: set<nat>, commitFails: bool)

  datatype SaveError =
    | BeginFailed               // "error starting transaction"
    | PrepareFailed             // "error preparing statement"
    | UpsertFailed(ticker: string)  // "error saving stock <ticker>"
    | CommitFailed              // "error committing transaction"

  /** The first of the batch's n positions whose upsert fails, if any. */
  function FirstFailing(failing: set<nat>, n: nat): (r: Option<nat>)
    ensures r.Some? ==> r.value < n && r.value in failing && forall j :: 0 <= j < r.value ==> j !in failing
    ensures r.None? ==> forall j :: 0 <= j < n ==> j !in failing
  {
    if n == 0 then None
    else
      var f := FirstFailing(failing, n - 1);
      if f.Some? then f else if n - 1 in failing then Some(n - 1) else None
  }

  /** The error SaveStocks reports for a batch under the given faults. */
  function SaveOutcome(batch: seq<Stock>, faults: TxFaults): Option<SaveError>
  {
    if faults.beginFails then Some(BeginFailed)
    else if faults.prepareFails then Some(PrepareFailed)
    else match FirstFailing(faults.failingUpserts, |batch|)
      case Some(i) => Some(UpsertFailed(batch[i].ticker))
      case None => if faults.commitFails then Some(CommitFailed) else None
  }

  /** A failed upsert is reported with the ticker of the first failing
      position, and the batch positions before it all succeeded. */
  lemma SaveErrorNamesTicker(batch: seq<Stock>, faults: TxFaults)
    requires !faults.beginFails && !faults.prepareFails
    requires exists i :: 0 <= i < |batch| && i in faults.failingUpserts
    ensures SaveOutcome(batch, faults).Some? && SaveOutcome(batch, faults).value.UpsertFailed?
    ensures exists i :: 0 <= i < |batch| && i in faults.failingUpserts
                        && (forall j :: 0 <= j < i ==> j !in faults.failingUpserts)
                        && SaveOutcome(batch, faults) == Some(UpsertFailed(batch[i].ticker))
  {
  }

  /** Lookup by primary key. */
  datatype LookupError =
    | NotFound(ticker: string)    // "stock not found: <ticker>" (sql.ErrNoRows)
    | QueryFailed(reason: string) // "error getting stock: ..."

  // ---------------------------------------------------------------------
  // The repository
  // ---------------------------------------------------------------------

  class StockRepository {
    /** The `stocks` table: primary key ticker to row. */
    var rows: map<string, Stock>

    ghost predicate Valid()
      reads this
    {
      KeyedByTicker(rows)
    }

    constructor ()
      ensures Valid() && rows == map[]
    {
      rows := map[];
    }

    /** SaveStocks: inside one transaction, UPSERT every element of the
        batch in order; on any failure roll back to the state before the
        call. */
    method SaveStocks(stocks: seq<Stock>, faults: TxFaults) returns (err: Option<SaveError>)
      requires Valid()
      modifies this
      ensures Valid()
      ensures err == SaveOutcome(stocks, faults)
      ensures err.None? ==> rows == Upserted(old(rows), stocks)
      ensures err.Some? ==> rows == old(rows)
    {
      if faults.beginFails {
        return Some(BeginFailed);
      }
      var snapshot := rows;  // what a rollback restores
      if faults.prepareFails {
        rows := snapshot;
        return Some(PrepareFailed);
      }
      var i := 0;
      while i < |stocks|
        invariant 0 <= i <= |stocks|
        invariant rows == Upserted(snapshot, stocks[..i])
        invariant FirstFailing(faults.failingUpserts, i).None?
        invariant Valid()
      {
        if i in faults.failingUpserts {
          rows := snapshot;
          return Some(UpsertFailed(stocks[i].ticker));
        }
        var stock := stocks[i];
        assert stocks[..i + 1][..i] == stocks[..i];
        rows := rows[stock.ticker := stock];
        i := i + 1;
      }
      assert stocks[..i] == stocks;
      if faults.commitFails {
        rows := snapshot;
        return Some(CommitFailed);
      }
      return None;
    }

    /** SELECT ... WHERE f ORDER BY o: scans the table in an unspecified key
        order and places each selected row by the ordering. */
    method Select(f: Filter, o: Ordering) returns (ordered: seq<Stock>)
      requires Valid()
      ensures IsResultOf(ordered, rows, f, o)
    {
      var remaining := rows.Keys;
      ordered := [];
      while remaining != {}
        invariant remaining <= rows.Keys
        invariant |ordered| == |MatchingIn(rows, f, rows.Keys - remaining)|
        invariant forall x :: x in ordered ==> x.ticker in rows && rows[x.ticker] == x && Matches(f, x)
        invariant forall t :: t in rows && t !in remaining && Matches(f, rows[t]) ==> rows[t] in ordered
        invariant Sorted(o, ordered)
        decreases remaining
      {
        var t :| t in remaining;
        MatchingStep(rows, f, rows.Keys - remaining, t);
        assert rows.Keys - (remaining - {t}) == (rows.Keys - remaining) + {t};
        if Matches(f, rows[t]) {
          InsertSorted(o, rows[t], ordered);
          ordered := Insert(o, rows[t], ordered);
        }
        remaining := remaining - {t};
      }
      assert rows.Keys - remaining == rows.Keys;
      MatchingInAll(rows, f);
    }

    /** SELECT COUNT(*) ... WHERE f. */
    method Count(f: Filter) returns (n: nat)
      ensures n == |MatchingKeys(rows, f)|
    {
      var remaining := rows.Keys;
      n := 0;
      while remaining != {}
        invariant remaining <= rows.Keys
        invariant n == |MatchingIn(rows, f, rows.Keys - remaining)|
        decreases remaining
      {
        var t :| t in remaining;
        MatchingStep(rows, f, rows.Keys - remaining, t);
        assert rows.Keys - (remaining - {t}) == (rows.Keys - remaining) + {t};
        if Matches(f, rows[t]) {
          n := n + 1;
        }
        remaining := remaining - {t};
      }
      assert rows.Keys - remaining == rows.Keys;
      MatchingInAll(rows, f);
    }

    /** GetStocks: every row, ordered by an allow-listed column ("time" when
        empty) and direction ("DESC" when empty), windowed. `ordered` is the
        full ordered result the window is cut from. */
    method GetStocks(orderBy: string, sortOrder: string, offset: nat, limit: nat)
      returns (stocks: seq<Stock>, ghost ordered: seq<Stock>)
      requires Valid()
      requires orderBy == "" || ColumnNamed(orderBy).Some?
      requires sortOrder in {"", "ASC", "DESC"}
      ensures IsResultOf(ordered, rows, All, RequestedOrdering(orderBy, sortOrder))
      ensures stocks == Window(ordered, offset, limit)
    {
      var result := Select(All, RequestedOrdering(orderBy, sortOrder));
      ordered := result;
      stocks := Window(result, offset, limit);
    }

    method CountStocks() returns (n: nat)
      ensures n == |rows|
    {
      n := Count(All);
      assert MatchingKeys(rows, All) == rows.Keys;
    }

    method GetStocksByBrokerage(brokerage: string, offset: nat, limit: nat)
      returns (stocks: seq<Stock>, ghost ordered: seq<Stock>)
      requires Valid()
      ensures IsResultOf(ordered, rows, BrokerageIs(brokerage), TimeDesc)
      ensures stocks == Window(ordered, offset, limit)
    {
      var result := Select(BrokerageIs(brokerage), TimeDesc);
      ordered := result;
      stocks := Window(result, offset, limit);
    }

    method CountStocksByBrokerage(brokerage: string) returns (n: nat)
      ensures n == |MatchingKeys(rows, BrokerageIs(brokerage))|
    {
      n := Count(BrokerageIs(brokerage));
    }

    /** Partial ticker search: ILIKE with the argument wrapped in '%'. */
    method GetStocksByTickerPattern(tickerPattern: string, offset: nat, limit: nat)
      returns (stocks: seq<Stock>, ghost ordered: seq<Stock>)
      requires Valid()
      ensures IsResultOf(ordered, rows, TickerLike("%" + tickerPattern + "%"), TimeDesc)
      ensures stocks == Window(ordered, offset, limit)
    {
      var result := Select(TickerLike("%" + tickerPattern + "%"), TimeDesc);
      ordered := result;
      stocks := Window(result, offset, limit);
    }

    method CountStocksByTickerPattern(tickerPattern: string) returns (n: nat)
      ensures n == |MatchingKeys(rows, TickerLike("%" + tickerPattern + "%"))|
    {
      n := Count(TickerLike("%" + tickerPattern + "%"));
    }

    method GetStocksByRating(rating: string, offset: nat, limit: nat)
      returns (stocks: seq<Stock>, ghost ordered: seq<Stock>)
      requires Valid()
      ensures IsResultOf(ordered, rows, RatingIs(rating), TimeDesc)
      ensures stocks == Window(ordered, offset, limit)
    {
      var result := Select(RatingIs(rating), TimeDesc);
      ordered := result;
      stocks := Window(result, offset, limit);
    }

    method CountStocksByRating(rating: string) returns (n: nat)
      ensures n == |MatchingKeys(rows, RatingIs(rating))|
    {
      n := Count(RatingIs(rating));
    }

    /** SELECT ... WHERE ticker = $1. `dbError` is a failure the driver
        reports instead of an answer. */
    method GetStockByTicker(ticker: string, dbError: Option<string>) returns (r: Result<Stock, LookupError>)
      requires Valid()
      ensures dbError.Some? ==> r == Failure(QueryFailed(dbError.value))
      ensures dbError.None? ==> (r.Success? <==> ticker in rows)
      ensures dbError.None? && r.Success? ==> r.value == rows[ticker] && r.value.ticker == ticker
      ensures dbError.None? && r.Failure? ==> r.error == NotFound(ticker)
    {
      if dbError.Some? {
        return Failure(QueryFailed(dbError.value));
      }
      if ticker in rows {
        return Success(rows[ticker]);
      }
      return Failure(NotFound(ticker));
    }

    /** Every row with start <= time <= end, newest first, unwindowed. */
    method GetStocksByDateRange(startDate: int, endDate: int) returns (stocks: seq<Stock>)
      requires Valid()
      ensures IsResultOf(stocks, rows, TimeBetween(startDate, endDate), TimeDesc)
    {
      stocks := Select(TimeBetween(startDate, endDate), TimeDesc);
    }
  }

  /** A ticker search with a metacharacter-free argument selects exactly the
      rows whose ticker contains it, ignoring ASCII case. */
  lemma TickerSearchIsSubstring(tickerPattern: string, s: Stock)
    requires NoLikeMeta(tickerPattern)
    ensures Matches(TickerLike("%" + tickerPattern + "%"), s) <==> Contains(Lower(s.ticker), Lower(tickerPattern))
  {
    ILikeInfixIsContains(tickerPattern, s.ticker);
  }

  /** Re-saving a ticker with different ratings leaves one row for it, the
      new one. */
  lemma ResaveReplacesRow(table: map<string, Stock>, first: Stock, second: Stock)
    requires first.ticker == second.ticker == "XYZ"
    requires first.ratingFrom == "Hold" && first.ratingTo == "Buy"
    requires second.ratingFrom == "Buy" && second.ratingTo == "Sell"
    ensures Upserted(Upserted(table, [first]), [second])["XYZ"] == second
    ensures Upserted(Upserted(table, [first]), [second])["XYZ"].ratingTo == "Sell"
  {
    assert [second][..0] == [];
    assert [first][..0] == [];
  }
}
