// The recommendation service: read the last month of rating events, hand
// them to the recommender, and wrap the result with its count and a
// message chosen by that count.

module Services {
  import opened Wrappers
  import opened Models
  import opened Strconv
  import Cockroachdb

  /** RecommendationResponse; R is the recommender's result type. */
  datatype Response<R> = Response(recommendations: seq<R>, generatedAt: int, count: int, message: string)

  // The messages of the three cases (no recommendation, exactly one, several),
  // each written as its distinctive opening word and the rest of the sentence.
  const NoneText := "No" + " se encontraron recomendaciones para hoy. Intente más tarde cuando haya nuevas actualizaciones."
  const OneText := "Se encontró" + " 1 recomendación de inversión para hoy."
  const ManyPrefix := "Se encontraron "
  const ManySuffix := " recomendaciones de inversión para hoy."

  /** generateResponseMessage. */
  function ResponseMessage(count: int): (m: string)
    ensures count == 0 ==> m == NoneText
    ensures count == 1 ==> m == OneText
    ensures count != 0 && count != 1 ==> m == ManyPrefix + Itoa(count) + ManySuffix
  {
    if count == 0 then NoneText
    else if count == 1 then OneText
    else ManyPrefix + Itoa(count) + ManySuffix
  }

  /** The characters that tell the three kinds of message apart. */
  lemma MessageMarks(count: int)
    ensures ResponseMessage(count)[0] == (if count == 0 then 'N' else 'S')
    ensures count != 0 ==>
              (|ResponseMessage(count)| > 10 && ResponseMessage(count)[10] == (if count == 1 then 'ó' else 'a'))
  {
    var none, one := "No", "Se encontró";
    assert NoneText[0] == none[0];
    assert OneText[0] == one[0] && OneText[10] == one[10];
  }

  /** The message determines the count: no two counts share a message. */
  lemma ResponseMessageInjective(m: int, n: int)
    requires ResponseMessage(m) == ResponseMessage(n)
    ensures m == n
  {
    if m != 0 && m != 1 && n != 0 && n != 1 {
      var a, b := ManyPrefix + Itoa(m) + ManySuffix, ManyPrefix + Itoa(n) + ManySuffix;
      assert |Itoa(m)| == |Itoa(n)|;
      assert Itoa(m) == a[|ManyPrefix|..|ManyPrefix| + |Itoa(m)|];
      assert Itoa(n) == b[|ManyPrefix|..|ManyPrefix| + |Itoa(n)|];
      ItoaInjective(m, n);
    } else {
      MessageMarks(m);
      MessageMarks(n);
    }
  }

  /** The response built from the recommender's results: Count is their
      number and the message is chosen by that same number. */
  function BuildResponse<R>(recommendations: seq<R>, generatedAt: int): (r: Response<R>)
    ensures r.recommendations == recommendations && r.generatedAt == generatedAt
    ensures r.count == |r.recommendations| && r.message == ResponseMessage(r.count)
  {
    Response(recommendations, generatedAt, |recommendations|, ResponseMessage(|recommendations|))
  }

  /** The number of recommendations asked of the recommender. */
  const RecommendationLimit := 10

  /** GetRecommendations: `now` is time.Now() for the window's end,
      `generatedAt` the second time.Now(), `monthBack` is AddDate(0, -1, 0),
      `recommend` the recommender, `dbError` the failure of the date-range
      query if it fails. `events` is the rows the query returned. */
  method GetRecommendations<R>(repo: Cockroachdb.StockRepository, now: int, generatedAt: int,
                               monthBack: int -> int, dbError: Option<string>,
                               recommend: (seq<Stock>, int) -> seq<R>)
    returns (r: Result<Response<R>, string>, ghost events: seq<Stock>)
    requires repo.Valid()
    ensures dbError.Some? ==> r == Failure(dbError.value)
    ensures dbError.None? ==>
      && Cockroachdb.IsResultOf(events, repo.rows, Cockroachdb.TimeBetween(monthBack(now), now), Cockroachdb.TimeDesc)
      && r.Success?
      && r.value.recommendations == recommend(events, RecommendationLimit)
      && r.value.generatedAt == generatedAt
      && r.value.count == |r.value.recommendations|
      && r.value.message == ResponseMessage(r.value.count)
  {
    var endDate := now;
    var startDate := monthBack(endDate);
    if dbError.Some? {
      return Failure(dbError.value), [];
    }
    var stocks := repo.GetStocksByDateRange(startDate, endDate);
    events := stocks;
    var results := recommend(stocks, RecommendationLimit);
    r := Success(BuildResponse(results, generatedAt));
  }

  /** With no event in the window, and a recommender that has nothing to say
      about no events, the answer is the empty response with the
      "no recommendations" message. */
  lemma QuietMonth<R>(table: map<string, Stock>, start: int, end: int, events: seq<Stock>,
                      recommend: (seq<Stock>, int) -> seq<R>, generatedAt: int)
    requires Cockroachdb.IsResultOf(events, table, Cockroachdb.TimeBetween(start, end), Cockroachdb.TimeDesc)
    requires forall t | t in table :: !(start <= table[t].time <= end)
    requires recommend([], RecommendationLimit) == []
    ensures BuildResponse(recommend(events, RecommendationLimit), generatedAt) == Response([], generatedAt, 0, NoneText)
  {
    assert Cockroachdb.MatchingKeys(table, Cockroachdb.TimeBetween(start, end)) == {};
  }
}
