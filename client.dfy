/** The external feed client of internal/adapters/secondary/stockapi/client.go:
    one page fetch, pure once the HTTP exchange is an input, and the
    pagination loop with its retry policy. */
module StockApi {
  import opened Wrappers
  import opened Models
  import opened Strconv

  const DefaultBaseURL := "https://api.stockapi.com/v1/stocks"
  const DefaultAuthToken := ""
  const MaxRetries := 3
  const StatusOK := 200
  const StatusGone := 410

  // The texts of the two errors FetchStocks builds from fixed messages: the
  // endpoint is gone (410), and no authentication token is configured.
  const GoneText := "API resource" + " is no longer available (410 Gone). The API endpoint might have been deprecated or moved"
  const MissingTokenText := "no se" + " ha configurado el token de autenticación (STOCK_API_AUTH_TOKEN)"

  datatype Client = Client(baseURL: string, authToken: string)

  /** os.Getenv: the variable's value, or "" when it is unset. */
  function Getenv(env: map<string, string>, key: string): string
  {
    if key in env then env[key] else ""
  }

  /** NewClient: base URL and token from the environment, an empty value
      falling back to the default. */
  function NewClient(env: map<string, string>): (c: Client)
    ensures c.baseURL != ""
    ensures Getenv(env, "STOCK_API_BASE_URL") != "" ==> c.baseURL == env["STOCK_API_BASE_URL"]
    ensures Getenv(env, "STOCK_API_BASE_URL") == "" ==> c.baseURL == DefaultBaseURL
    ensures c.authToken == Getenv(env, "STOCK_API_AUTH_TOKEN")
  {
    var baseURL := Getenv(env, "STOCK_API_BASE_URL");
    var authToken := Getenv(env, "STOCK_API_AUTH_TOKEN");
    Client(if baseURL == "" then DefaultBaseURL else baseURL,
           if authToken == "" then DefaultAuthToken else authToken)
  }

  /** The decoded JSON body of a 200 answer (APIResponse). */
  datatype Page = Page(items: seq<Stock>, nextPage: string)

  /** What happened to one request once it was built: the request could not
      be created, the transport failed, the body could not be read, or a
      status and body came back (`decoded` is json.Unmarshal of the body). */
  datatype HttpOutcome =
    | RequestRejected(reason: string)
    | TransportFailed(reason: string)
    | BodyUnreadable(reason: string)
    | Responded(status: int, body: string, decoded: Result<Page, string>)

  datatype FetchError =
    | MissingToken
    | CreatingRequest(reason: string)
    | MakingRequest(reason: string)
    | ReadingBody(reason: string)
    | Gone
    | ApiError(statusCode: int, body: string, url: string)
    | Decoding(reason: string)

  /** err.Error() for each error FetchStocks returns. */
  function ErrorText(e: FetchError): (t: string)
    ensures e.Gone? ==> t == GoneText
    ensures e.MissingToken? ==> t == MissingTokenText
    ensures e.CreatingRequest? || e.MakingRequest? || e.ReadingBody? || e.Decoding? ==>
              |t| > |e.reason| && t[|t| - |e.reason|..] == e.reason
    ensures e.ApiError? ==> |t| > |e.body| && t[|t| - |e.body|..] == e.body
  {
    match e
    case MissingToken => MissingTokenText
    case CreatingRequest(r) => "error creating request: " + r
    case MakingRequest(r) => "error making request: " + r
    case ReadingBody(r) => "error reading response body: " + r
    case Gone => GoneText
    case ApiError(s, b, u) => "API returned status " + Itoa(s) + " for URL " + u + ": " + b
    case Decoding(r) => "error decoding response: " + r
  }

  /** The status of an API error can be read back from its text: it is the
      decimal number right after the fixed prefix. */
  lemma ApiErrorStatusReadable(status: int, body: string, url: string)
    requires InInt64(status)
    ensures var t, p := ErrorText(ApiError(status, body, url)), "API returned status ";
      && |t| >= |p| + |Itoa(status)|
      && t[..|p|] == p
      && Atoi(t[|p|..|p| + |Itoa(status)|]) == Some(status)
  {
    var p := "API returned status ";
    var rest := " for URL " + url + ": " + body;
    assert ErrorText(ApiError(status, body, url)) == p + Itoa(status) + rest;
    assert (p + Itoa(status) + rest)[|p|..|p| + |Itoa(status)|] == Itoa(status);
    AtoiItoa(status);
  }

  /** FetchAllStocks recognises the 410 error by its text; no other error
      FetchStocks returns has that text. */
  lemma GoneTextOnlyForGone(e: FetchError)
    ensures ErrorText(e) == GoneText <==> e.Gone?
  {
    if !e.Gone? {
      var g := GoneText;
      assert g[0] == 'A' && g[6] == 's' by {
        assert g[0] == "API resource"[0] && g[6] == "API resource"[6];
      }
      OtherTextsDiffer(e);
    }
  }

  /** The text of every error but Gone differs from GoneText in its first
      or its seventh character. */
  lemma OtherTextsDiffer(e: FetchError)
    requires !e.Gone?
    ensures |ErrorText(e)| > 6 && (ErrorText(e)[0] != 'A' || ErrorText(e)[6] != 's')
  {
    match e
    case MissingToken => assert MissingTokenText[0] == "no se"[0] == 'n';
    case CreatingRequest(r) => StartsWithE("error creating request: ", r);
    case MakingRequest(r) => StartsWithE("error making request: ", r);
    case ReadingBody(r) => StartsWithE("error reading response body: ", r);
    case ApiError(s, b, u) => ApiErrorTextDiffers(s, b, u);
    case Decoding(r) => StartsWithE("error decoding response: ", r);
  }

  /** An API error's text has 't' where GoneText has 's'. */
  lemma ApiErrorTextDiffers(status: int, body: string, url: string)
    ensures var t := ErrorText(ApiError(status, body, url)); |t| > 6 && t[6] == 't'
  {
    var prefix := "API returned status ";
    assert prefix[6] == 't';
    assert ErrorText(ApiError(status, body, url)) == prefix + (Itoa(status) + " for URL " + url + ": " + body);
  }

  /** A wrapped error's text starts with its message's 'e'. */
  lemma StartsWithE(message: string, reason: string)
    requires |message| > 6 && message[0] == 'e'
    ensures |message + reason| > 6 && (message + reason)[0] == 'e'
  {
  }

  /** The URL of a page request: the base URL alone for the first page,
      otherwise the base URL with the encoded query "next_page=<cursor>".
      `escape` is url.QueryEscape. */
  function RequestURL(baseURL: string, cursor: string, escape: string -> string): (u: string)
    ensures |u| >= |baseURL| && u[..|baseURL|] == baseURL
    ensures u == baseURL <==> cursor == ""
    ensures cursor != "" ==> u[|baseURL|..] == "?next_page=" + escape(cursor)
  {
    if cursor == "" then baseURL else baseURL + "?" + "next_page=" + escape(cursor)
  }

  /** FetchStocks: fails before building any request when no token is
      configured; otherwise classifies what the single request produced. */
  function FetchStocks(c: Client, nextPage: string, escape: string -> string, response: HttpOutcome)
    : (r: Result<Page, FetchError>)
    ensures c.authToken == "" ==> r == Failure(MissingToken)
    ensures r.Success? <==> c.authToken != "" && response.Responded? && response.status == StatusOK
                            && response.decoded.Success?
    ensures r.Success? ==> r.value == response.decoded.value
    ensures r == Failure(Gone) <==> c.authToken != "" && response.Responded? && response.status == StatusGone
    ensures r.Failure? && r.error.ApiError? ==>
      && response.Responded?
      && r.error == ApiError(response.status, response.body, RequestURL(c.baseURL, nextPage, escape))
      && response.status != StatusOK && response.status != StatusGone
    ensures c.authToken != "" && response.Responded? && response.status != StatusOK && response.status != StatusGone ==>
              r == Failure(ApiError(response.status, response.body, RequestURL(c.baseURL, nextPage, escape)))
    ensures c.authToken != "" && response.Responded? && response.status == StatusOK && response.decoded.Failure? ==>
              r == Failure(Decoding(response.decoded.error))
    ensures c.authToken != "" && !response.Responded? ==>
              r.Failure? && (r.error.CreatingRequest? || r.error.MakingRequest? || r.error.ReadingBody?)
              && r.error.reason == response.reason
  {
    if c.authToken == "" then Failure(MissingToken)
    else
      var url := RequestURL(c.baseURL, nextPage, escape);
      match response
      case RequestRejected(reason) => Failure(CreatingRequest(reason))
      case TransportFailed(reason) => Failure(MakingRequest(reason))
      case BodyUnreadable(reason) => Failure(ReadingBody(reason))
      case Responded(status, body, decoded) =>
        if status != StatusOK then
          if status == StatusGone then Failure(Gone) else Failure(ApiError(status, body, url))
        else
          match decoded
          case Success(page) => Success(page)
          case Failure(reason) => Failure(Decoding(reason))
  }

  // ---------------------------------------------------------------------
  // FetchAllStocks
  // ---------------------------------------------------------------------

  /** The loop's variables: accumulated stocks, cursor, consecutive failures. */
  datatype Loop = Loop(all: seq<Stock>, nextPage: string, retryCount: nat)

  const Start := Loop([], "", 0)

  datatype Step = Continue(next: Loop) | Stop(result: Result<seq<Stock>, FetchError>)

  /** One pass of the loop body after FetchStocks returned `fetched`. The
      loop recognises 410 by comparing the error's text with GoneText; by
      GoneTextOnlyForGone that comparison holds exactly for the Gone error,
      which is what is tested here. */
  function Iterate(l: Loop, fetched: Result<Page, FetchError>): (s: Step)
    requires l.retryCount <= MaxRetries
    ensures s.Continue? ==> s.next.retryCount <= MaxRetries
  {
    match fetched
    case Failure(err) =>
      if err.Gone? then Stop(Failure(err))
      else if l.retryCount + 1 <= MaxRetries then Continue(l.(retryCount := l.retryCount + 1))
      else Stop(Failure(err))
    case Success(page) =>
      var all := if |page.items| > 0 then l.all + page.items else l.all;
      if page.nextPage == "" then Stop(Success(all)) else Continue(Loop(all, page.nextPage, 0))
  }

  /** What the attempt numbered k of FetchStocks returns for a cursor. */
  type Fetch = (string, nat) -> Result<Page, FetchError>

  /** The fetches of a client whose k-th request gets `network(k)`. */
  function Fetcher(c: Client, escape: string -> string, network: nat -> HttpOutcome): Fetch
  {
    (cursor: string, k: nat) => FetchStocks(c, cursor, escape, network(k))
  }

  /** One call of FetchStocks: the cursor it was given and what it returned. */
  datatype Attempt = Attempt(cursor: string, fetched: Result<Page, FetchError>)

  datatype Outcome = Finished(result: Result<seq<Stock>, FetchError>) | Exhausted

  datatype Run = Run(outcome: Outcome, attempts: seq<Attempt>)

  /** The loop run from state l at attempt n, with `fetch` giving each
      attempt's result; the run is Exhausted when it would need an attempt
      numbered `bound` or more. */
  function RunFrom(fetch: Fetch, n: nat, bound: nat, l: Loop): Run
    requires l.retryCount <= MaxRetries
    decreases bound - n
  {
    if n >= bound then Run(Exhausted, [])
    else
      var fetched := fetch(l.nextPage, n);
      var attempt := Attempt(l.nextPage, fetched);
      match Iterate(l, fetched)
      case Stop(result) => Run(Finished(result), [attempt])
      case Continue(l') =>
        var rest := RunFrom(fetch, n + 1, bound, l');
        Run(rest.outcome, [attempt] + rest.attempts)
  }

  /** FetchAllStocks: fetch pages from the empty cursor until a page comes
      back with an empty cursor, retrying a failed page up to MaxRetries
      times in a row, giving up at once on 410. `network(k)` is what the
      k-th request gets back if it is sent; `bound` is any number of
      attempts within which the feed lets the loop finish. */
  method FetchAllStocks(c: Client, escape: string -> string, network: nat -> HttpOutcome, ghost bound: nat)
    returns (r: Result<seq<Stock>, FetchError>)
    requires RunFrom(Fetcher(c, escape, network), 0, bound, Start).outcome.Finished?
    ensures RunFrom(Fetcher(c, escape, network), 0, bound, Start).outcome == Finished(r)
  {
    ghost var fetch := Fetcher(c, escape, network);
    var allStocks: seq<Stock> := [];
    var nextPage := "";
    var retryCount: nat := 0;
    var attempt: nat := 0;  // calls of FetchStocks so far; indexes the network's answers
    while true
      invariant retryCount <= MaxRetries
      invariant RunFrom(fetch, attempt, bound, Loop(allStocks, nextPage, retryCount)).outcome
             == RunFrom(fetch, 0, bound, Start).outcome
      decreases bound - attempt
    {
      var fetched := FetchStocks(c, nextPage, escape, network(attempt));
      assert fetched == fetch(nextPage, attempt);
      attempt := attempt + 1;
      if fetched.Failure? {
        var err := fetched.error;
        GoneTextOnlyForGone(err);
        if ErrorText(err) == GoneText {
          return Failure(err);
        }
        retryCount := retryCount + 1;
        if retryCount <= MaxRetries {
          // time.Sleep(2 * time.Second): waiting has no effect on the result
          continue;
        }
        return Failure(err);
      }
      var stocks := fetched.value.items;
      var newNextPage := fetched.value.nextPage;
      retryCount := 0;
      if |stocks| > 0 {
        allStocks := allStocks + stocks;
      }
      if newNextPage == "" {
        break;
      }
      nextPage := newNextPage;
    }
    return Success(allStocks);
  }

  // ---------------------------------------------------------------------
  // What a run of the loop does
  // ---------------------------------------------------------------------

  /** The items a call of FetchStocks contributes: its page's, or none. */
  function PageItems(fetched: Result<Page, FetchError>): seq<Stock>
  {
    if fetched.Success? then fetched.value.items else []
  }

  /** The items of the successful attempts, in order. */
  function FetchedItems(attempts: seq<Attempt>): seq<Stock>
  {
    if attempts == [] then [] else PageItems(attempts[0].fetched) + FetchedItems(attempts[1..])
  }

  /** One pass of the loop appends what FetchStocks returned, to the state
      it goes on with or to the result it stops with. */
  lemma IterateAccumulates(l: Loop, fetched: Result<Page, FetchError>)
    requires l.retryCount <= MaxRetries
    ensures var s := Iterate(l, fetched);
      && (s.Continue? ==> s.next.all == l.all + PageItems(fetched))
      && (s.Stop? && s.result.Success? ==> s.result.value == l.all + PageItems(fetched))
  {
  }

  /** A completed run returns what it had plus every successful page's
      items, in fetch order; failed attempts contribute nothing. */
  lemma {:induction false} RunCollectsPages(fetch: Fetch, n: nat, bound: nat, l: Loop)
    requires l.retryCount <= MaxRetries
    ensures var run := RunFrom(fetch, n, bound, l);
      run.outcome.Finished? && run.outcome.result.Success? ==>
        run.outcome.result.value == l.all + FetchedItems(run.attempts)
    decreases bound - n
  {
    if n < bound {
      var fetched := fetch(l.nextPage, n);
      var attempt := Attempt(l.nextPage, fetched);
      IterateAccumulates(l, fetched);
      match Iterate(l, fetched)
      case Stop(result) =>
        assert FetchedItems([attempt]) == PageItems(fetched) + FetchedItems([]);
      case Continue(l') =>
        RunCollectsPages(fetch, n + 1, bound, l');
        var rest := RunFrom(fetch, n + 1, bound, l').attempts;
        assert FetchedItems([attempt] + rest) == PageItems(fetched) + FetchedItems(rest) by {
          assert ([attempt] + rest)[1..] == rest;
        }
        assert l'.all + FetchedItems(rest) == l.all + (PageItems(fetched) + FetchedItems(rest));
    }
  }

  /** The cursor the loop passes after an attempt: the same one after a
      failure, the page's next cursor after a success. */
  function NextCursor(a: Attempt): string
  {
    if a.fetched.Failure? then a.cursor else a.fetched.value.nextPage
  }

  /** Attempts a, numbered from n, follow the cursor discipline from
      `cursor`: the k-th is the fetch numbered n + k on its cursor, the first
      uses `cursor`, and the cursor moves on only after a successful page. */
  ghost predicate CursorsFollow(fetch: Fetch, n: nat, cursor: string, a: seq<Attempt>)
  {
    && (|a| > 0 ==> a[0].cursor == cursor)
    && (forall k :: 0 <= k < |a| ==> a[k].fetched == fetch(a[k].cursor, n + k))
    && (forall i, j :: 0 <= i && j == i + 1 && j < |a| ==> a[j].cursor == NextCursor(a[i]))
  }

  lemma ConsCursors(fetch: Fetch, n: nat, x: Attempt, rest: seq<Attempt>)
    requires x.fetched == fetch(x.cursor, n)
    requires CursorsFollow(fetch, n + 1, NextCursor(x), rest)
    ensures CursorsFollow(fetch, n, x.cursor, [x] + rest)
  {
    var a := [x] + rest;
    forall k | 0 <= k < |a| ensures a[k].fetched == fetch(a[k].cursor, n + k) {
      if k > 0 {
        assert a[k] == rest[k - 1];
        assert rest[k - 1].fetched == fetch(rest[k - 1].cursor, n + 1 + (k - 1));
      }
    }
    forall i, j | 0 <= i && j == i + 1 && j < |a| ensures a[j].cursor == NextCursor(a[i]) {
      if i > 0 {
        assert a[i] == rest[i - 1] && a[j] == rest[j - 1];
      }
    }
  }

  /** Every run follows the cursor discipline from the loop's cursor. */
  lemma {:induction false} RunCursors(fetch: Fetch, n: nat, bound: nat, l: Loop)
    requires l.retryCount <= MaxRetries
    ensures CursorsFollow(fetch, n, l.nextPage, RunFrom(fetch, n, bound, l).attempts)
    decreases bound - n
  {
    if n < bound {
      var fetched := fetch(l.nextPage, n);
      var attempt := Attempt(l.nextPage, fetched);
      var run := RunFrom(fetch, n, bound, l);
      match Iterate(l, fetched)
      case Stop(result) =>
        assert run.attempts == [attempt] + [];
        ConsCursors(fetch, n, attempt, []);
      case Continue(l') =>
        var rest := RunFrom(fetch, n + 1, bound, l').attempts;
        assert run.attempts == [attempt] + rest;
        assert l'.nextPage == NextCursor(attempt);
        RunCursors(fetch, n + 1, bound, l');
        ConsCursors(fetch, n, attempt, rest);
    }
  }

  /** The loop's retry counter after a sequence of attempts started with r:
      one more after each failure, zero after each success. */
  function RetryCount(r: nat, attempts: seq<Attempt>): nat
    decreases |attempts|
  {
    if attempts == [] then r
    else RetryCount(if attempts[0].fetched.Failure? then r + 1 else 0, attempts[1..])
  }

  /** An attempt after which the loop goes on: a page with a cursor, or an
      error other than 410. */
  predicate Continues(a: Attempt)
  {
    && (a.fetched.Success? ==> a.fetched.value.nextPage != "")
    && (a.fetched.Failure? ==> !a.fetched.error.Gone?)
  }

  /** How the last attempt of a finished run (retry counter r at its start)
      produced the run's result: success on a page without a cursor, the 410
      error, or the failure that took the retry counter past MaxRetries. */
  predicate StopsWith(r: nat, attempts: seq<Attempt>, result: Result<seq<Stock>, FetchError>)
  {
    && attempts != []
    && var last := attempts[|attempts| - 1];
    match result
    case Success(_) => last.fetched.Success? && last.fetched.value.nextPage == ""
    case Failure(e) =>
      && last.fetched == Failure(e)
      && (e.Gone? || RetryCount(r, attempts) == MaxRetries + 1)
  }

  /** The loop goes on exactly after an attempt that Continues, with the
      retry counter RetryCount computes. */
  lemma IterateContinues(l: Loop, cursor: string, fetched: Result<Page, FetchError>)
    requires l.retryCount <= MaxRetries
    ensures var s := Iterate(l, fetched);
      && (s.Continue? <==> Continues(Attempt(cursor, fetched)) && RetryCount(l.retryCount, [Attempt(cursor, fetched)]) <= MaxRetries)
      && (s.Continue? ==> s.next.retryCount == RetryCount(l.retryCount, [Attempt(cursor, fetched)]))
  {
    assert [Attempt(cursor, fetched)][1..] == [];
  }

  /** Every attempt but the last of a run whose retry counter started at r
      continues the loop and leaves the counter within budget. */
  ghost predicate ContinuesUntilLast(r: nat, a: seq<Attempt>)
  {
    forall k :: 0 <= k < |a| - 1 ==> Continues(a[k]) && RetryCount(r, a[..k + 1]) <= MaxRetries
  }

  /** The retry counter after [x] + s is the counter after s started from
      the counter after x. */
  lemma RetryCountCons(r: nat, x: Attempt, s: seq<Attempt>)
    ensures RetryCount(r, [x] + s) == RetryCount(RetryCount(r, [x]), s)
  {
    assert ([x] + s)[1..] == s;
    assert [x][1..] == [];
  }

  /** Prepending an attempt that continues the loop keeps every attempt but
      the last continuing and within the retry budget. */
  lemma ConsContinues(r: nat, x: Attempt, rest: seq<Attempt>)
    requires Continues(x) && RetryCount(r, [x]) <= MaxRetries
    requires ContinuesUntilLast(RetryCount(r, [x]), rest)
    ensures ContinuesUntilLast(r, [x] + rest)
  {
    var a := [x] + rest;
    forall k | 0 <= k < |a| - 1
      ensures Continues(a[k]) && RetryCount(r, a[..k + 1]) <= MaxRetries
    {
      if k == 0 {
        assert a[..1] == [x];
      } else {
        var j := k - 1;
        assert Continues(rest[j]) && RetryCount(RetryCount(r, [x]), rest[..j + 1]) <= MaxRetries;
        assert a[k] == rest[j];
        assert a[..k + 1] == [x] + rest[..j + 1];
        RetryCountCons(r, x, rest[..j + 1]);
      }
    }
  }

  /** Every attempt but the last continues the loop and keeps the retry
      counter within budget: 410 is never retried, and a failure streak
      never gets past MaxRetries while the loop goes on. */
  lemma {:induction false} RunContinues(fetch: Fetch, n: nat, bound: nat, l: Loop)
    requires l.retryCount <= MaxRetries
    ensures ContinuesUntilLast(l.retryCount, RunFrom(fetch, n, bound, l).attempts)
    decreases bound - n
  {
    if n < bound {
      var fetched := fetch(l.nextPage, n);
      var attempt := Attempt(l.nextPage, fetched);
      match Iterate(l, fetched)
      case Stop(result) =>
      case Continue(l') =>
        IterateContinues(l, l.nextPage, fetched);
        assert l'.retryCount == RetryCount(l.retryCount, [attempt]);
        RunContinues(fetch, n + 1, bound, l');
        ConsContinues(l.retryCount, attempt, RunFrom(fetch, n + 1, bound, l').attempts);
    }
  }

  /** The last attempt of a finished run explains how it finished; the loop
      ends only on a page with an empty cursor or on an abort (there is no
      page limit). */
  lemma {:induction false} RunStops(fetch: Fetch, n: nat, bound: nat, l: Loop)
    requires l.retryCount <= MaxRetries
    ensures var run := RunFrom(fetch, n, bound, l);
      run.outcome.Finished? ==> StopsWith(l.retryCount, run.attempts, run.outcome.result)
    decreases bound - n
  {
    if n < bound {
      var fetched := fetch(l.nextPage, n);
      var attempt := Attempt(l.nextPage, fetched);
      match Iterate(l, fetched)
      case Stop(result) =>
        assert [attempt][1..] == [];
      case Continue(l') =>
        RunStops(fetch, n + 1, bound, l');
        var run := RunFrom(fetch, n + 1, bound, l');
        var a := [attempt] + run.attempts;
        if run.outcome.Finished? {
          assert a[1..] == run.attempts;
          assert a[|a| - 1] == run.attempts[|run.attempts| - 1];
        }
    }
  }

  /** A 410 answer ends the run at once with the Gone error, whatever the
      retry budget and whatever the feed would answer next. */
  lemma GoneStopsRun(c: Client, escape: string -> string, network: nat -> HttpOutcome, n: nat, bound: nat, l: Loop)
    requires l.retryCount <= MaxRetries
    requires c.authToken != "" && n < bound
    requires network(n).Responded? && network(n).status == StatusGone
    ensures RunFrom(Fetcher(c, escape, network), n, bound, l)
         == Run(Finished(Failure(Gone)), [Attempt(l.nextPage, Failure(Gone))])
  {
    assert Fetcher(c, escape, network)(l.nextPage, n) == Failure(Gone);
  }

  /** Without a token no request is ever sent: FetchStocks fails four times
      (once plus MaxRetries retries) and the run aborts with that error,
      whatever the feed would have answered. */
  lemma NoTokenNoRequest(c: Client, escape: string -> string, network: nat -> HttpOutcome, bound: nat)
    requires c.authToken == "" && bound >= MaxRetries + 1
    ensures var a := Attempt("", Failure(MissingToken));
      RunFrom(Fetcher(c, escape, network), 0, bound, Start) == Run(Finished(Failure(MissingToken)), [a, a, a, a])
  {
    var fetch := Fetcher(c, escape, network);
    var a := Attempt("", Failure(MissingToken));
    forall k: nat ensures fetch("", k) == Failure(MissingToken) {
      assert fetch("", k) == FetchStocks(c, "", escape, network(k));
    }
    var run3 := RunFrom(fetch, 3, bound, Loop([], "", 3));
    assert run3 == Run(Finished(Failure(MissingToken)), [a]);
    var run2 := RunFrom(fetch, 2, bound, Loop([], "", 2));
    assert run2 == Run(Finished(Failure(MissingToken)), [a] + [a]);
    var run1 := RunFrom(fetch, 1, bound, Loop([], "", 1));
    assert run1 == Run(Finished(Failure(MissingToken)), [a] + [a, a]);
    assert RunFrom(fetch, 0, bound, Start) == Run(Finished(Failure(MissingToken)), [a] + [a, a, a]);
  }

  /** The run from attempt n + k over fetches shifted by k is the run from n. */
  lemma {:induction false} RunShift(fetch: Fetch, shifted: Fetch, n: nat, bound: nat, k: nat, l: Loop)
    requires l.retryCount <= MaxRetries
    requires forall cursor, m: nat :: n <= m ==> shifted(cursor, m + k) == fetch(cursor, m)
    ensures RunFrom(shifted, n + k, bound + k, l) == RunFrom(fetch, n, bound, l)
    decreases bound - n
  {
    if n < bound {
      assert shifted(l.nextPage, n + k) == fetch(l.nextPage, n);
      var fetched := fetch(l.nextPage, n);
      match Iterate(l, fetched)
      case Stop(_) =>
      case Continue(l') =>
        RunShift(fetch, shifted, n + 1, bound, k, l');
        assert n + k + 1 == (n + 1) + k;
    }
  }

  /** An answer that FetchStocks turns into an error other than 410
      (see TransientFails). */
  predicate Transient(c: Client, response: HttpOutcome)
  {
    || c.authToken == ""
    || !response.Responded?
    || (response.status != StatusGone && (response.status != StatusOK || response.decoded.Failure?))
  }

  lemma TransientFails(c: Client, cursor: string, escape: string -> string, response: HttpOutcome)
    ensures var r := FetchStocks(c, cursor, escape, response);
      Transient(c, response) <==> r.Failure? && !r.error.Gone?
  {
  }

  /** k failures other than 410 on the loop's cursor, within the retry
      budget, only raise the retry counter by k. */
  lemma {:induction false} SkipFailures(fetch: Fetch, n: nat, bound: nat, k: nat, l: Loop)
    requires l.retryCount + k <= MaxRetries
    requires n + k <= bound
    requires forall m :: n <= m < n + k ==> fetch(l.nextPage, m).Failure? && !fetch(l.nextPage, m).error.Gone?
    ensures RunFrom(fetch, n, bound, l).outcome ==
            RunFrom(fetch, n + k, bound, l.(retryCount := l.retryCount + k)).outcome
    decreases k
  {
    if k > 0 {
      var fetched := fetch(l.nextPage, n);
      var l' := l.(retryCount := l.retryCount + 1);
      assert Iterate(l, fetched) == Continue(l');
      assert l'.(retryCount := l'.retryCount + (k - 1)) == l.(retryCount := l.retryCount + k);
      SkipFailures(fetch, n + 1, bound, k - 1, l');
    }
  }

  /** After a successful page the retry counter no longer matters: from
      any counter, the shifted run that starts with that page ends as the
      original one does. */
  lemma SuccessForgetsRetries(fetch: Fetch, shifted: Fetch, n: nat, bound: nat, k: nat, l: Loop, retries: nat)
    requires l.retryCount <= MaxRetries && retries <= MaxRetries && n < bound
    requires fetch(l.nextPage, n).Success?
    requires forall cursor, m: nat :: n <= m ==> shifted(cursor, m + k) == fetch(cursor, m)
    ensures RunFrom(shifted, n + k, bound + k, l.(retryCount := retries)).outcome
         == RunFrom(fetch, n, bound, l).outcome
  {
    var fetched := fetch(l.nextPage, n);
    assert shifted(l.nextPage, n + k) == fetched;
    assert Iterate(l.(retryCount := retries), fetched) == Iterate(l, fetched);
    match Iterate(l, fetched)
    case Stop(_) =>
    case Continue(l') =>
      RunShift(fetch, shifted, n + 1, bound, k, l');
      assert n + k + 1 == (n + 1) + k;
  }

  /** Retrying is transparent: if a page fails transiently up to MaxRetries
      times in a row and then succeeds, the run ends as if it had succeeded
      at once. `retried` answers k transient failures before what `network`
      answers. */
  lemma RetryIsTransparent(c: Client, escape: string -> string, network: nat -> HttpOutcome,
                           retried: nat -> HttpOutcome, n: nat, bound: nat, k: nat, l: Loop)
    requires l.retryCount == 0 && k <= MaxRetries && n < bound
    requires FetchStocks(c, l.nextPage, escape, network(n)).Success?
    requires forall m :: n <= m < n + k ==> Transient(c, retried(m))
    requires forall m :: n <= m ==> retried(m + k) == network(m)
    ensures RunFrom(Fetcher(c, escape, retried), n, bound + k, l).outcome
         == RunFrom(Fetcher(c, escape, network), n, bound, l).outcome
  {
    var fetch, shifted := Fetcher(c, escape, network), Fetcher(c, escape, retried);
    forall m | n <= m < n + k
      ensures shifted(l.nextPage, m).Failure? && !shifted(l.nextPage, m).error.Gone?
    {
      TransientFails(c, l.nextPage, escape, retried(m));
    }
    forall cursor, m: nat | n <= m ensures shifted(cursor, m + k) == fetch(cursor, m) {
      assert retried(m + k) == network(m);
    }
    SkipFailures(shifted, n, bound + k, k, l);
    SuccessForgetsRetries(fetch, shifted, n, bound, k, l, k);
  }

  /** Two pages, the second without a cursor: the run asks for "" then "p2"
      and returns the three items in order. */
  lemma TwoPageScenario(c: Client, escape: string -> string, aaa: Stock, bbb: Stock, ccc: Stock)
    requires c.authToken != ""
    ensures var network := (k: nat) =>
              if k == 0 then Responded(StatusOK, "", Success(Page([aaa, bbb], "p2")))
              else Responded(StatusOK, "", Success(Page([ccc], "")));
            var run := RunFrom(Fetcher(c, escape, network), 0, 2, Start);
            && run.outcome == Finished(Success([aaa, bbb, ccc]))
            && |run.attempts| == 2 && run.attempts[0].cursor == "" && run.attempts[1].cursor == "p2"
  {
    var network := (k: nat) =>
      if k == 0 then Responded(StatusOK, "", Success(Page([aaa, bbb], "p2")))
      else Responded(StatusOK, "", Success(Page([ccc], "")));
    var fetch := Fetcher(c, escape, network);
    assert fetch("", 0) == FetchStocks(c, "", escape, network(0));
    assert fetch("p2", 1) == FetchStocks(c, "p2", escape, network(1));
    assert [] + [aaa, bbb] + [ccc] == [aaa, bbb, ccc];
  }
}
