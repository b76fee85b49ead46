/** Headline retrieval with retries and sentiment aggregation:
    `fetch_ticker_news_with_retry` and its wrapper `fetch_ticker_news` in
    stock_forecast_with_sentiment.py.

    The news provider is an oracle: the response to the `attempt`-th request
    (counting from 0) with a given query. `Fail` stands for both ways an
    attempt fails, an exception raised by the client and a `None` response.
    The sentiment analyser is a function from text to its compound score,
    which lies in [-1, 1]. Sleeping is recorded, not performed: the method
    returns the list of wait durations it would have slept, in seconds. */
module News {
  import opened Wrappers
  import Tickers

  /** A compound sentiment score. */
  type Compound = x: real | -1.0 <= x <= 1.0

  /** An article as the provider delivers it; an absent key is `None`. */
  datatype Article = Article(title: Option<string>, description: Option<string>, url: Option<string>)

  /** The outcome of one request to the provider. */
  datatype Response = Fail | Ok(articles: seq<Article>)

  /** The parameters of `get_top_headlines`. */
  datatype Query = Query(q: string, category: string, pageSize: int)

  /** One record of the returned list. */
  datatype NewsItem = NewsItem(title: string, description: string, url: Option<string>, sentiment: real)

  /** What the fetch returns: the records and their mean sentiment. */
  datatype FetchResult = FetchResult(items: seq<NewsItem>, sentiment: real)

  /** The budget `fetch_ticker_news` leaves at its default. */
  const DefaultMaxRetries := 3

  /** The query sent for a ticker: its search term in the business category. */
  function QueryFor(ticker: string, pageSize: int): (query: Query)
    ensures query.q == Tickers.CompanyName(ticker) && query.category == "business"
    ensures query.pageSize == pageSize
  {
    Query(Tickers.SearchTerm(ticker), "business", pageSize)
  }

  /** `art.get('title', '')`: the title, or "" when the key is absent. */
  function Title(a: Article): (t: string)
    ensures a.title.None? ==> t == ""
    ensures a.title.Some? ==> t == a.title.value
  {
    match a.title
    case Some(t) => t
    case None => ""
  }

  /** `art.get('description') or ''`: absent and empty both give "". */
  function Description(a: Article): (d: string)
    ensures d == "" <==> (a.description.None? || a.description == Some(""))
    ensures a.description.Some? ==> d == a.description.value
  {
    match a.description
    case Some(d) => d
    case None => ""
  }

  /** The text handed to the analyser: title, a period and a space, then the
      description. */
  function ScoredText(a: Article): (text: string)
    ensures text == Title(a) + ". " + Description(a)
    ensures a.title.None? ==> text[..2] == ". "
    ensures a.title.Some? ==> a.title.value <= text
    ensures (a.description.None? || a.description == Some("")) ==> text == Title(a) + ". "
    ensures a.description.Some? ==> text[|text| - |a.description.value|..] == a.description.value
  {
    Title(a) + ". " + Description(a)
  }

  /** The records for a list of articles: one per article, in order. */
  function Records(articles: seq<Article>, score: string -> Compound): (items: seq<NewsItem>)
    ensures |items| == |articles|
    ensures forall i :: 0 <= i < |articles| ==>
      items[i] == NewsItem(Title(articles[i]), Description(articles[i]), articles[i].url, score(ScoredText(articles[i])))
  {
    seq(|articles|, i requires 0 <= i < |articles| =>
      NewsItem(Title(articles[i]), Description(articles[i]), articles[i].url, score(ScoredText(articles[i]))))
  }

  /** The sentiment of every record, in order. */
  function Sentiments(items: seq<NewsItem>): (scores: seq<real>)
    ensures |scores| == |items|
    ensures forall i :: 0 <= i < |items| ==> scores[i] == items[i].sentiment
  {
    seq(|items|, i requires 0 <= i < |items| => items[i].sentiment)
  }

  /** Python's `sum` over a list of numbers. */
  function Sum(xs: seq<real>): (total: real)
    ensures xs == [] ==> total == 0.0
    ensures (forall i :: 0 <= i < |xs| ==> xs[i] >= 0.0) ==> total >= 0.0
    decreases |xs|
  {
    if xs == [] then 0.0 else xs[0] + Sum(xs[1..])
  }

  /** `sum(xs) / len(xs) if xs else 0.0`. */
  function Mean(xs: seq<real>): (m: real)
    ensures xs == [] ==> m == 0.0
    ensures xs != [] ==> m * (|xs| as real) == Sum(xs)
  {
    if xs == [] then 0.0 else Sum(xs) / (|xs| as real)
  }

  /** A sum of n numbers in [-1, 1] lies in [-n, n]. */
  lemma {:induction false} SumBounded(xs: seq<real>)
    requires forall i :: 0 <= i < |xs| ==> -1.0 <= xs[i] <= 1.0
    ensures -(|xs| as real) <= Sum(xs) <= |xs| as real
    decreases |xs|
  {
    if xs != [] {
      SumBounded(xs[1..]);
    }
  }

  /** A number between -n and n, divided by n, lies in [-1, 1]. */
  lemma QuotientBounded(x: real, n: real)
    requires n > 0.0 && -n <= x <= n
    ensures -1.0 <= x / n <= 1.0
  {
    assert (x / n) * n == x;
  }

  /** The mean of scores in [-1, 1] lies in [-1, 1]; no scores give 0.0. */
  lemma MeanBounded(xs: seq<real>)
    requires forall i :: 0 <= i < |xs| ==> -1.0 <= xs[i] <= 1.0
    ensures -1.0 <= Mean(xs) <= 1.0
    ensures xs == [] ==> Mean(xs) == 0.0
  {
    if xs != [] {
      SumBounded(xs);
      QuotientBounded(Sum(xs), |xs| as real);
    }
  }

  /** The outcome of scoring the articles of a successful response. */
  function Scored(articles: seq<Article>, score: string -> Compound): (r: FetchResult)
    ensures |r.items| == |articles|
    ensures r.sentiment == Mean(Sentiments(r.items))
  {
    var items := Records(articles, score);
    FetchResult(items, Mean(Sentiments(items)))
  }

  /** A response that ends the retry loop before the last attempt: a
      successful one with at least one article. */
  predicate Hit(r: Response) {
    r.Ok? && r.articles != []
  }

  /** The first attempt at or after `from`, and before `maxRetries`, whose
      response is a hit. */
  function FirstHit(provider: (Query, nat) -> Response, query: Query, maxRetries: int, from: nat): (k: Option<nat>)
    ensures k.Some? ==> from <= k.value < maxRetries && Hit(provider(query, k.value))
    ensures k.Some? ==> forall j :: from <= j < k.value ==> !Hit(provider(query, j))
    ensures k.None? ==> forall j :: from <= j < maxRetries ==> !Hit(provider(query, j))
    decreases maxRetries - from
  {
    if from >= maxRetries then None
    else if Hit(provider(query, from)) then Some(from)
    else FirstHit(provider, query, maxRetries, from + 1)
  }

  /** What `fetch_ticker_news_with_retry` returns: the scored articles of the
      first hit within the budget, otherwise no records and sentiment 0.0. */
  function Fetch(provider: (Query, nat) -> Response, query: Query, score: string -> Compound, maxRetries: int): (r: FetchResult)
    ensures FirstHit(provider, query, maxRetries, 0).None? ==> r == FetchResult([], 0.0)
    ensures r.sentiment == Mean(Sentiments(r.items))
  {
    match FirstHit(provider, query, maxRetries, 0)
    case Some(k) => Scored(provider(query, k).articles, score)
    case None => FetchResult([], 0.0)
  }

  /** How many requests the fetch makes: up to and including the first hit,
      otherwise the whole budget. */
  function Attempts(provider: (Query, nat) -> Response, query: Query, maxRetries: int): (n: nat)
    ensures maxRetries <= 0 ==> n == 0
    ensures maxRetries > 0 ==> 1 <= n <= maxRetries
  {
    match FirstHit(provider, query, maxRetries, 0)
    case Some(k) => k + 1
    case None => if maxRetries > 0 then maxRetries else 0
  }

  /** 2 to the power n. */
  function Pow2(n: nat): (p: nat)
    ensures p >= 1
  {
    if n == 0 then 1 else 2 * Pow2(n - 1)
  }

  /** The waits that precede `attempts` requests: none before the first,
      2^k seconds before request k. */
  function Backoff(attempts: nat): (waits: seq<nat>)
    ensures |waits| == if attempts == 0 then 0 else attempts - 1
    ensures forall i :: 0 <= i < |waits| ==> waits[i] >= 2
  {
    seq(if attempts == 0 then 0 else attempts - 1, i requires 0 <= i => Pow2(i + 1))
  }

  /** One more attempt adds the wait before it, if it is not the first. */
  lemma BackoffNext(n: nat)
    ensures Backoff(n + 1) == if n == 0 then Backoff(n) else Backoff(n) + [Pow2(n)]
  {
  }

  /** The scoring loop of a successful attempt: a record per article, in
      order, then the mean of their sentiments. */
  method ScoreArticles(articles: seq<Article>, score: string -> Compound) returns (items: seq<NewsItem>, sentiment: real)
    ensures FetchResult(items, sentiment) == Scored(articles, score)
  {
    var results: seq<NewsItem> := [];
    var sentiments: seq<real> := [];
    var i := 0;
    while i < |articles|
      invariant 0 <= i <= |articles|
      invariant results == Records(articles[..i], score)
      invariant sentiments == Sentiments(results)
    {
      var art := articles[i];
      var title := Title(art);
      var desc := Description(art);
      var s := score(title + ". " + desc);
      sentiments := sentiments + [s];
      results := results + [NewsItem(title, desc, art.url, s)];
      i := i + 1;
    }
    assert articles[..i] == articles;
    items := results;
    sentiment := if |sentiments| > 0 then Sum(sentiments) / (|sentiments| as real) else 0.0;
  }

  /** `fetch_ticker_news_with_retry`: up to `maxRetries` requests with
      exponential backoff; the first response with articles is scored
      article by article; a failure or an empty answer on the last attempt
      gives no records and sentiment 0.0, never an error. */
  method FetchTickerNewsWithRetry(provider: (Query, nat) -> Response, score: string -> Compound,
                                  ticker: string, pageSize: int, maxRetries: int)
    returns (items: seq<NewsItem>, sentiment: real, ghost waits: seq<nat>, ghost attempts: nat)
    ensures FetchResult(items, sentiment) == Fetch(provider, QueryFor(ticker, pageSize), score, maxRetries)
    ensures attempts == Attempts(provider, QueryFor(ticker, pageSize), maxRetries)
    ensures waits == Backoff(attempts)
  {
    var query := Query(Tickers.SearchTerm(ticker), "business", pageSize);
    ghost var first := FirstHit(provider, query, maxRetries, 0);
    waits, attempts := [], 0;
    var attempt := 0;
    while attempt < maxRetries
      invariant attempts == attempt
      invariant maxRetries > 0 ==> attempt <= maxRetries
      invariant maxRetries <= 0 ==> attempt == 0
      invariant waits == Backoff(attempt)
      invariant first == FirstHit(provider, query, maxRetries, attempt)
      decreases maxRetries - attempt
    {
      if attempt > 0 {
        waits := waits + [Pow2(attempt)];
      }
      BackoffNext(attempt);
      assert waits == Backoff(attempt + 1);
      var resp := provider(query, attempt);
      attempts := attempts + 1;
      if resp.Fail? {
        assert first == FirstHit(provider, query, maxRetries, attempt + 1);
        if attempt == maxRetries - 1 {
          assert first == None;
          return [], 0.0, waits, attempts;
        }
      } else if !(resp.articles == [] && attempt < maxRetries - 1) {
        assert first == if resp.articles == [] then None else Some(attempt);
        items, sentiment := ScoreArticles(resp.articles, score);
        return items, sentiment, waits, attempts;
      } else {
        assert first == FirstHit(provider, query, maxRetries, attempt + 1);
      }
      attempt := attempt + 1;
    }
    return [], 0.0, waits, attempts;
  }

  /** `fetch_ticker_news`: the same fetch with the default budget of three
      attempts, so at most three requests and at most the waits 2 and 4. */
  method FetchTickerNews(provider: (Query, nat) -> Response, score: string -> Compound,
                         ticker: string, pageSize: int)
    returns (items: seq<NewsItem>, sentiment: real, ghost waits: seq<nat>, ghost attempts: nat)
    ensures FetchResult(items, sentiment) == Fetch(provider, QueryFor(ticker, pageSize), score, DefaultMaxRetries)
    ensures 1 <= attempts <= 3
    ensures waits == [2, 4][..attempts - 1]
    ensures -1.0 <= sentiment <= 1.0
  {
    items, sentiment, waits, attempts := FetchTickerNewsWithRetry(provider, score, ticker, pageSize, DefaultMaxRetries);
    FetchBounds(provider, QueryFor(ticker, pageSize), score, DefaultMaxRetries);
    BackoffDefault();
    assert Backoff(attempts) == Backoff(3)[..attempts - 1];
  }

  // ---------------------------------------------------------------------
  // Properties of `Fetch`, `Attempts` and `Backoff`

  /** With a budget of zero or fewer attempts the provider is never asked and
      the result is empty with sentiment 0.0. */
  lemma FetchWithoutBudget(provider: (Query, nat) -> Response, query: Query, score: string -> Compound, maxRetries: int)
    requires maxRetries <= 0
    ensures Attempts(provider, query, maxRetries) == 0
    ensures Fetch(provider, query, score, maxRetries) == FetchResult([], 0.0)
    ensures Backoff(Attempts(provider, query, maxRetries)) == []
  {
  }

  /** The provider is asked at most `maxRetries` times, and at least once
      when the budget is positive. */
  lemma AttemptsBounded(provider: (Query, nat) -> Response, query: Query, maxRetries: int)
    ensures maxRetries > 0 ==> 1 <= Attempts(provider, query, maxRetries) <= maxRetries
  {
  }

  /** The first hit ends the loop: it is the response that is scored, one
      record per article in order, and no later request is made. Earlier
      failures and empty answers each used up one attempt. */
  lemma FetchFirstHit(provider: (Query, nat) -> Response, query: Query, score: string -> Compound,
                      maxRetries: int, k: nat)
    requires k < maxRetries && Hit(provider(query, k))
    requires forall j :: 0 <= j < k ==> !Hit(provider(query, j))
    ensures Fetch(provider, query, score, maxRetries) == Scored(provider(query, k).articles, score)
    ensures Attempts(provider, query, maxRetries) == k + 1
  {
    var first := FirstHit(provider, query, maxRetries, 0);
    if first.Some? {
      assert !(first.value < k) && !(k < first.value);
    }
  }

  /** When no attempt within the budget is a hit, every attempt is used and
      the result is empty with sentiment 0.0: exhaustion is not an error. */
  lemma FetchExhausted(provider: (Query, nat) -> Response, query: Query, score: string -> Compound, maxRetries: int)
    requires forall j :: 0 <= j < maxRetries ==> !Hit(provider(query, j))
    ensures Fetch(provider, query, score, maxRetries) == FetchResult([], 0.0)
    ensures maxRetries > 0 ==> Attempts(provider, query, maxRetries) == maxRetries
  {
  }

  /** The fetch returns records exactly when some attempt within the budget
      is a hit, and its sentiment is always the mean of the records'
      sentiments, so in [-1, 1], and 0.0 when there are none. */
  lemma FetchBounds(provider: (Query, nat) -> Response, query: Query, score: string -> Compound, maxRetries: int)
    ensures var r := Fetch(provider, query, score, maxRetries);
      && (r.items != [] <==> exists j :: 0 <= j < maxRetries && Hit(provider(query, j)))
      && r.sentiment == Mean(Sentiments(r.items))
      && -1.0 <= r.sentiment <= 1.0
  {
    var r := Fetch(provider, query, score, maxRetries);
    var first := FirstHit(provider, query, maxRetries, 0);
    if first.Some? {
      assert Hit(provider(query, first.value));
    }
    var scores := Sentiments(r.items);
    if first.Some? {
      var articles := provider(query, first.value).articles;
      assert forall i :: 0 <= i < |scores| ==> scores[i] == score(ScoredText(articles[i]));
    }
    MeanBounded(scores);
  }

  /** Each record carries the score of its title, ". " and its description. */
  lemma FetchItemsScored(provider: (Query, nat) -> Response, query: Query, score: string -> Compound,
                         maxRetries: int, k: nat, i: nat)
    requires k < maxRetries && Hit(provider(query, k))
    requires forall j :: 0 <= j < k ==> !Hit(provider(query, j))
    requires i < |provider(query, k).articles|
    ensures var a := provider(query, k).articles[i];
      && i < |Fetch(provider, query, score, maxRetries).items|
      && Fetch(provider, query, score, maxRetries).items[i] == NewsItem(Title(a), Description(a), a.url, score(Title(a) + ". " + Description(a)))
  {
    FetchFirstHit(provider, query, score, maxRetries, k);
  }

  /** 2^n grows strictly with n. */
  lemma {:induction false} Pow2Increasing(m: nat, n: nat)
    requires m < n
    ensures Pow2(m) < Pow2(n)
    decreases n
  {
    if m < n - 1 {
      Pow2Increasing(m, n - 1);
    }
  }

  /** n attempts are preceded by n - 1 waits, the wait before attempt k being
      2^k seconds, and the waits grow strictly. */
  lemma BackoffShape(attempts: nat)
    ensures attempts >= 1 ==> |Backoff(attempts)| == attempts - 1
    ensures attempts == 0 ==> Backoff(attempts) == []
    ensures forall k :: 1 <= k < attempts ==> Backoff(attempts)[k - 1] == Pow2(k)
    ensures forall i, j :: 0 <= i < j < |Backoff(attempts)| ==> Backoff(attempts)[i] < Backoff(attempts)[j]
  {
    forall i, j | 0 <= i < j < |Backoff(attempts)|
      ensures Backoff(attempts)[i] < Backoff(attempts)[j]
    {
      Pow2Increasing(i + 1, j + 1);
    }
  }

  /** With the default budget of three the waits are 2 and 4 seconds. */
  lemma BackoffDefault()
    ensures Backoff(DefaultMaxRetries) == [2, 4]
  {
    assert Pow2(1) == 2;
    assert Pow2(2) == 4;
  }

  /** A provider that fails every time, with the default budget: three
      requests, waits of 2 then 4 seconds, no records, sentiment 0.0. */
  lemma AlwaysFailingProvider(query: Query, score: string -> Compound)
    ensures var provider := (q: Query, k: nat) => Fail;
      && Attempts(provider, query, DefaultMaxRetries) == 3
      && Backoff(Attempts(provider, query, DefaultMaxRetries)) == [2, 4]
      && Fetch(provider, query, score, DefaultMaxRetries) == FetchResult([], 0.0)
  {
    var provider := (q: Query, k: nat) => Fail;
    FetchExhausted(provider, query, score, DefaultMaxRetries);
    BackoffDefault();
  }
}
