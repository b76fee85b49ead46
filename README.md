# Stock forecast with headline sentiment: a Dafny model

This project models the parts of the stock predictor that have logic of their
own. The rest of that program is calls into libraries: price downloads,
Holt–Winters fitting, plotting and file output. The modelled parts are:

- **Headline fetch with retries** (`fetch_ticker_news_with_retry` and its
  wrapper `fetch_ticker_news`), in `news.dfy`. The method
  `News.FetchTickerNewsWithRetry` follows the Python loop. Before every attempt
  but the first it records a wait of 2^attempt seconds. It asks the provider,
  counts a failure as a used-up attempt, and retries an empty answer except on
  the last attempt. The first answer that has articles is scored article by
  article. The method is proved against the functions `Fetch` and `Attempts`,
  which define the result through the first successful attempt (`FirstHit`).
  Lemmas then prove what the loop promises:
  - it makes at most `max_retries` requests;
  - it waits 2^k seconds before attempt k;
  - the first hit wins;
  - exhaustion gives `([], 0.0)`;
  - the sentiment is the mean of the records' scores and lies in [-1, 1].
- **Ticker to company name** (`ticker_to_company_name`) and the search term
  built from it, in `tickers.dfy`.
- **Reading the `--tickers` argument** (line 264 of `main`), in
  `ticker_args.dfy`. The Python string builtins it relies on (`split`,
  `strip`, `upper`) are in `text.dfy`, with `join` as the inverse of `split`.
- **Forecast adjustment** (`adjust_forecast`), in `forecast.dfy`.
- **Last Friday** (`get_last_friday` in update_readme_date.py), in
  `readme_date.dfy`. Days are Python's proleptic Gregorian ordinals, and
  today's date is a parameter.

The outside world is abstracted:
- The news provider is an oracle `(Query, nat) -> Response`. It gives the
  answer to the request numbered `attempt` (from 0). `Fail` stands for both
  an exception and a `None` response. `Ok(articles)` stands for an answer;
  a missing `articles` key is `Ok([])`.
- The sentiment analyser is a function `string -> Compound`, where
  `Compound` is a real in [-1, 1].
- Sleeping is returned as a ghost list of wait durations in seconds.

Every request sends `get_top_headlines(q, category='business', page_size)`
and nothing else. The comment at
stock_forecast_with_sentiment.py:150 calls the final `return [], 0.0`
unreachable. It is reached when `max_retries <= 0`. `News.FetchWithoutBudget`
covers that case.

## Model

| member | source | states |
|---|---|---|
| `Tickers.CompanyName` | stock_forecast_with_sentiment.py:25-72 | the table is consulted with the upper-cased ticker; an unmapped ticker is returned exactly as given; the result is the ticker or one of the table's names |
| `Tickers.SearchTerm` | stock_forecast_with_sentiment.py:97-98 | the search term always equals the company-name lookup (the `!=` test changes nothing) |
| `Tickers.CompanyNameIgnoresCase` | stock_forecast_with_sentiment.py:72 | two spellings of a mapped ticker that upper-case alike get the same name |
| `Tickers.CompanyNamesWellFormed` | stock_forecast_with_sentiment.py:30-71 | every key is non-empty and upper-case, every name non-empty, so a non-empty ticker never gives an empty search term |
| `Tickers.CompanyNameLowerCase` | stock_forecast_with_sentiment.py:72 | `aapl` gives Apple and `Nflx` gives Netflix (NFLX appears twice with one value) |
| `Tickers.CompanyNameUnknown` | stock_forecast_with_sentiment.py:72 | an unmapped ticker `brk.b` comes back unchanged, not upper-cased, and is the search term |
| `Text.IsSpace` | stock_forecast_with_sentiment.py:264 | the whitespace `strip()` removes (Python's `str.isspace` set) contains neither the comma nor a lower-case letter, so stripping and upper-casing do not interfere |
| `Text.UpperChar` | stock_forecast_with_sentiment.py:264 | a lower-case ASCII letter becomes its capital, every other character is kept, and no lower-case letter remains |
| `Text.Upper` | stock_forecast_with_sentiment.py:264 | `upper()` keeps the length and upper-cases every character in place |
| `Text.UpperIsUpper` | stock_forecast_with_sentiment.py:264 | the result of `upper()` is upper-case, and `upper()` is idempotent |
| `Text.UpperOfUpper` | stock_forecast_with_sentiment.py:264 | `upper()` leaves an upper-case string unchanged |
| `Text.UpperKeepsStripped` | stock_forecast_with_sentiment.py:264 | upper-casing a stripped string leaves it stripped |
| `Text.StripLeft` | stock_forecast_with_sentiment.py:264 | the result is a suffix of the input; what was cut is all whitespace; it does not start with whitespace |
| `Text.StripRight` | stock_forecast_with_sentiment.py:264 | the result is a prefix of the input; what was cut is all whitespace; it does not end with whitespace |
| `Text.Strip` | stock_forecast_with_sentiment.py:264 | `strip()` gives a string with no whitespace at either end, no longer than the input |
| `Text.StripIsSlice` | stock_forecast_with_sentiment.py:264 | `strip()` is a slice of the input with only whitespace cut away on both sides |
| `Text.StripAddsNothing` | stock_forecast_with_sentiment.py:264 | every character of `strip()`'s result occurs in the input |
| `Text.StripFixesStripped` | stock_forecast_with_sentiment.py:264 | `strip()` is the identity exactly on strings without whitespace at either end |
| `Text.StripEmptyIffBlank` | stock_forecast_with_sentiment.py:264 | `t.strip()` is falsy exactly when `t` is all whitespace |
| `Text.Split` | stock_forecast_with_sentiment.py:264 | `split(',')` gives at least one piece and no piece contains the separator |
| `Text.Join` | stock_forecast_with_sentiment.py:264 | `sep.join(pieces)` starts with the first piece, followed by the separator when there are more pieces; it has at least one character per separator |
| `Text.JoinSplit` | stock_forecast_with_sentiment.py:264 | joining the pieces of `split(sep)` with `sep` gives the input back |
| `Text.SplitWithoutSeparator` | stock_forecast_with_sentiment.py:264 | a string without the separator splits into itself alone |
| `Text.SplitFirstPiece` | stock_forecast_with_sentiment.py:264 | a separator-free piece before the separator splits off as the first piece |
| `Text.SplitJoin` | stock_forecast_with_sentiment.py:264 | splitting a join of separator-free pieces gives the pieces back |
| `TickerArgs.NormalPiece` | stock_forecast_with_sentiment.py:264 | a non-blank comma-free piece, stripped and upper-cased, is a normal ticker: non-empty, stripped, upper-case, comma-free |
| `TickerArgs.NormalisePiece` | stock_forecast_with_sentiment.py:264 | one piece contributes at most one ticker |
| `TickerArgs.Collect` | stock_forecast_with_sentiment.py:264 | the comprehension's shape: each piece's contribution, concatenated in order; when every piece contributes at most one item there are no more items than pieces |
| `TickerArgs.NormalisePieces` | stock_forecast_with_sentiment.py:264 | the comprehension yields no more tickers than there are pieces |
| `TickerArgs.ParseTickers` | stock_forecast_with_sentiment.py:264-267 | an accepted ticker list is never empty; an empty one is the rejection that exits with status 1 |
| `TickerArgs.NormalisePiecesAppend` | stock_forecast_with_sentiment.py:264 | normalisation works piece by piece and keeps input order |
| `TickerArgs.NormalisePiecesNormal` | stock_forecast_with_sentiment.py:264 | every ticker made from comma-free pieces is normal |
| `TickerArgs.NormalisePiecesEmpty` | stock_forecast_with_sentiment.py:264 | the comprehension is empty exactly when every piece is blank |
| `TickerArgs.NormalisePiecesOfNormal` | stock_forecast_with_sentiment.py:264 | normal tickers pass through the comprehension unchanged |
| `TickerArgs.ParseTickersSound` | stock_forecast_with_sentiment.py:264 | every accepted ticker is non-empty, stripped, upper-case and comma-free |
| `TickerArgs.ParseTickersRejects` | stock_forecast_with_sentiment.py:264-267 | the argument is rejected exactly when every comma-separated piece is blank |
| `TickerArgs.ParseTickersJoin` | stock_forecast_with_sentiment.py:264 | a comma-joined list of normal tickers is read back as exactly that list |
| `TickerArgs.ParseTickersIdempotent` | stock_forecast_with_sentiment.py:264 | re-reading the comma-joined accepted list gives the same list |
| `News.QueryFor` | stock_forecast_with_sentiment.py:111-115 | every request asks for the company-name search term in the business category with the given page size |
| `News.Title` | stock_forecast_with_sentiment.py:128 | `art.get('title', '')`: the title when the key is present, otherwise "" |
| `News.Description` | stock_forecast_with_sentiment.py:129 | `art.get('description') or ''`: the description when present; "" exactly when it is absent or empty |
| `News.ScoredText` | stock_forecast_with_sentiment.py:128-130 | the analysed text joins title and description with ". "; without a title it starts with ". ", it starts with the title when there is one, it is the title and ". " alone when the description is absent or empty, and it ends with the description when there is one |
| `News.Records` | stock_forecast_with_sentiment.py:125-138 | one record per article, in order, with title, description, url and the score of its text |
| `News.Sentiments` | stock_forecast_with_sentiment.py:132 | the per-article scores, one per record, in order |
| `News.Sum` | stock_forecast_with_sentiment.py:140 | `sum` of no scores is 0.0, and of non-negative scores is non-negative |
| `News.Mean` | stock_forecast_with_sentiment.py:140 | no scores give 0.0; otherwise the mean times the number of scores is their sum |
| `News.SumBounded` | stock_forecast_with_sentiment.py:140 | the sum of n scores in [-1, 1] lies in [-n, n] |
| `News.MeanBounded` | stock_forecast_with_sentiment.py:140 | the average sentiment lies in [-1, 1] when every score does, and is exactly 0.0 for no scores |
| `News.Scored` | stock_forecast_with_sentiment.py:125-142 | a successful attempt gives a record per article and their mean sentiment |
| `News.FirstHit` | stock_forecast_with_sentiment.py:100-123 | the first attempt within the budget whose answer has articles, with every earlier attempt failed or empty; none when there is no such attempt |
| `News.Fetch` | stock_forecast_with_sentiment.py:100-151 | the result of the retry loop: `([], 0.0)` when no attempt within the budget has articles; the sentiment is always the mean of the records' scores |
| `News.Attempts` | stock_forecast_with_sentiment.py:100-151 | the number of requests: none when `max_retries <= 0`, otherwise between 1 and `max_retries` |
| `News.Backoff` | stock_forecast_with_sentiment.py:106-109 | the waits before n requests: n - 1 of them (none for no request), each at least 2 seconds |
| `News.Pow2` | stock_forecast_with_sentiment.py:107 | `2 ** attempt` is positive |
| `News.ScoreArticles` | stock_forecast_with_sentiment.py:125-142 | the scoring loop returns exactly the records and mean sentiment of the articles |
| `News.FetchTickerNewsWithRetry` | stock_forecast_with_sentiment.py:86-151 | the result is the scored first hit or `([], 0.0)`; the number of requests equals `Attempts(…)` and the list of waits equals `Backoff(attempts)` |
| `News.FetchTickerNews` | stock_forecast_with_sentiment.py:175-184 | with the default budget of 3: one to three requests, the waits a prefix of [2, 4], the sentiment in [-1, 1] |
| `News.FetchWithoutBudget` | stock_forecast_with_sentiment.py:100-151 | with `max_retries <= 0` the provider is never called, nothing is waited for, and the result is `([], 0.0)` |
| `News.AttemptsBounded` | stock_forecast_with_sentiment.py:100-151 | the provider is called at most `max_retries` times, and at least once when the budget is positive |
| `News.FetchFirstHit` | stock_forecast_with_sentiment.py:117-142 | the first answer with articles ends the loop and is the one scored; failures and empty answers before it each used an attempt |
| `News.FetchExhausted` | stock_forecast_with_sentiment.py:117-148 | if no attempt in the budget has articles, every attempt is used and `([], 0.0)` is returned, never an error |
| `News.FetchBounds` | stock_forecast_with_sentiment.py:140 | records are returned exactly when some attempt has articles; the sentiment is their mean, in [-1, 1] |
| `News.FetchItemsScored` | stock_forecast_with_sentiment.py:127-138 | record i of the result carries article i's title, description, url and `score(title + ". " + description)` |
| `News.Pow2Increasing` | stock_forecast_with_sentiment.py:107 | 2^m < 2^n for m < n |
| `News.BackoffShape` | stock_forecast_with_sentiment.py:106-109 | n attempts are preceded by n - 1 waits, none before attempt 0, 2^k before attempt k, strictly increasing |
| `News.BackoffDefault` | stock_forecast_with_sentiment.py:107 | with three attempts the waits are [2, 4] |
| `News.AlwaysFailingProvider` | stock_forecast_with_sentiment.py:100-151 | a provider that always fails, with the default budget, gets 3 requests, waits [2, 4] and gives `([], 0.0)` |
| `Forecast.AdjustForecast` | stock_forecast_with_sentiment.py:187-194 | the length is kept and `adjusted[i] == f[i] * (1 + s)` for every i |
| `Forecast.AdjustNeutral` | stock_forecast_with_sentiment.py:193-194 | sentiment 0 leaves the forecast unchanged |
| `Forecast.AdjustDirection` | stock_forecast_with_sentiment.py:188-194 | a positive sentiment raises a positive value and a negative one lowers it; below -1 it turns negative |
| `Forecast.AdjustKeepsOrder` | stock_forecast_with_sentiment.py:194 | for sentiment above -1 the order of any two forecast values is kept |
| `Forecast.AdjustCompose` | stock_forecast_with_sentiment.py:194 | adjusting by s and then t equals adjusting once by s + t + s*t |
| `Forecast.AdjustUndo` | stock_forecast_with_sentiment.py:194 | for s other than -1, adjusting by -s/(1+s) restores the raw forecast |
| `ReadmeDate.Weekday` | update_readme_date.py:13 | `weekday()` lies in 0..6 (Monday 0) |
| `ReadmeDate.DaysSinceFriday` | update_readme_date.py:13 | `days_since_friday` always lies in 0..6 |
| `ReadmeDate.LastFriday` | update_readme_date.py:10-15 | the day found is on or before today and at most 6 days earlier |
| `ReadmeDate.WeekdayShift` | update_readme_date.py:13-14 | n days later the weekday is n further on, modulo 7 |
| `ReadmeDate.LastFridayIsFriday` | update_readme_date.py:13-14 | the day found is a Friday |
| `ReadmeDate.LastFridayOnFriday` | update_readme_date.py:13-14 | on a Friday the result is today itself |
| `ReadmeDate.LastFridayIsMostRecent` | update_readme_date.py:11-15 | no Friday lies after the result and on or before today, so it is the last Friday |
| `ReadmeDate.LastFridayDefined` | update_readme_date.py:14 | the subtraction goes below 0001-01-01 only for the first four days of the calendar |

## Left out

- `fetch_and_forecast` (stock_forecast_with_sentiment.py:154-172) is not modelled. It downloads prices with `yfinance`, resamples them with pandas and fits a statsmodels Holt–Winters model with a floating-point optimiser. These are foreign libraries, and the code has no algorithm of its own to model. The forecast appears only as the `seq<real>` that `adjust_forecast` scales. Its date index is not modelled.
- The NewsAPI client and VADER's `polarity_scores` are not modelled. They are the provider oracle and the scoring function. The model does not assume that the provider returns at most `page_size` articles, and neither does the code.
- `time.sleep` is not performed. Its durations are returned as a ghost list. The `timeout` parameter of `fetch_ticker_news_with_retry` is ignored, since the code never uses it.
- `print` logging is not modelled. Nor are `plot_and_save`, `create_date_specific_output_dir`, the JSON dump, the `NEWSAPI_KEY` check or `argparse`. These are I/O and command-line plumbing.
- The per-ticker batch loop (stock_forecast_with_sentiment.py:269-296) is not modelled. It is orchestration over I/O. It pauses one second before every ticker except the first, and it catches and reports each ticker's failure before going on.
- `update_readme` (update_readme_date.py:17-37) is not modelled. It reads and writes a file and calls a library regex. `strftime` formatting and `datetime.now()` are not modelled either: today is a parameter.
- Floating point is not modelled. Prices and sentiments are reals, so sums, means and products are exact.
- News.Title: an article whose `title` key holds `None` would give the text "None" in the f-string. The model treats the title as an optional string and reads an absent key as "".
- Text.UpperChar: only the ASCII letters a-z are upper-cased. Python's full Unicode case mapping is not modelled: it also sends `é` to `É`, `ı` to `I` and `ſ` to `S`.
- Text.Upper: built on `Text.UpperChar`, so it is ASCII-only as well. It keeps the length, while Python sends `ß` to `SS`.
- Tickers.CompanyName: a ticker with a non-ASCII letter is looked up as the model upper-cases it. Python finds `"ıbm"` under `IBM`; the model returns `"ıbm"` unchanged.
- TickerArgs.ParseTickers: a piece with non-ASCII letters keeps them as they are, where Python would upper-case them.
- `Stock Predictor with Sentiment.py` is an earlier script. It is not part of this model.
