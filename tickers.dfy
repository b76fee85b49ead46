/** `ticker_to_company_name` in stock_forecast_with_sentiment.py: the static
    ticker-to-company-name table used to build the news search term. */
module Tickers {
  import opened Text

  /** The static mapping of known tickers to company names. `NFLX` is listed
      twice in the source, both times with the same name. */
  const CompanyNames: map<string, string> := map[
    "AAPL" := "Apple",
    "MSFT" := "Microsoft",
    "GOOGL" := "Google",
    "GOOG" := "Google",
    "AMZN" := "Amazon",
    "TSLA" := "Tesla",
    "META" := "Meta",
    "NVDA" := "NVIDIA",
    "NFLX" := "Netflix",
    "BA" := "Boeing",
    "JPM" := "JPMorgan",
    "JNJ" := "Johnson & Johnson",
    "V" := "Visa",
    "PG" := "Procter & Gamble",
    "UNH" := "UnitedHealth",
    "HD" := "Home Depot",
    "MA" := "Mastercard",
    "PFE" := "Pfizer",
    "DIS" := "Disney",
    "VZ" := "Verizon",
    "ADBE" := "Adobe",
    "NFLX" := "Netflix",
    "KO" := "Coca-Cola",
    "PEP" := "PepsiCo",
    "T" := "AT&T",
    "CVX" := "Chevron",
    "WMT" := "Walmart",
    "XOM" := "ExxonMobil",
    "INTC" := "Intel",
    "IBM" := "IBM",
    "ORCL" := "Oracle",
    "CSCO" := "Cisco",
    "CRM" := "Salesforce",
    "AVGO" := "Broadcom",
    "GME" := "GameStop",
    "AMC" := "AMC Entertainment",
    "BB" := "BlackBerry",
    "NOK" := "Nokia",
    "PLTR" := "Palantir",
    "RBLX" := "Roblox"
  ]

  /** `ticker_to_company_name`: the table is consulted with the upper-cased
      ticker; a ticker it does not know is returned exactly as given. */
  function CompanyName(ticker: string): (name: string)
    ensures Upper(ticker) in CompanyNames ==> name == CompanyNames[Upper(ticker)]
    ensures Upper(ticker) !in CompanyNames ==> name == ticker
    ensures name == ticker || name in CompanyNames.Values
  {
    if Upper(ticker) in CompanyNames then CompanyNames[Upper(ticker)] else ticker
  }

  /** The search term of `fetch_ticker_news_with_retry`: the company name when
      it differs from the ticker, the ticker otherwise. */
  function SearchTerm(ticker: string): (term: string)
    ensures term == CompanyName(ticker)
  {
    var name := CompanyName(ticker);
    if name != ticker then name else ticker
  }

  /** The lookup ignores case: two spellings of one ticker get one name. */
  lemma CompanyNameIgnoresCase(a: string, b: string)
    requires Upper(a) == Upper(b)
    requires Upper(a) in CompanyNames
    ensures CompanyName(a) == CompanyName(b)
  {
  }

  /** Every key of the table is an upper-case ticker and every name is
      non-empty, so a non-empty ticker never yields an empty search term. */
  /** The keys of the table, in four groups of the order they are listed in,
      so that each group can be checked on its own. */
  const KeysA: set<string> := {"AAPL", "MSFT", "GOOGL", "GOOG", "AMZN", "TSLA", "META", "NVDA", "NFLX", "BA"}
  const KeysB: set<string> := {"JPM", "JNJ", "V", "PG", "UNH", "HD", "MA", "PFE", "DIS", "VZ"}
  const KeysC: set<string> := {"ADBE", "KO", "PEP", "T", "CVX", "WMT", "XOM", "INTC", "IBM", "ORCL"}
  const KeysD: set<string> := {"CSCO", "CRM", "AVGO", "GME", "AMC", "BB", "NOK", "PLTR", "RBLX"}

  /** A non-empty string of the capital letters A-Z only. */
  predicate IsCapitals(k: string) {
    k != [] && forall i :: 0 <= i < |k| ==> 'A' <= k[i] <= 'Z'
  }

  lemma CapitalsA(k: string)
    requires k in KeysA
    ensures IsCapitals(k)
  {
  }

  lemma CapitalsB(k: string)
    requires k in KeysB
    ensures IsCapitals(k)
  {
  }

  lemma CapitalsC(k: string)
    requires k in KeysC
    ensures IsCapitals(k)
  {
  }

  lemma CapitalsD(k: string)
    requires k in KeysD
    ensures IsCapitals(k)
  {
  }

  lemma CompanyNamesWellFormed(ticker: string)
    ensures forall k :: k in CompanyNames ==> k != [] && IsUpper(k) && CompanyNames[k] != []
    ensures ticker != [] ==> SearchTerm(ticker) != []
  {
    forall k | k in CompanyNames
      ensures k != [] && IsUpper(k)
    {
      if k in KeysA {
        CapitalsA(k);
      } else if k in KeysB {
        CapitalsB(k);
      } else if k in KeysC {
        CapitalsC(k);
      } else {
        CapitalsD(k);
      }
    }
  }

  /** Lower case is found: `aapl` gives Apple and `Nflx` gives Netflix. */
  lemma CompanyNameLowerCase()
    ensures CompanyName("aapl") == "Apple"
    ensures CompanyName("Nflx") == "Netflix"
  {
    assert Upper("aapl") == "AAPL";
    assert CompanyNames["AAPL"] == "Apple";
    assert Upper("Nflx") == "NFLX";
    assert CompanyNames["NFLX"] == "Netflix";
  }

  /** An unknown ticker comes back as given, not upper-cased. */
  lemma CompanyNameUnknown()
    ensures CompanyName("brk.b") == "brk.b"
    ensures SearchTerm("brk.b") == "brk.b"
  {
    assert Upper("brk.b") == "BRK.B";
    assert "BRK.B" !in CompanyNames;
  }
}
