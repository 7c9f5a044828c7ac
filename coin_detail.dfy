/** The coin detail page: the sentiment gauge derived from the 24-hour
    price change, and the page's load state as the coin and history
    requests come back. Prices and percentages are mathematical reals. */
module CoinDetail {
  import opened Wrappers

  // ---------------------------------------------------------------------
  // Sentiment gauge

  datatype Mood = Neutral | Bullish | Bearish

  /** The object `calculateSentiment` returns; `isPositive` is `None` for
      the neutral reading (JavaScript `null`). */
  datatype Sentiment = Sentiment(text: Mood, percentage: real, isPositive: Option<bool>)

  function Abs(x: real): real {
    if x < 0.0 then -x else x
  }

  function Min(a: real, b: real): real {
    if a <= b then a else b
  }

  /** `calculateSentiment()` for a 24-hour change that is missing (`None`)
      or present. A zero change is falsy and reads as missing. */
  function CalculateSentiment(change: Option<real>): (s: Sentiment)
    ensures change.None? || change.value == 0.0 ==> s == Sentiment(Neutral, 50.0, None)
    ensures change.Some? && change.value > 0.0 ==>
              s.text == Bullish && s.isPositive == Some(true) && 50.0 < s.percentage <= 95.0
    ensures change.Some? && change.value < 0.0 ==>
              s.text == Bearish && s.isPositive == Some(false) && 5.0 <= s.percentage < 50.0
    ensures change.Some? && change.value >= 4.5 ==> s.percentage == 95.0
    ensures change.Some? && change.value <= -4.5 ==> s.percentage == 5.0
  {
    if change.None? || change.value == 0.0 then Sentiment(Neutral, 50.0, None)
    else
      var c := change.value;
      var isPositive := c > 0.0;
      var percentage := Min(Abs(c) * 10.0 + 50.0, 95.0);
      Sentiment(if isPositive then Bullish else Bearish,
                if isPositive then percentage else 100.0 - percentage,
                Some(isPositive))
  }

  /** The gauge position for a present change. */
  function Gauge(c: real): real {
    CalculateSentiment(Some(c)).percentage
  }

  /** Inside the unsaturated band the gauge moves ten points per percent of
      change, on both sides of the neutral 50. */
  lemma GaugeLinearBand(c: real)
    requires -4.5 < c < 4.5
    ensures Gauge(c) == 50.0 + 10.0 * c
  {
  }

  /** A fall reads as the mirror image of the same rise. */
  lemma GaugeMirror(c: real)
    ensures Gauge(-c) == 100.0 - Gauge(c)
  {
  }

  /** A larger change never moves the gauge down. */
  lemma GaugeMonotone(c1: real, c2: real)
    requires c1 <= c2
    ensures Gauge(c1) <= Gauge(c2)
  {
  }

  // ---------------------------------------------------------------------
  // Fetch outcomes

  /** How one request ended: the promise rejected before a response
      (`Failed`), or a response with its status and its body, which is
      `None` when the body does not parse as JSON. */
  datatype Outcome<T> = Failed | Responded(status: int, body: Option<T>)

  /** `response.ok`. */
  predicate IsOk(status: int) {
    200 <= status <= 299
  }

  /** The dataset and loading flag after one request ends: a 429 returns
      before touching either; a parsed ok response stores its body; every
      other outcome is caught and only clears the flag. */
  function AfterFetch<T>(data: Option<T>, loading: bool, outcome: Outcome<T>): (r: (Option<T>, bool))
    ensures outcome.Responded? && outcome.status == 429 ==> r == (data, loading)
    ensures outcome.Responded? && IsOk(outcome.status) && outcome.body.Some? ==> r == (outcome.body, false)
    ensures outcome.Failed? ==> r == (data, false)
    ensures outcome.Responded? && !IsOk(outcome.status) && outcome.status != 429 ==> r == (data, false)
    ensures outcome.Responded? && IsOk(outcome.status) && outcome.body.None? ==> r == (data, false)
  {
    if outcome.Responded? && outcome.status == 429 then (data, loading)
    else if outcome.Responded? && IsOk(outcome.status) && outcome.body.Some? then (outcome.body, false)
    else (data, false)
  }

  /** Every outcome but a rate limit ends the loading state. */
  lemma LoadingEndsUnlessRateLimited<T>(data: Option<T>, loading: bool, outcome: Outcome<T>)
    ensures AfterFetch(data, loading, outcome).1
            <==> loading && outcome.Responded? && outcome.status == 429
  {
  }

  /** A stored dataset is only ever replaced, never cleared, and it is
      replaced only by a parsed ok response. */
  lemma DataNeverCleared<T>(data: Option<T>, loading: bool, outcome: Outcome<T>)
    ensures data.Some? ==> AfterFetch(data, loading, outcome).0.Some?
    ensures AfterFetch(data, loading, outcome).0 != data ==>
              outcome.Responded? && IsOk(outcome.status) && outcome.body.Some?
  {
  }

  // ---------------------------------------------------------------------
  // Render gating

  datatype View = Loading | NoData | Ready(sentiment: Sentiment)

  /** The coin response's one field the model reads. */
  datatype CoinData = CoinData(change24h: Option<real>)

  /** What the page renders: the spinner while either request is pending,
      the empty message while either dataset is missing, else the page with
      its sentiment. */
  function Gate<H>(coinLoading: bool, historyLoading: bool, coindata: Option<CoinData>, historicaldata: Option<H>): (v: View)
    ensures v == Loading <==> coinLoading || historyLoading
    ensures v == NoData <==> !coinLoading && !historyLoading && (coindata.None? || historicaldata.None?)
    ensures v.Ready? ==> coindata.Some? && v.sentiment == CalculateSentiment(coindata.value.change24h)
  {
    if coinLoading || historyLoading then Loading
    else if coindata.None? || historicaldata.None? then NoData
    else Ready(CalculateSentiment(coindata.value.change24h))
  }

  /** `sentiment`: absent while there is no coin data. */
  function SentimentOf(coindata: Option<CoinData>): (s: Option<Sentiment>)
    ensures s.None? <==> coindata.None?
  {
    if coindata.None? then None else Some(CalculateSentiment(coindata.value.change24h))
  }

  /** A page that shows anything shows the sentiment of its coin data. */
  lemma ReadyShowsSentiment<H>(coinLoading: bool, historyLoading: bool, coindata: Option<CoinData>, historicaldata: Option<H>)
    requires Gate(coinLoading, historyLoading, coindata, historicaldata).Ready?
    ensures SentimentOf(coindata) == Some(Gate(coinLoading, historyLoading, coindata, historicaldata).sentiment)
  {
  }

  /** The page's state. The historical series is kept abstract. */
  class CoinPage<H> {
    var coindata: Option<CoinData>
    var historicaldata: Option<H>
    var coinLoading: bool
    var historyLoading: bool
    var timeframe: string

    constructor ()
      ensures coindata.None? && historicaldata.None?
      ensures coinLoading && historyLoading && timeframe == "7"
    {
      coindata, historicaldata := None, None;
      coinLoading, historyLoading := true, true;
      timeframe := "7";
    }

    function View(): View
      reads this
    {
      Gate(coinLoading, historyLoading, coindata, historicaldata)
    }

    /** The coin request ends with `outcome`. */
    method OnCoinResponse(outcome: Outcome<CoinData>)
      modifies this
      ensures (coindata, coinLoading) == AfterFetch(old(coindata), old(coinLoading), outcome)
      ensures historicaldata == old(historicaldata) && historyLoading == old(historyLoading)
      ensures timeframe == old(timeframe)
    {
      match outcome
      case Failed =>
        coinLoading := false;
      case Responded(status, body) =>
        if status == 429 {
          return;
        }
        if !IsOk(status) || body.None? {
          coinLoading := false;
          return;
        }
        coindata := body;
        coinLoading := false;
    }

    /** The history request for the selected currency ends with `outcome`;
        with no currency name the request is never made. */
    method OnHistoryResponse(currencyName: string, outcome: Outcome<H>)
      modifies this
      ensures currencyName == "" ==> historicaldata == old(historicaldata) && historyLoading == old(historyLoading)
      ensures currencyName != "" ==>
                (historicaldata, historyLoading) == AfterFetch(old(historicaldata), old(historyLoading), outcome)
      ensures coindata == old(coindata) && coinLoading == old(coinLoading) && timeframe == old(timeframe)
    {
      if currencyName == "" {
        return;
      }
      match outcome
      case Failed =>
        historyLoading := false;
      case Responded(status, body) =>
        if status == 429 {
          return;
        }
        if !IsOk(status) || body.None? {
          historyLoading := false;
          return;
        }
        historicaldata := body;
        historyLoading := false;
    }

    /** A timeframe button: only the selection changes; the loading flags
        are not raised again for the new request. */
    method SelectTimeframe(days: string)
      modifies this
      ensures timeframe == days
      ensures coindata == old(coindata) && historicaldata == old(historicaldata)
      ensures coinLoading == old(coinLoading) && historyLoading == old(historyLoading)
    {
      timeframe := days;
    }
  }

  /** A page whose coin request is rate limited keeps showing the spinner. */
  lemma RateLimitedCoinStaysLoading<H>(historyLoading: bool, historicaldata: Option<H>, body: Option<CoinData>)
    ensures var (d, l) := AfterFetch<CoinData>(None, true, Responded(429, body));
            Gate(l, historyLoading, d, historicaldata) == Loading
  {
  }
}
