/**
 * The records of the service: the chain keys and the pydantic models the
 * pipeline stages pass along and the combined endpoint returns.
 */
module Model {

  /** The key each chain's last stage writes under (`DESCRPTION_DATA` keeps
      no misspelling here). */
  datatype ChainType =
    | LogoData
    | DescriptionData
    | StockInfoData
    | StockPriceData
    | YouTubeSentimentData
    | RedditSentimentData

  datatype TargetQuery = TargetQuery(target: string)

  datatype Logo = Logo(index: nat, url: string, title: string, distance: nat)

  datatype Description = Description(text: string)

  datatype StockInfo = StockInfo(tickerSymbol: string, companyName: string, stockPrice: real)

  datatype StockData = StockData(month: string, price: real)

  datatype Sentiment = Sentiment(score: real)

  datatype CombinedData = CombinedData(
    logo: seq<Logo>,
    description: Description,
    stockInfo: StockInfo,
    stockData: seq<StockData>,
    youTubeSentiment: Sentiment,
    redditSentiment: Sentiment)

  /** A value a chain can store in the key-value store (the store holds `Any`). */
  datatype Value =
    | LogoValue(logos: seq<Logo>)
    | DescriptionValue(description: Description)
    | StockInfoValue(info: StockInfo)
    | StockSeriesValue(points: seq<StockData>)
    | SentimentValue(sentiment: Sentiment)

  /** The value kind the `CombinedData` field read from key `k` accepts. */
  predicate WellKinded(k: ChainType, v: Value) {
    match k
    case LogoData => v.LogoValue?
    case DescriptionData => v.DescriptionValue?
    case StockInfoData => v.StockInfoValue?
    case StockPriceData => v.StockSeriesValue?
    case YouTubeSentimentData => v.SentimentValue?
    case RedditSentimentData => v.SentimentValue?
  }

  /** The six keys in the order the combined join reads them. */
  const JoinOrder: seq<ChainType> :=
    [LogoData, DescriptionData, StockInfoData, StockPriceData, YouTubeSentimentData, RedditSentimentData]

  lemma JoinOrderCoversEveryKey(k: ChainType)
    ensures k in JoinOrder
  {
  }
}
