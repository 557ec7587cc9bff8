/** The records the frontend exchanges with the backend. */
module Domain {
  import opened Wrappers

  /** Sentiment of a review; the backend sends it as "positive", "neutral" or "negative". */
  datatype Sentiment = Positive | Neutral | Negative

  /** Lifecycle of an analysis job: "pending" until the worker settles it as "done" or "failed". */
  datatype Status = Pending | Done | Failed

  /** Aggregate counts the server attaches to a finished analysis (never checked client-side). */
  datatype Stats = Stats(total: int, positive: int, negative: int, neutral: int)

  datatype Analysis = Analysis(
    id: int,
    status: Status,
    filename: string,
    createdAt: string,
    error: Option<string>,
    stats: Option<Stats>)

  /** A 2-D embedding point; `None` stands for a review the server sent without coords. */
  datatype Coords = Coords(x: real, y: real)

  /** `confidence` is a real number, not an IEEE double. */
  datatype Review = Review(
    id: int,
    analysisId: int,
    sourceId: string,
    text: string,
    sentiment: Sentiment,
    confidence: real,
    clusterId: int,
    coords: Option<Coords>)

  datatype Cluster = Cluster(id: int, analysisId: int, title: string, summary: string)

  /** The string TypeScript compares against selection keys. */
  function SentimentName(s: Sentiment): (name: string)
    ensures name in {"positive", "neutral", "negative"}
  {
    match s
    case Positive => "positive"
    case Neutral => "neutral"
    case Negative => "negative"
  }

  lemma SentimentNameInjective(a: Sentiment, b: Sentiment)
    ensures SentimentName(a) == SentimentName(b) <==> a == b
  {
  }
}
