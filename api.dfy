/**
 * The pageview-metrics API as the dashboard sees it: the shapes of its two
 * responses, the state a data-fetching query reports, and the request a query
 * issues (its cache key and its URL).
 */
module Api {
  import opened Wrappers

  /** The base URL every request path is appended to. */
  const ApiBaseUrl: string := "https://wikimedia.org/api/rest_v1/metrics/pageviews"

  /**
   * One entry of a top-articles response: the page title and its view count.
   * The count is the `views_ceil` field, the one the components read.
   */
  datatype Article = Article(article: string, views: int)
  datatype ArticleGroup = ArticleGroup(articles: seq<Article>)
  datatype ArticleListResponse = ArticleListResponse(items: seq<ArticleGroup>)

  /** One entry of a top-by-country response: a country code. */
  datatype CountryEntry = CountryEntry(country: string)
  datatype CountryGroup = CountryGroup(countries: seq<CountryEntry>)
  datatype CountryListResponse = CountryListResponse(items: seq<CountryGroup>)

  /**
   * A failed request: the HTTP status of the response, when one arrived
   * (`error.response?.status`), and the error's message.
   */
  datatype HttpError = HttpError(status: Option<int>, message: string)

  /** What a query reports on a render: still loading, failed, or done with its data. */
  datatype Fetch<T> = Pending | Failed(error: HttpError) | Fetched(data: T)

  /** The query's `data`: present only once the request has succeeded. */
  function Data<T>(q: Fetch<T>): (r: Option<T>)
  {
    if q.Fetched? then Some(q.data) else None
  }

  /** A request: the query key it is cached under and the URL it fetches. */
  datatype Request = Request(key: seq<string>, url: string)
}
