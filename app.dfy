/**
 * The top-level view (`App`): the selection it holds (result count, day,
 * country), the two queries it issues for a selection, and what one render
 * shows: the country options and the article area. Its derivations are the
 * ones of the `CountryPicker` and `ArticleList` components, which it repeats
 * inline.
 */
module App {
  import opened Wrappers
  import Seqs
  import opened Dates
  import opened Api
  import opened Articles
  import opened Countries

  /** The result counts the count selector offers. */
  const ArticleCountOptions: seq<int> := [25, 50, 75, 100, 200]

  /** The selection state: result count, selected day and country code. */
  datatype Selection = Selection(articleCount: int, date: Date, country: string)

  /**
   * The state on first render: 100 results, yesterday (`startOfYesterday`,
   * the latest day before today) and the United States.
   */
  function InitialSelection(today: Date): (s: Selection)
    requires Valid(today)
    ensures s.articleCount == 100 && s.articleCount in ArticleCountOptions
    ensures s.country == "US"
    ensures Valid(s.date) && IsAfter(today, s.date)
    ensures forall e :: Valid(e) && IsAfter(today, e) ==> !IsAfter(e, s.date)
  {
    forall e | Valid(e) && IsAfter(today, e)
      ensures !IsAfter(e, PreviousDay(today))
    {
      PreviousDayIsImmediate(today, e);
    }
    Selection(100, PreviousDay(today), "US")
  }

  /** The two requests of a render: the country list, and the articles unless the day is in the future. */
  datatype Queries = Queries(countries: Request, articles: Option<Request>)

  /**
   * The country list is keyed by the month before the selected day, the
   * articles by country and day; the article query is off for a future day.
   */
  function AppQueries(sel: Selection, today: Date): (q: Queries)
    requires Valid(sel.date)
    ensures q.countries.key == ["countries", FormatMonth(LastDayOfPreviousMonth(sel.date))]
    ensures q.articles.None? <==> InTheFuture(sel.date, today)
    ensures q.articles.Some? ==> q.articles.value.key == ["top-articles", sel.country, FormatDate(sel.date)]
  {
    Queries(CountryQuery(sel.date), ArticleQuery(sel.country, sel.date, today))
  }

  /** What one render shows: the country options and the article area. */
  datatype Page = Page(countryOptions: seq<string>, view: View)

  /**
   * A future day shows only the notice; until the country list arrives the
   * selected country is the only option; a shown list holds at most the
   * selected count of entries.
   */
  function AppPage(sel: Selection, today: Date, countries: Fetch<CountryListResponse>,
                   articles: Fetch<ArticleListResponse>): (p: Page)
    ensures p.view.FutureNotice? <==> InTheFuture(sel.date, today)
    ensures !countries.Fetched? ==> p.countryOptions == [sel.country]
    ensures p.view.Listing? ==> 1 <= |p.view.items| <= sel.articleCount
  {
    Page(CountryOptions(sel.country, countries), ArticleView(sel.articleCount, sel.date, today, articles))
  }

  /** The article area shows the future notice exactly when no article request is issued. */
  lemma FutureNoticeIffNoArticleRequest(sel: Selection, today: Date, countries: Fetch<CountryListResponse>,
                                        articles: Fetch<ArticleListResponse>)
    requires Valid(sel.date)
    ensures AppPage(sel, today, countries, articles).view.FutureNotice? <==> AppQueries(sel, today).articles.None?
  {
  }

  /**
   * The first render always fetches: yesterday is never in the future, so
   * the article query is enabled, and the selected country is offered while
   * the country list loads.
   */
  lemma InitialRenderFetches(today: Date, countries: Fetch<CountryListResponse>, articles: Fetch<ArticleListResponse>)
    requires Valid(today)
    ensures AppQueries(InitialSelection(today), today).articles.Some?
    ensures !AppPage(InitialSelection(today), today, countries, articles).view.FutureNotice?
    ensures !countries.Fetched? ==> AppPage(InitialSelection(today), today, countries, articles).countryOptions == ["US"]
  {
    var s := InitialSelection(today);
    IsAfterStrictTotalOrder(today, s.date, today);
  }

  // ---------------------------------------------------------------------
  // The scenario of src/__tests__/App.test.tsx. The test sets the clock to
  // `new Date("2020-01-01")`, which is midnight UTC; it expects the day
  // `2019/12/30`, so it runs in a time zone west of UTC, where that instant
  // falls on 2019-12-31. The model has no time zones and starts from that
  // local day. (Taken as the local day 2020-01-01, the first day would be
  // 2019-12-31 instead.)
  // ---------------------------------------------------------------------

  /** The local day the scenario runs on. */
  const ScenarioToday: Date := Date(2019, 12, 31)

  /** On the scenario's first render the day is 2019-12-30, written `2019/12/30`, and its previous month `2019/11`. */
  lemma ScenarioDay()
    ensures InitialSelection(ScenarioToday).date == Date(2019, 12, 30)
    ensures FormatDate(Date(2019, 12, 30)) == "2019/12/30"
    ensures FormatMonth(LastDayOfPreviousMonth(Date(2019, 12, 30))) == "2019/11"
  {
    assert LastDayOfPreviousMonth(Date(2019, 12, 30)) == Date(2019, 11, 30);
  }

  /** On first render the dashboard asks for 2019-12-30 in the US and for the November 2019 country list. */
  lemma ScenarioRequests()
    ensures AppQueries(InitialSelection(ScenarioToday), ScenarioToday).countries.url
            == ApiBaseUrl + "/top-by-country/all-projects/all-access/2019/11"
    ensures AppQueries(InitialSelection(ScenarioToday), ScenarioToday).articles
            == Some(Request(["top-articles", "US", "2019/12/30"],
                            ApiBaseUrl + "/top-per-country/US/all-access/2019/12/30"))
  {
    ScenarioDay();
    var day := Date(2019, 12, 30);
    var tail := "/top-per-country/" + "US" + "/all-access/" + "2019/12/30";
    assert tail == "/top-per-country/US/all-access/2019/12/30";
    assert ApiBaseUrl + "/top-per-country/" + "US" + "/all-access/" + "2019/12/30" == ApiBaseUrl + tail;
    var monthTail := "/top-by-country/all-projects/all-access/" + "2019/11";
    assert monthTail == "/top-by-country/all-projects/all-access/2019/11";
  }

  /** A response with the single article `asdf` of 123 views shows one entry: rank 1, `asdf`, 123. */
  lemma ScenarioSingleArticle()
    ensures var response := ArticleListResponse([ArticleGroup([Article("asdf", 123)])]);
      AppPage(InitialSelection(ScenarioToday), ScenarioToday, Pending, Fetched(response)).view
      == Listing([ListItem(1, "asdf", 123)])
  {
    var response := ArticleListResponse([ArticleGroup([Article("asdf", 123)])]);
    assert Flattened(response) == [Article("asdf", 123)];
    NamespacePatternIff("asdf");
    assert IsListed(Article("asdf", 123));
    assert Candidates(response) == [Article("asdf", 123)];
    assert DisplayName("asdf") == "asdf";
  }

  /** A 500 response shows its message after "Error: ". */
  lemma ScenarioServerError()
    ensures var failure := HttpError(Some(500), "Request failed with status code 500");
      AppPage(InitialSelection(ScenarioToday), ScenarioToday, Pending, Failed(failure)).view
      == ErrorNotice("Error: Request failed with status code 500")
  {
    ScenarioDayIsPast();
    var failure := HttpError(Some(500), "Request failed with status code 500");
    ServerErrorText(failure);
    FailedRequestShowsItsMessage(InitialSelection(ScenarioToday), ScenarioToday, Pending, failure);
  }

  /** The scenario's first day is not in the future. */
  lemma ScenarioDayIsPast()
    ensures !IsAfter(InitialSelection(ScenarioToday).date, ScenarioToday)
  {
    IsAfterStrictTotalOrder(ScenarioToday, InitialSelection(ScenarioToday).date, ScenarioToday);
  }

  /** The text the scenario's 500 failure is shown with. */
  lemma ServerErrorText(failure: HttpError)
    requires failure.message == "Request failed with status code 500"
    ensures "Error: " + failure.message == "Error: Request failed with status code 500"
  {
  }

  /** Away from a future day, a failure other than 404 shows its message after "Error: ". */
  lemma FailedRequestShowsItsMessage(sel: Selection, today: Date, countries: Fetch<CountryListResponse>, failure: HttpError)
    requires !InTheFuture(sel.date, today) && failure.status != Some(404)
    ensures AppPage(sel, today, countries, Failed(failure)).view == ErrorNotice("Error: " + failure.message)
  {
  }

  /** Choosing 2020-01-02 shows the future notice and fetches no articles. */
  lemma ScenarioFutureDay(countries: Fetch<CountryListResponse>, articles: Fetch<ArticleListResponse>)
    ensures var sel := InitialSelection(ScenarioToday).(date := Date(2020, 1, 2));
      AppPage(sel, ScenarioToday, countries, articles).view == FutureNotice
      && AppQueries(sel, ScenarioToday).articles == None
  {
  }

  /** The country list `US`, `JP` is offered as it is. */
  lemma ScenarioCountries(articles: Fetch<ArticleListResponse>)
    ensures var response := CountryListResponse([CountryGroup([CountryEntry("US"), CountryEntry("JP")])]);
      AppPage(InitialSelection(ScenarioToday), ScenarioToday, Fetched(response), articles).countryOptions
      == ["US", "JP"]
  {
    var response := CountryListResponse([CountryGroup([CountryEntry("US"), CountryEntry("JP")])]);
    ScenarioCountryCodes(response);
    assert MatchesTwoCapitals("US") && MatchesTwoCapitals("JP");
    Seqs.FilterAllPass(MatchesTwoCapitals, ["US", "JP"]);
  }

  /** The scenario's country response lists `US` and `JP`, in that order. */
  lemma ScenarioCountryCodes(response: CountryListResponse)
    requires response == CountryListResponse([CountryGroup([CountryEntry("US"), CountryEntry("JP")])])
    ensures CountryCodes(response) == ["US", "JP"]
  {
    var g := CountryGroup([CountryEntry("US"), CountryEntry("JP")]);
    assert CodesOf(g) == ["US", "JP"];
    assert CountryCodes(response) == CodesOf(g) + Seqs.FlatMap([], CodesOf);
  }
}
