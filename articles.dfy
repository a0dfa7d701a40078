/**
 * The article list (the `ArticleList` component, whose pipeline `App`
 * repeats inline): which request is issued for a country and a day, how the
 * response becomes a ranked list, and which of the six views is shown.
 */
module Articles {
  import opened Wrappers
  import opened Seqs
  import opened Text
  import opened Dates
  import opened Api

  // ---------------------------------------------------------------------
  // The namespace test: `title.match(/\w+:[^_]/)`
  // ---------------------------------------------------------------------

  /** `\w`: an ASCII letter, a digit or the underscore. */
  predicate IsWordChar(c: char)
  {
    'a' <= c <= 'z' || 'A' <= c <= 'Z' || '0' <= c <= '9' || c == '_'
  }

  /** `:[^_]` matches at `k`: a colon followed by some character other than `_`. */
  predicate ColonTailAt(s: string, k: nat)
  {
    k + 1 < |s| && s[k] == ':' && s[k + 1] != '_'
  }

  /** `\w+:[^_]` matches a substring of `s` that starts at `j`. */
  predicate PatternAt(s: string, j: nat)
    decreases |s| - j
  {
    j < |s| && IsWordChar(s[j]) && (ColonTailAt(s, j + 1) || PatternAt(s, j + 1))
  }

  /** The unanchored search: the pattern matches starting at `start` or later. */
  predicate SearchFrom(s: string, start: nat)
    decreases |s| - start
  {
    start < |s| && (PatternAt(s, start) || SearchFrom(s, start + 1))
  }

  /** `s.match(/\w+:[^_]/)` is non-null: a title in a namespace such as `Talk:` or `Special:`. */
  predicate MatchesNamespacePattern(s: string)
  {
    SearchFrom(s, 0)
  }

  /** A word character at `i`, a colon right after it, and a non-`_` character after that. */
  predicate WordColonAt(s: string, i: int)
  {
    0 <= i && i + 2 < |s| && IsWordChar(s[i]) && s[i + 1] == ':' && s[i + 2] != '_'
  }

  lemma {:induction false} PatternAtFindsColon(s: string, j: nat)
    requires PatternAt(s, j)
    ensures exists i :: j <= i && WordColonAt(s, i)
    decreases |s| - j
  {
    if ColonTailAt(s, j + 1) {
      assert WordColonAt(s, j);
    } else {
      PatternAtFindsColon(s, j + 1);
    }
  }

  lemma {:induction false} SearchFindsColon(s: string, start: nat)
    requires SearchFrom(s, start)
    ensures exists i :: start <= i && WordColonAt(s, i)
    decreases |s| - start
  {
    if PatternAt(s, start) {
      PatternAtFindsColon(s, start);
    } else {
      SearchFindsColon(s, start + 1);
    }
  }

  lemma {:induction false} ColonIsFound(s: string, start: nat, i: nat)
    requires start <= i && WordColonAt(s, i)
    ensures SearchFrom(s, start)
    decreases i - start
  {
    if start == i {
      assert ColonTailAt(s, i + 1);
    } else {
      ColonIsFound(s, start + 1, i);
    }
  }

  /**
   * The regular expression matches exactly when some word character is
   * followed by `:` and then by a character other than `_`; a longer run of
   * word characters before the colon adds nothing.
   */
  lemma NamespacePatternIff(s: string)
    ensures MatchesNamespacePattern(s) <==> exists i :: WordColonAt(s, i)
  {
    if MatchesNamespacePattern(s) {
      SearchFindsColon(s, 0);
    }
    if exists i :: WordColonAt(s, i) {
      var i :| WordColonAt(s, i);
      ColonIsFound(s, 0, i);
    }
  }

  /**
   * The test looks at the characters only, not at a list of namespaces: a
   * main-namespace title with a colon, such as `Re:Zero`, is dropped as
   * well, while `Mission:_Impossible` (colon, then `_`) is kept.
   */
  lemma ColonTitlesAreDropped()
    ensures MatchesNamespacePattern("Re:Zero") && MatchesNamespacePattern("Talk:Main_Page")
    ensures !MatchesNamespacePattern("Mission:_Impossible")
  {
    ColonIsFound("Re:Zero", 0, 1);
    ColonIsFound("Talk:Main_Page", 0, 3);
    NamespacePatternIff("Mission:_Impossible");
    assert !WordColonAt("Mission:_Impossible", 6);
  }

  /** The filter applied to each title: not a namespaced page, and not the main page. */
  predicate IsListedTitle(title: string)
  {
    !MatchesNamespacePattern(title) && title != "Main_Page"
  }

  predicate IsListed(a: Article)
  {
    IsListedTitle(a.article)
  }

  // ---------------------------------------------------------------------
  // The derivation pipeline
  // ---------------------------------------------------------------------

  /** `data.items.flatMap((item) => item.articles)`. */
  function Flattened(data: ArticleListResponse): (r: seq<Article>)
  {
    FlatMap(data.items, (g: ArticleGroup) => g.articles)
  }

  /** The flattened articles that pass the title filter, in response order. */
  function Candidates(data: ArticleListResponse): (r: seq<Article>)
  {
    Filter(IsListed, Flattened(data))
  }

  /**
   * `filteredArticles`: no data gives an empty list; otherwise the first
   * `count` candidates, in response order.
   */
  function FilteredArticles(data: Option<ArticleListResponse>, count: int): (r: seq<Article>)
    ensures data.None? ==> r == []
    ensures data.Some? ==> r <= Candidates(data.value)
    ensures data.Some? ==> |r| == if count <= 0 then 0
                                  else if count < |Candidates(data.value)| then count
                                  else |Candidates(data.value)|
    ensures forall i :: 0 <= i < |r| ==> IsListed(r[i])
  {
    if data.Some? then Take(Candidates(data.value), count) else []
  }

  /**
   * The filter removes exactly the articles that fail the title test, and
   * keeps the others in their response order: the candidates are a
   * subsequence of the flattened articles, in which every listed article
   * keeps all of its occurrences and every other article has none.
   */
  lemma CandidatesAreExactlyTheListed(data: ArticleListResponse, a: Article)
    ensures IsSubsequence(Candidates(data), Flattened(data))
    ensures multiset(Candidates(data))[a] == if IsListed(a) then multiset(Flattened(data))[a] else 0
  {
    FilterIsSubsequence(IsListed, Flattened(data));
    FilterMultiset(IsListed, Flattened(data), a);
  }

  /** No title in the list is in a namespace (a word character, `:`, then no `_`) or is `Main_Page`. */
  lemma ListedTitlesAreArticles(data: Option<ArticleListResponse>, count: int, i: nat, j: int)
    requires i < |FilteredArticles(data, count)|
    ensures !WordColonAt(FilteredArticles(data, count)[i].article, j)
    ensures FilteredArticles(data, count)[i].article != "Main_Page"
  {
    NamespacePatternIff(FilteredArticles(data, count)[i].article);
  }

  /**
   * An article at position `i` of the flattened response that passes the
   * filter is dropped only by truncation: if fewer than `count` listed
   * articles precede it, it is in the list, at position `k`, right after them.
   */
  lemma ListedArticleIsKeptUnlessTruncated(data: ArticleListResponse, count: int, i: nat)
    requires i < |Flattened(data)| && IsListed(Flattened(data)[i])
    ensures var k := |Filter(IsListed, Flattened(data)[..i])|;
      k < count ==> k < |FilteredArticles(Some(data), count)| && FilteredArticles(Some(data), count)[k] == Flattened(data)[i]
  {
    FilterPosition(IsListed, Flattened(data), i);
  }

  /** An article is in the flattened sequence exactly when it is in one of the response's groups. */
  lemma FlattenedHasEveryGroup(data: ArticleListResponse, a: Article)
    ensures a in Flattened(data) <==> exists g :: 0 <= g < |data.items| && a in data.items[g].articles
  {
    FlatMapMember(data.items, (g: ArticleGroup) => g.articles, a);
  }

  /**
   * When every title is a plain article, the list is the first `count`
   * articles of the response: with 300 such titles it holds 100 entries for a
   * count of 100 and 50 for a count of 50.
   */
  lemma CleanResponseIsTruncatedOnly(data: ArticleListResponse, count: int)
    requires forall i :: 0 <= i < |Flattened(data)| ==> IsListed(Flattened(data)[i])
    ensures FilteredArticles(Some(data), count) == Take(Flattened(data), count)
  {
    FilterAllPass(IsListed, Flattened(data));
  }

  // ---------------------------------------------------------------------
  // Ranking and display names
  // ---------------------------------------------------------------------

  /**
   * `title.split("_").join(" ")`: the title with every underscore shown as a
   * space, and every other character as it was.
   */
  function DisplayName(title: string): (name: string)
    ensures |name| == |title| && '_' !in name
    ensures forall i :: 0 <= i < |title| ==> name[i] == if title[i] == '_' then ' ' else title[i]
  {
    SplitJoinSubstitutes(title, '_', ' ');
    Join(Split(title, '_'), ' ')
  }

  /** One rendered entry: its rank, its display name and its view count. */
  datatype ListItem = ListItem(rank: int, name: string, views: int)

  /**
   * The rendered entries: ranks run 1, 2, ..., n in list order; each name
   * is its title shown with spaces; each count is the article's `views_ceil`.
   */
  function RankedItems(articles: seq<Article>): (items: seq<ListItem>)
    ensures |items| == |articles|
    ensures forall i :: 0 <= i < |items| ==> items[i].rank == i + 1
    ensures forall i :: 0 <= i < |items| ==>
      items[i].name == DisplayName(articles[i].article) && items[i].views == articles[i].views
  {
    seq(|articles|, i requires 0 <= i < |articles| =>
      ListItem(i + 1, DisplayName(articles[i].article), articles[i].views))
  }

  // ---------------------------------------------------------------------
  // The request and the view
  // ---------------------------------------------------------------------

  /** `inTheFuture`: the selected day is strictly after the start of today. */
  predicate InTheFuture(date: Date, today: Date)
  {
    IsAfter(date, today)
  }

  /**
   * The top-articles query: keyed by `["top-articles", country, yyyy/MM/dd]`,
   * fetching `top-per-country/{country}/all-access/{yyyy/MM/dd}`, and
   * enabled only when the day is not in the future (`None`: nothing is fetched).
   */
  function ArticleQuery(country: string, date: Date, today: Date): (r: Option<Request>)
    requires Valid(date)
    ensures r.None? <==> InTheFuture(date, today)
    ensures r.Some? ==> |r.value.key| == 3 && r.value.key[0] == "top-articles" && r.value.key[1] == country
    ensures r.Some? && 1 <= date.year <= 9999 ==> ParseDate(r.value.key[2]) == Some(date)
    ensures r.Some? ==> r.value.url == ApiBaseUrl + "/top-per-country/" + country + "/all-access/" + r.value.key[2]
  {
    var formattedDate := FormatDate(date);
    ParseFormatDate(date);
    if InTheFuture(date, today) then None
    else Some(Request(["top-articles", country, formattedDate],
                      ApiBaseUrl + "/top-per-country/" + country + "/all-access/" + formattedDate))
  }

  /**
   * Changing the country or the day (years 1 to 9999) changes the query key,
   * so the new selection is fetched rather than served from the old entry.
   */
  lemma ArticleQueryKeysDiffer(c1: string, d1: Date, c2: string, d2: Date, today: Date)
    requires Valid(d1) && 1 <= d1.year <= 9999 && Valid(d2) && 1 <= d2.year <= 9999
    requires ArticleQuery(c1, d1, today).Some? && ArticleQuery(c2, d2, today).Some?
    requires c1 != c2 || d1 != d2
    ensures ArticleQuery(c1, d1, today).value.key != ArticleQuery(c2, d2, today).value.key
  {
  }

  /** What the article area shows. */
  datatype View =
    | FutureNotice
    | LoadingNotice
    | NotFoundNotice
    | ErrorNotice(text: string)
    | Listing(items: seq<ListItem>)
    | NoResults

  /**
   * The view, decided in priority order: a future day, then loading, then a
   * failure (404 is "Not found", anything else "Error: " and the message),
   * then a non-empty list, and otherwise "No results".
   */
  function ArticleView(count: int, date: Date, today: Date, q: Fetch<ArticleListResponse>): (v: View)
    ensures v.FutureNotice? <==> InTheFuture(date, today)
    ensures v.LoadingNotice? <==> !InTheFuture(date, today) && q.Pending?
    ensures v.NotFoundNotice? <==> !InTheFuture(date, today) && q.Failed? && q.error.status == Some(404)
    ensures v.ErrorNotice? <==> !InTheFuture(date, today) && q.Failed? && q.error.status != Some(404)
    ensures v.ErrorNotice? ==> v.text == "Error: " + q.error.message
    ensures v.Listing? <==> !InTheFuture(date, today) && q.Fetched? && FilteredArticles(Some(q.data), count) != []
    ensures v.Listing? ==> v.items == RankedItems(FilteredArticles(Some(q.data), count))
    ensures v.NoResults? <==> !InTheFuture(date, today) && q.Fetched? && FilteredArticles(Some(q.data), count) == []
  {
    var filteredArticles := FilteredArticles(Data(q), count);
    if InTheFuture(date, today) then FutureNotice
    else if q.Pending? then LoadingNotice
    else if q.Failed? then
      (if q.error.status == Some(404) then NotFoundNotice else ErrorNotice("Error: " + q.error.message))
    else if |filteredArticles| > 0 then Listing(RankedItems(filteredArticles))
    else NoResults
  }

  /**
   * A future day shows the notice whatever the query reports, and it is
   * exactly then that no request is issued.
   */
  lemma FutureDayIsNeverFetched(country: string, count: int, date: Date, today: Date, q: Fetch<ArticleListResponse>)
    requires Valid(date)
    ensures ArticleView(count, date, today, q).FutureNotice? <==> ArticleQuery(country, date, today).None?
  {
  }

  /**
   * A shown list is never longer than the requested count, and its ranks
   * run from 1 to its length.
   */
  lemma ListingIsBoundedAndRanked(count: int, date: Date, today: Date, q: Fetch<ArticleListResponse>)
    requires ArticleView(count, date, today, q).Listing?
    ensures var items := ArticleView(count, date, today, q).items;
      1 <= |items| <= count && items[0].rank == 1 && items[|items| - 1].rank == |items|
  {
  }
}
