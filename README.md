# grow-wiki: the derivations of a top-Wikipedia-articles dashboard

The dashboard lets a user pick a day, a country and a result count, and
shows the most-viewed Wikipedia articles for that selection from the
Wikimedia pageview API. Everything it does besides drawing is a small
derivation each time it renders:

- **Requests.** Two queries are issued. The article query is keyed by
  `["top-articles", country, yyyy/MM/dd]` and fetches
  `top-per-country/{country}/all-access/{yyyy/MM/dd}`. It is switched off when
  the day is after the start of today. The country query is keyed by
  `["countries", yyyy/MM]` for the month before the selected day. It fetches
  `top-by-country/all-projects/all-access/{yyyy/MM}`.
- **Article list.** The response's groups are flattened in order. Titles
  matching `/\w+:[^_]/` are dropped, and so is `Main_Page`. The first `count`
  remaining articles are kept, ranked from 1. Each is shown with `_` turned
  into a space and with its `views_ceil` count.
- **Country options.** With no data yet, the only option is the selected
  code. Otherwise the options are the response's codes, in order, that contain
  two neighbouring capital letters.
- **View.** In priority order: the future-date notice, "Loading...",
  "Not found" for a 404, "Error: " and the message for any other failure, the
  list, and "No results".

The Dafny modules follow this structure. `Seqs` holds `flatMap`, `filter` and
lodash `take`. `Text` holds zero-padded numerals and `split`/`join`. `Dates`
holds the date-fns calls. `Api` holds the response shapes and the query
state. `Articles` models `ArticleList.tsx` and `Countries` models
`CountryPicker.tsx`. `App` models `App.tsx`, which repeats both pipelines
inline. The module reuses `Articles` and `Countries` rather than defining them
a second time.

Three details of the code that are easy to misread:
- The country filter keeps any code that *contains* two neighbouring capitals
  (`USA` and `xUSy` pass). It does not require exactly two letters.
- The article count is the `views_ceil` field, the one the components read.
  The declared response type in `src/utils.ts` names it `views`.
- The namespace test looks only at characters. A main-namespace title such
  as `Re:Zero` is dropped too (`Articles.ColonTitlesAreDropped`).

The regular expressions are modelled as searches. `\w+:[^_]` becomes a
recursive matcher, proved equal to "some word character, then `:`, then a
character other than `_`". `[A-Z][A-Z]` becomes a search for two neighbouring
capitals. `ParseDate` and `ParseMonth` are not part of the dashboard. They
are reference inverses of the date formatting, used to state that a query key
determines its day or month.

## Model

| member | source | states |
|---|---|---|
| `Seqs.FlatMap` | src/ArticleList.tsx:34-35 | `flatMap`; no contract of its own; `Seqs.FlatMapMember` and `Seqs.FlatMapAppend` give its meaning: exactly the elements of the parts, part after part |
| `Seqs.Filter` | src/App.tsx:67-71 | `filter` never grows the sequence and keeps only elements passing the predicate |
| `Seqs.Take` | src/App.tsx:64-73 | lodash `take`: a prefix of length `min(n, len(s))`, empty for `n <= 0` |
| `Seqs.FlatMapAppend` | src/App.tsx:65-66 | `flatMap` distributes over concatenation, so group order is kept |
| `Seqs.FlatMapMember` | src/App.tsx:49 | an element is in the flattened sequence iff it is in some part |
| `Seqs.FilterAppend` | src/App.tsx:67-71 | `filter` distributes over concatenation |
| `Seqs.FilterIsSubsequence` | src/CountryPicker.tsx:30-32 | `filter` deletes only and never reorders: the result is a subsequence |
| `Seqs.FilterMultiset` | src/CountryPicker.tsx:30-32 | a passing value keeps all its occurrences; a failing value keeps none |
| `Seqs.FilterAllPass` | src/App.tsx:67-71 | when every element passes, `filter` is the identity |
| `Seqs.FilterPosition` | src/App.tsx:67-71 | a passing element lands in the result right after the survivors before it |
| `Text.Decimal` | src/App.tsx:32 | a number's numeral is a non-empty string of digits |
| `Text.ZeroPad` | src/App.tsx:32 | zero padding gives digits, at least `width` long, that read back as the number |
| `Text.ParseDecimalDecimal` | src/App.tsx:32 | reading a numeral gives back its number |
| `Text.ParseLeadingZeros` | src/App.tsx:32 | leading zeros do not change a numeral's value |
| `Text.DecimalLength` | src/App.tsx:32 | a number below `10^k` has at most `k` digits |
| `Text.Split` | src/App.tsx:147 | `split` gives at least one piece, and no piece contains the separator |
| `Text.Join` | src/ArticleList.tsx:65 | `join`; no contract of its own; `Text.SplitJoinSubstitutes` and `Text.SplitJoinRoundTrip` give its meaning on the pieces of a `split` |
| `Text.Substitute` | src/App.tsx:147 | the reference for `split`/`join`: same length, each `from` becomes `to`, everything else is kept |
| `Text.SplitJoinSubstitutes` | src/App.tsx:147 | `split(from).join(to)` replaces every `from` by `to` and changes nothing else |
| `Text.SplitJoinRoundTrip` | src/App.tsx:147 | splitting and joining on the same separator gives back the string |
| `Dates.DaysInMonth` | src/CountryPicker.tsx:18 | a Gregorian month has 28 to 31 days |
| `Dates.IsAfter` | src/ArticleList.tsx:17 | `isAfter` on two midnights; no contract of its own; `Dates.IsAfterStrictTotalOrder` shows it is the strict chronological order of days |
| `Dates.IsAfterStrictTotalOrder` | src/App.tsx:33 | `isAfter` on days is irreflexive, asymmetric, transitive and total |
| `Dates.StartOfMonth` | src/App.tsx:34 | `startOfMonth` is the valid first day of the same month, not after the day |
| `Dates.PreviousDay` | src/App.tsx:34 | `subDays(·, 1)` is a valid day strictly before the given one |
| `Dates.PreviousDayIsImmediate` | src/App.tsx:34 | no valid day lies strictly between a day and its predecessor |
| `Dates.LastDayOfPreviousMonth` | src/CountryPicker.tsx:18 | the result is the last day of the month index one below the selected month |
| `Dates.LastDayOfPreviousMonthIgnoresDay` | src/CountryPicker.tsx:18 | the previous month depends on year and month only |
| `Dates.YearToken` | src/App.tsx:32 | `yyyy` writes at least four digits that read back as the era year: `y` for `y > 0`, `1 - y` otherwise |
| `Dates.TwoDigits` | src/App.tsx:32 | `MM`/`dd` write exactly two digits that read back as the number |
| `Dates.FormatMonth` | src/CountryPicker.tsx:19 | `yyyy/MM` is the year token, `/`, and two digits that read back as the month |
| `Dates.FormatDate` | src/ArticleList.tsx:18 | `yyyy/MM/dd` is the year token, `/`, two digits that read back as the month, `/`, and two that read back as the day |
| `Dates.YearTokenFourDigits` | src/App.tsx:32 | a year from 1 to 9999 is written as four digits of its own value |
| `Dates.YearTokenLongFromTenThousand` | src/ArticleList.tsx:18 | from year 10000 on, `yyyy` writes five digits or more |
| `Dates.YearZeroCollidesWithYearOne` | src/ArticleList.tsx:18 | year 0 and year 1 are both written `0001`, in `yyyy/MM/dd` and in `yyyy/MM` |
| `Dates.ParseFormatMonth` | src/CountryPicker.tsx:19 | a formatted month reads back as its year and month (years 1 to 9999) |
| `Dates.ParseFormatDate` | src/ArticleList.tsx:18 | a formatted day reads back as the day (years 1 to 9999) |
| `Dates.FormatDateInjective` | src/ArticleList.tsx:18 | two different days never share a `yyyy/MM/dd` string (years 1 to 9999) |
| `Dates.FormatMonthInjective` | src/CountryPicker.tsx:19 | two different months never share a `yyyy/MM` string (years 1 to 9999) |
| `Articles.MatchesNamespacePattern` | src/ArticleList.tsx:38 | `title.match(/\w+:[^_]/)` as a search; no contract of its own; `Articles.NamespacePatternIff` gives its meaning |
| `Articles.PatternAtFindsColon` | src/ArticleList.tsx:38 | a match of `\w+:[^_]` at `j` has a word char, `:`, non-`_` at some `i >= j` |
| `Articles.ColonIsFound` | src/ArticleList.tsx:38 | a word char, `:`, non-`_` at `i` makes the search match from any start up to `i` |
| `Articles.NamespacePatternIff` | src/ArticleList.tsx:38 | the regex matches iff some word char is followed by `:` and a non-`_` char |
| `Articles.ColonTitlesAreDropped` | src/ArticleList.tsx:38 | `Re:Zero` and `Talk:Main_Page` match the pattern; `Mission:_Impossible` does not |
| `Articles.IsListedTitle` | src/ArticleList.tsx:37-39 | the title filter; no contract of its own; `Articles.ListedTitlesAreArticles` and `Articles.NamespacePatternIff` give its meaning |
| `Articles.Flattened` | src/ArticleList.tsx:34-35 | the response's articles, group after group; no contract of its own; `Articles.FlattenedHasEveryGroup` gives its meaning |
| `Articles.Candidates` | src/ArticleList.tsx:34-40 | the flattened articles that pass the title filter; no contract of its own; `Articles.CandidatesAreExactlyTheListed` gives its meaning |
| `Articles.FilteredArticles` | src/ArticleList.tsx:32-43 | no data gives `[]`; otherwise a prefix of the filtered flatten of length `min(count, n)`; every entry passes the filter |
| `Articles.CandidatesAreExactlyTheListed` | src/ArticleList.tsx:34-40 | the filter keeps every passing article with all its occurrences, drops the rest, and keeps response order |
| `Articles.ListedTitlesAreArticles` | src/ArticleList.tsx:36-40 | no listed title has a word char, `:`, non-`_` anywhere, and none is `Main_Page` |
| `Articles.ListedArticleIsKeptUnlessTruncated` | src/ArticleList.tsx:32-42 | a passing article with fewer than `count` passing predecessors is in the list, right after them |
| `Articles.FlattenedHasEveryGroup` | src/ArticleList.tsx:34-35 | an article is in the flattened list iff it is in some response group |
| `Articles.CleanResponseIsTruncatedOnly` | src/__tests__/App.test.tsx:122-143 | when all titles pass, the list is the first `count` articles of the response |
| `Articles.DisplayName` | src/ArticleList.tsx:65 | the shown name has the title's length, no `_`, a space for each `_` and every other char unchanged |
| `Articles.RankedItems` | src/ArticleList.tsx:61-67 | ranks run 1..n in list order; each entry carries its title's display name and `views_ceil` |
| `Articles.InTheFuture` | src/ArticleList.tsx:17 | `inTheFuture`: the day is after the start of today; no contract of its own; `Articles.FutureDayIsNeverFetched` and `Articles.ArticleView` tie it to the disabled query and the notice |
| `Articles.ArticleQuery` | src/ArticleList.tsx:17-31 | no request iff the day is in the future; the key is `top-articles`, the country and a day string that reads back as the day (years 1 to 9999); the URL is built from them |
| `Articles.ArticleQueryKeysDiffer` | src/ArticleList.tsx:23 | a different country or day gives a different query key (years 1 to 9999) |
| `Articles.ArticleView` | src/ArticleList.tsx:45-72 | total priority: future, then loading, then 404 "Not found" or "Error: " + message, then the ranked list if non-empty, else "No results" |
| `Articles.FutureDayIsNeverFetched` | src/ArticleList.tsx:17-48 | the future notice is shown exactly when the query is disabled |
| `Articles.ListingIsBoundedAndRanked` | src/ArticleList.tsx:59-69 | a shown list has 1 to `count` entries, ranked from 1 to its length |
| `Countries.UpperPairFromIff` | src/CountryPicker.tsx:32 | the search from `start` succeeds iff two capitals stand side by side at some `i >= start` |
| `Countries.MatchesTwoCapitalsIff` | src/CountryPicker.tsx:32 | `/[A-Z][A-Z]/` matches iff two neighbouring capitals occur anywhere, unanchored |
| `Countries.MatchesTwoCapitals` | src/CountryPicker.tsx:32 | `code.match(/[A-Z][A-Z]/)` as a search; no contract of its own; `Countries.MatchesTwoCapitalsIff` gives its meaning |
| `Countries.CodesOf` | src/CountryPicker.tsx:31 | the group's codes, one per entry, in order |
| `Countries.CountryCodes` | src/CountryPicker.tsx:31 | every code of the response, group after group; no contract of its own; `Countries.CodesOf` and `Seqs.FlatMapMember` give its meaning |
| `Countries.CountryOptions` | src/CountryPicker.tsx:29-33 | without data exactly `[value]`; with data a subsequence of the codes holding every passing code with all its occurrences and no other |
| `Countries.CountryQuery` | src/CountryPicker.tsx:18-28 | key `["countries", m]` where `m` reads back as the previous month (years 1 to 9999); the URL ends with `m` |
| `Countries.CountryQueryPerMonth` | src/CountryPicker.tsx:18-21 | all days of one month share the same country request |
| `Countries.CountryQueryDiffersAcrossMonths` | src/CountryPicker.tsx:18-21 | days of different months ask for different country keys (years 2 to 9999) |
| `App.InitialSelection` | src/App.tsx:26-37 | the first state is count 100 (one of the options), country `US`, and the latest day before today |
| `App.AppQueries` | src/App.tsx:38-62 | the country key uses the month before the day; the article key uses country and day; no article request for a future day |
| `App.AppPage` | src/App.tsx:47-154 | the future notice iff the day is in the future; only `[country]` until countries load; a list has at most `articleCount` entries |
| `App.FutureNoticeIffNoArticleRequest` | src/App.tsx:33-61 | the page shows the future notice exactly when no article request is issued |
| `App.InitialRenderFetches` | src/App.tsx:29-61 | the first render fetches articles, does not show the future notice, and offers `US` while countries load |
| `App.ScenarioDay` | src/__tests__/App.test.tsx:50-55 | with today 2019-12-31 the first day is 2019-12-30, written `2019/12/30`, with previous month `2019/11` |
| `App.ScenarioRequests` | src/__tests__/App.test.tsx:52-66 | that render requests `.../top-per-country/US/all-access/2019/12/30` and `.../all-access/2019/11` |
| `App.ScenarioSingleArticle` | src/App.tsx:141-150 | the response `asdf`/123 shows exactly one entry: rank 1, `asdf`, 123 |
| `App.FailedRequestShowsItsMessage` | src/App.tsx:127-140 | on a day not in the future, a failure other than 404 shows "Error: " followed by its message, whatever the country query reports |
| `App.ScenarioServerError` | src/__tests__/App.test.tsx:72-81 | a 500 failure shows "Error: Request failed with status code 500" |
| `App.ScenarioFutureDay` | src/__tests__/App.test.tsx:108-120 | picking 2020-01-02 shows the future notice and requests no articles |
| `App.ScenarioCountries` | src/__tests__/App.test.tsx:45-47 | the country list `US`, `JP` is offered unchanged |

## Left out

- HTTP and the query cache (axios, react-query): request deduplication, refetching, and discarding stale results are library behaviour. A query's state is an input to the model: pending, failed with an optional status and a message, or fetched with data.
- Api.Data: react-query can keep the previous `data` beside an error after a background refetch fails. The model has no data in the failed state, so the country options fall back to `[value]` there.
- Dates: a day is a midnight (year, month, day). The time of day, time zones and the clock are not modelled, and "today" is a parameter. A picked date with a time after midnight on today's date would count as "in the future" in the source.
- Dates.ParseFormatDate, Dates.ParseFormatMonth and Articles.ArticleQuery: the round trip is stated for years 1 to 9999 only. From year 10000 on, `yyyy` writes five or more digits (`Dates.YearTokenLongFromTenThousand`). For years 0 and below it writes the era year `1 - y`, so year 0 and year 1 both give `0001` (`Dates.YearZeroCollidesWithYearOne`).
- FormatDateInjective: stated for years 1 to 9999 only. It fails for year 0 against year 1, which `yyyy` writes alike.
- FormatMonthInjective: stated for years 1 to 9999 only, for the same reason.
- ArticleQueryKeysDiffer: stated for days of years 1 to 9999 only, because it rests on the `yyyy/MM/dd` round trip.
- CountryQuery: the key's month is stated to read back as the previous month only when that month lies in years 1 to 9999.
- CountryQueryDiffersAcrossMonths: stated for days of years 2 to 9999 only, so that both previous months lie in years 1 to 9999.
- Text.Split: only a one-character separator is modelled, the only kind the source uses.
- Strings are sequences of Unicode scalar values, not UTF-16 code units. This does not change the result of either regular expression. It does change the length of a name that contains characters outside the Basic Multilingual Plane.
- React keys (`[article, views_ceil].join(":")`) are left out, because they only identify list items to React and are never displayed.
- The event handlers are left out because they are UI: the date picker's fallback to yesterday, `parseInt` of the count, and the country `onChange`.
- Also left out: JSX markup, CSS, the date-picker widget, the ISO country name lookup, `src/ArticleListItem.tsx` (it only displays its props) and the test harness.
