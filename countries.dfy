/**
 * The country selector (the `CountryPicker` component, which `App` repeats
 * inline): the month whose country list is requested, and the options
 * offered from that list.
 */
module Countries {
  import opened Wrappers
  import opened Seqs
  import opened Dates
  import opened Api

  /** `[A-Z]`: an ASCII capital letter. */
  predicate IsUpper(c: char)
  {
    'A' <= c <= 'Z'
  }

  /** The unanchored search for `[A-Z][A-Z]` from position `start` on. */
  predicate UpperPairFrom(s: string, start: nat)
    decreases |s| - start
  {
    start + 1 < |s| && ((IsUpper(s[start]) && IsUpper(s[start + 1])) || UpperPairFrom(s, start + 1))
  }

  /** `code.match(/[A-Z][A-Z]/)` is non-null. */
  predicate MatchesTwoCapitals(code: string)
  {
    UpperPairFrom(code, 0)
  }

  lemma {:induction false} UpperPairFromIff(s: string, start: nat)
    ensures UpperPairFrom(s, start) <==>
      exists i :: start <= i && i + 1 < |s| && IsUpper(s[i]) && IsUpper(s[i + 1])
    decreases |s| - start
  {
    if start + 1 < |s| {
      UpperPairFromIff(s, start + 1);
      if exists i :: start <= i && i + 1 < |s| && IsUpper(s[i]) && IsUpper(s[i + 1]) {
        var i :| start <= i && i + 1 < |s| && IsUpper(s[i]) && IsUpper(s[i + 1]);
        assert i == start || (start + 1 <= i && i + 1 < |s| && IsUpper(s[i]) && IsUpper(s[i + 1]));
      }
    }
  }

  /**
   * The filter keeps a code exactly when two capital letters stand next to
   * each other somewhere in it; the pattern is not anchored, so a longer code
   * such as `USA` or `xUSy` passes too.
   */
  lemma MatchesTwoCapitalsIff(code: string)
    ensures MatchesTwoCapitals(code) <==>
      exists i :: 0 <= i && i + 1 < |code| && IsUpper(code[i]) && IsUpper(code[i + 1])
  {
    UpperPairFromIff(code, 0);
  }

  /** `item.countries.map((c) => c.country)`. */
  function CodesOf(g: CountryGroup): (codes: seq<string>)
    ensures |codes| == |g.countries|
    ensures forall i :: 0 <= i < |codes| ==> codes[i] == g.countries[i].country
  {
    seq(|g.countries|, i requires 0 <= i < |g.countries| => g.countries[i].country)
  }

  /** Every country code of the response, in response order. */
  function CountryCodes(data: CountryListResponse): (r: seq<string>)
  {
    FlatMap(data.items, CodesOf)
  }

  /**
   * `countries`: while the query has no data (loading or failed) only the
   * selected code `value`; otherwise the response's codes, in order, that
   * contain two neighbouring capitals. The filter only deletes: every code
   * that passes keeps all of its occurrences, and none is added or moved.
   */
  function CountryOptions(value: string, q: Fetch<CountryListResponse>): (r: seq<string>)
    ensures !q.Fetched? ==> r == [value]
    ensures q.Fetched? ==> IsSubsequence(r, CountryCodes(q.data))
    ensures q.Fetched? ==> forall i :: 0 <= i < |r| ==> MatchesTwoCapitals(r[i])
    ensures q.Fetched? ==> forall c ::
                             multiset(r)[c] == if MatchesTwoCapitals(c) then multiset(CountryCodes(q.data))[c] else 0
  {
    match Data(q)
    case None => [value]
    case Some(data) =>
      var codes := CountryCodes(data);
      FilterIsSubsequence(MatchesTwoCapitals, codes);
      assert forall c ::
               multiset(Filter(MatchesTwoCapitals, codes))[c] == if MatchesTwoCapitals(c) then multiset(codes)[c] else 0 by {
        forall c {
          FilterMultiset(MatchesTwoCapitals, codes, c);
        }
      }
      Filter(MatchesTwoCapitals, codes)
  }

  /**
   * The country query: keyed by `["countries", yyyy/MM]` for the calendar
   * month before `date` — `(y, m - 1)`, or `(y - 1, 12)` in January — and
   * fetching `top-by-country/all-projects/all-access/{yyyy/MM}`.
   */
  function CountryQuery(date: Date): (r: Request)
    requires Valid(date)
    ensures |r.key| == 2 && r.key[0] == "countries"
    ensures var prev := if date.month == 1 then (date.year - 1, 12) else (date.year, date.month - 1);
      1 <= prev.0 <= 9999 ==> ParseMonth(r.key[1]) == Some(prev)
    ensures r.url == ApiBaseUrl + "/top-by-country/all-projects/all-access/" + r.key[1]
  {
    var lastMonth := LastDayOfPreviousMonth(date);
    var formattedMonth := FormatMonth(lastMonth);
    ParseFormatMonth(lastMonth);
    Request(["countries", formattedMonth],
            ApiBaseUrl + "/top-by-country/all-projects/all-access/" + formattedMonth)
  }

  /**
   * All days of one month share one country query, so the list is fetched
   * once per month; the key depends on the year and month only.
   */
  lemma CountryQueryPerMonth(d1: Date, d2: Date)
    requires Valid(d1) && Valid(d2) && d1.year == d2.year && d1.month == d2.month
    ensures CountryQuery(d1) == CountryQuery(d2)
  {
    LastDayOfPreviousMonthIgnoresDay(d1, d2);
  }

  /** Days of different months (years 2 to 9999) ask for different country lists. */
  lemma CountryQueryDiffersAcrossMonths(d1: Date, d2: Date)
    requires Valid(d1) && 2 <= d1.year <= 9999 && Valid(d2) && 2 <= d2.year <= 9999
    requires d1.year != d2.year || d1.month != d2.month
    ensures CountryQuery(d1).key != CountryQuery(d2).key
  {
  }
}
