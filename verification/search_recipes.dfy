/**
 * The search recipes of src/searchExamples.js that do more than pass fixed
 * parameters through: the seasonal date strings, the recommendation
 * parameter object, paginated search, search statistics, the merged short
 * formats and the hidden-gems filter.
 *
 * None of these catch errors: a failed request, and `filterValidAnime`
 * applied to a missing `data`, both reject, modelled as `Failure`.
 */
module SearchRecipes {
  import opened Results
  import opened Text
  import opened JsValues
  import opened Seqs
  import opened Sorting
  import opened Catalog
  import opened Api

  /**
   * Stands for the TypeError that `.filter` throws when `data` is undefined.
   * Only the kind of error is modelled, not the engine's wording of it.
   */
  const MissingDataError := "TypeError"

  /** `filterValidAnime(results.data)`, which throws when `data` is missing. */
  function ValidData(results: Result<Page<Anime>>): (r: Result<seq<Anime>>)
    ensures r.Success? <==> results.Success? && results.value.data.Some?
    ensures r.Success? ==> r.value == FilterValid(results.value.data.value)
  {
    if results.Success? && results.value.data.Some? then Success(FilterValid(results.value.data.value))
    else Failure(if results.Failure? then results.error else MissingDataError)
  }

  // ---------------------------------------------------------------------------
  // getSeasonalAnime
  // ---------------------------------------------------------------------------

  /** `String(month).padStart(2, '0')`. */
  function MonthText(month: int): (s: string)
    ensures |s| >= 2
  {
    PadStart(IntToString(month), 2, '0')
  }

  /** `${year}-${MM}-`, the part both date strings share. */
  function DatePrefix(year: int, month: int): string
  {
    IntToString(year) + "-" + MonthText(month) + "-"
  }

  /** `${year}-${MM}-01`. */
  function StartDate(year: int, month: int): string
  {
    DatePrefix(year, month) + "01"
  }

  /** `${year}-${MM}-31`: the day is 31 whatever the month. */
  function EndDate(year: int, month: int): string
  {
    DatePrefix(year, month) + "31"
  }

  /**
   * A calendar month is written with exactly two digits that read back as
   * the month: single digits get one leading '0', 10 to 12 are unchanged.
   */
  lemma MonthTextRoundTrip(month: int)
    requires 1 <= month <= 12
    ensures |MonthText(month)| == 2 && AllDigits(MonthText(month))
    ensures ParseDigits(MonthText(month)) == month
    ensures month < 10 <==> MonthText(month)[0] == '0'
  {
    var d := IntToString(month);
    IntToStringRoundTrip(month);
    var m := MonthText(month);
    if month < 10 {
      assert |d| == 1;
      assert m == ['0'] + d;
      assert m[..|m| - 1] == ['0'];
      assert ParseDigits(['0']) == 0 by {
        assert ['0'][..0] == [];
      }
      assert ParseDigits(d) == DigitValue(d[0]) by {
        assert d[..0] == [];
      }
    } else {
      assert |d| == 2;
      assert m == d;
    }
  }

  /** A month text already two or more characters long is left as it is. */
  lemma LongMonthUnchanged(month: int)
    requires |IntToString(month)| >= 2
    ensures MonthText(month) == IntToString(month)
  {
  }

  /** A date string starts with the year and a dash. */
  lemma DateStartsWithYear(year: int, month: int)
    ensures StartsWith(StartDate(year, month), IntToString(year) + "-")
    ensures StartsWith(EndDate(year, month), IntToString(year) + "-")
  {
    var y := IntToString(year) + "-";
    var rest := MonthText(month) + "-";
    assert DatePrefix(year, month) == y + rest;
    assert StartsWith(StartDate(year, month), y) by {
      assert StartDate(year, month) == y + (rest + "01");
      assert (y + (rest + "01"))[..|y|] == y;
    }
    assert StartsWith(EndDate(year, month), y) by {
      assert EndDate(year, month) == y + (rest + "31");
      assert (y + (rest + "31"))[..|y|] == y;
    }
  }

  /** The start date is the first of the month. */
  lemma StartDateDay(year: int, month: int)
    ensures EndsWith(StartDate(year, month), "-01")
  {
    var p := DatePrefix(year, month);
    var s := StartDate(year, month);
    assert p[|p| - 1] == '-';
    assert s[|s| - 3..] == [p[|p| - 1]] + "01";
  }

  /** The end date is day 31, whatever the month's length. */
  lemma EndDateDay(year: int, month: int)
    ensures EndsWith(EndDate(year, month), "-31")
  {
    var p := DatePrefix(year, month);
    var s := EndDate(year, month);
    assert p[|p| - 1] == '-';
    assert s[|s| - 3..] == [p[|p| - 1]] + "31";
  }

  /** For one month the two strings differ only in the day. */
  lemma SameMonthDates(year: int, month: int)
    ensures StartDate(year, month)[..|StartDate(year, month)| - 2] == EndDate(year, month)[..|EndDate(year, month)| - 2]
  {
    var p := DatePrefix(year, month);
    assert StartDate(year, month)[..|p|] == p;
    assert EndDate(year, month)[..|p|] == p;
  }

  // ---------------------------------------------------------------------------
  // getRecommendations
  // ---------------------------------------------------------------------------

  /** A destructuring default: applies only when the property is `undefined`. */
  function ArgOr(args: Obj, k: string, default: JsVal): (v: JsVal)
    ensures k in args && args[k] != Undefined ==> v == args[k]
    ensures (k !in args || args[k] == Undefined) ==> v == default
  {
    if Get(args, k) == Undefined then default else Get(args, k)
  }

  /** `if (cond) params[k] = v`: one key set or nothing, every other key untouched. */
  function PutIf(p: Obj, k: string, cond: bool, v: JsVal): (q: Obj)
    ensures k in q <==> cond || k in p
    ensures cond ==> q[k] == v
    ensures forall j :: j != k ==> (j in q <==> j in p)
    ensures forall j :: j != k && j in p ==> q[j] == p[j]
    ensures q.Keys <= p.Keys + {k}
  {
    if cond then p[k := v] else p
  }

  /**
   * The `params` object: six keys always, then `genres`, `genres_exclude`,
   * `status` and `start_date` (the year as a string) when truthy.
   */
  function RecommendationParams(args: Obj): (p: Obj)
    ensures "min_score" in p && "type" in p && "order_by" in p && "sort" in p && "sfw" in p && "limit" in p
    ensures p["min_score"] == ArgOr(args, "minScore", Num(7)) && p["type"] == ArgOr(args, "type", Str("tv"))
    ensures p["order_by"] == Str("score") && p["sort"] == Str("desc") && p["sfw"] == Bool(true) && p["limit"] == Num(25)
  {
    var genres := ArgOr(args, "genres", Str(""));
    var exclude := ArgOr(args, "excludeGenres", Str(""));
    var status := ArgOr(args, "status", Str(""));
    var year := ArgOr(args, "year", Null);
    var fixed := map["min_score" := ArgOr(args, "minScore", Num(7)), "type" := ArgOr(args, "type", Str("tv")),
                     "order_by" := Str("score"), "sort" := Str("desc"), "sfw" := Bool(true), "limit" := Num(25)];
    var optional := PutIf(PutIf(PutIf(PutIf(map[], "genres", Truthy(genres), genres),
                                      "genres_exclude", Truthy(exclude), exclude),
                                "status", Truthy(status), status),
                          "start_date", Truthy(year), Str(ToStr(year)));
    optional + fixed
  }

  /** `genres_exclude` is present, with the argument's value, exactly when `excludeGenres` is truthy. */
  lemma RecommendationExcludeValue(args: Obj)
    ensures var x := ArgOr(args, "excludeGenres", Str(""));
            Get(RecommendationParams(args), "genres_exclude") == (if Truthy(x) then x else Undefined)
  {
  }

  /** `status` is present, with the argument's value, exactly when it is truthy. */
  lemma RecommendationStatusValue(args: Obj)
    ensures var st := ArgOr(args, "status", Str(""));
            Get(RecommendationParams(args), "status") == (if Truthy(st) then st else Undefined)
  {
  }

  /** `start_date` is present exactly when `year` is truthy, and holds the year as text. */
  lemma RecommendationStartDateValue(args: Obj)
    ensures var y := ArgOr(args, "year", Null);
            Get(RecommendationParams(args), "start_date") == (if Truthy(y) then Str(ToStr(y)) else Undefined)
  {
  }

  /** The parameter object has no key beyond the six fixed and the four optional ones. */
  lemma RecommendationKeySet(args: Obj)
    ensures RecommendationParams(args).Keys <=
              {"min_score", "type", "order_by", "sort", "sfw", "limit", "genres", "genres_exclude", "status", "start_date"}
  {
  }

  /** What searchAnime sends for a recommendation: always `sfw=true`, score order, descending, no `q`. */
  lemma RecommendationFixedQuery(args: Obj)
    ensures var q := SearchAnimeQuery("", RecommendationParams(args));
            Lookup(q, "sfw") == Some("true") && Lookup(q, "sort") == Some("desc") &&
            Lookup(q, "order_by") == Some("score") && Lookup(q, "q") == None
  {
    var p := RecommendationParams(args);
    SearchAnimeTextAndSfw("", p);
    SearchAnimeFilterParam("", p, "sort");
    SearchAnimeFilterParam("", p, "order_by");
  }

  /** The optional genre filter reaches the query exactly when given truthy. */
  lemma RecommendationGenres(args: Obj)
    ensures var g := ArgOr(args, "genres", Str(""));
            Lookup(SearchAnimeQuery("", RecommendationParams(args)), "genres") ==
              (if Truthy(g) then Some(ToStr(g)) else None)
  {
    RecommendationGenresValue(args);
    SearchAnimeFilterParam("", RecommendationParams(args), "genres");
  }

  /** The parameter object carries `genres` as given when truthy and leaves it out otherwise. */
  lemma RecommendationGenresValue(args: Obj)
    ensures var g := ArgOr(args, "genres", Str(""));
            Get(RecommendationParams(args), "genres") == (if Truthy(g) then g else Undefined)
  {
  }

  /**
   * The minimum score is sent as given (7 by default), except that a
   * `minScore` passed as 0 is dropped by searchAnime even though the
   * parameter object has it.
   */
  lemma RecommendationMinScore(args: Obj)
    ensures var m := ArgOr(args, "minScore", Num(7));
            Lookup(SearchAnimeQuery("", RecommendationParams(args)), "min_score") ==
              (if Truthy(m) then Some(ToStr(m)) else None)
  {
    SearchAnimeFilterParam("", RecommendationParams(args), "min_score");
  }

  /**
   * `getRecommendations`: the sanitised results of that search; a failed
   * request, or a response without `data`, rejects.
   */
  function Recommendations(args: Obj, results: Result<Page<Anime>>): (r: Result<seq<Anime>>)
    ensures r.Success? <==> results.Success? && results.value.data.Some?
    ensures r.Success? ==> r.value == FilterValid(results.value.data.value)
    ensures results.Failure? ==> r == Failure(results.error)
    ensures results.Success? && results.value.data.None? ==> r == Failure(MissingDataError)
    ensures r.Success? ==> forall i :: 0 <= i < |r.value| ==> IsValid(r.value[i])
  {
    ValidData(results)
  }

  // ---------------------------------------------------------------------------
  // searchWithPagination and getSearchStats
  // ---------------------------------------------------------------------------

  /** `{...filters, page, limit}` with the defaults page 1 and limit 25. */
  function PaginationParams(filters: Obj, page: JsVal, limit: JsVal): (p: Obj)
    ensures Get(p, "page") == (if page == Undefined then Num(1) else page)
    ensures Get(p, "limit") == (if limit == Undefined then Num(25) else limit)
    ensures forall k :: k != "page" && k != "limit" ==> Get(p, k) == Get(filters, k)
  {
    Spread(filters, map["page" := (if page == Undefined then Num(1) else page),
                        "limit" := (if limit == Undefined then Num(25) else limit)])
  }

  /** `searchWithPagination`'s result: sanitised data, pagination passed through untouched. */
  function SearchWithPagination(results: Result<Page<Anime>>): (r: Result<Page<Anime>>)
    ensures r.Success? <==> results.Success? && results.value.data.Some?
    ensures r.Success? ==> r.value.pagination == results.value.pagination
    ensures r.Success? ==> r.value.data == Some(FilterValid(results.value.data.value))
  {
    var d :- ValidData(results);
    Success(Page(Some(d), results.value.pagination))
  }

  /**
   * Paging through a search and concatenating the pages shows the same
   * entries as sanitising the concatenated responses at once, and each
   * page's `pagination` is handed back untouched.
   */
  lemma PaginatedPagesConcat(first: Page<Anime>, second: Page<Anime>)
    requires first.data.Some? && second.data.Some?
    ensures var a := SearchWithPagination(Success(first));
            var b := SearchWithPagination(Success(second));
            a.Success? && b.Success? &&
            a.value.data.value + b.value.data.value == FilterValid(first.data.value + second.data.value) &&
            a.value.pagination == first.pagination && b.value.pagination == second.pagination
  {
    FilterValidConcat(first.data.value, second.data.value);
  }

  /** Sanitising a paginated result again changes nothing: the result is already clean. */
  lemma PaginationIdempotent(results: Result<Page<Anime>>)
    requires SearchWithPagination(results).Success?
    ensures SearchWithPagination(SearchWithPagination(results)) == SearchWithPagination(results)
  {
    FilterValidIdempotent(results.value.data.value);
  }

  /** `{...filters, limit: 1}`: only the first result is asked for. */
  function StatsParams(filters: Obj): (p: Obj)
    ensures Get(p, "limit") == Num(1)
    ensures forall k :: k != "limit" ==> Get(p, k) == Get(filters, k)
  {
    Spread(filters, map["limit" := Num(1)])
  }

  datatype SearchStats = SearchStats(total: int, lastPage: int)

  /** `getSearchStats`: the total and the last page, each 0 when absent; `data` is not read. */
  function GetSearchStats(results: Result<Page<Anime>>): (r: Result<SearchStats>)
    ensures r.Success? <==> results.Success?
    ensures r.Success? && results.value.pagination.None? ==> r.value == SearchStats(0, 0)
    ensures r.Success? && results.value.pagination.Some? ==>
              r.value.total == results.value.pagination.value.itemsTotal.GetOr(0) &&
              r.value.lastPage == results.value.pagination.value.lastVisiblePage.GetOr(0)
  {
    if results.Failure? then Failure(results.error)
    else
      var pg := results.value.pagination;
      if pg.None? then Success(SearchStats(0, 0))
      else Success(SearchStats(pg.value.itemsTotal.GetOr(0), pg.value.lastVisiblePage.GetOr(0)))
  }

  /**
   * The stats read only `pagination`: two responses that differ in their
   * `data` alone (present, missing, or a different page of entries) give
   * the same stats, and a failed request rejects with its error.
   */
  lemma StatsIgnoreData(results: Result<Page<Anime>>, data: Option<seq<Anime>>)
    ensures results.Success? ==>
              GetSearchStats(Success(results.value.(data := data))) == GetSearchStats(results)
    ensures results.Failure? ==> GetSearchStats(results) == Failure(results.error)
  {
  }

  /**
   * `getSearchStats` end to end: whatever `limit` the caller's filters
   * hold, one result is asked for, and the total comes from the response's
   * pagination alone (0 when it is missing).
   */
  lemma StatsRequestAndResult(query: string, filters: Obj, p: Page<Anime>)
    ensures Lookup(SearchAnimeQuery(query, StatsParams(filters)), "limit") == Some("1")
    ensures GetSearchStats(Success(p)).Success?
    ensures GetSearchStats(Success(p)).value.total ==
              (if p.pagination.Some? then p.pagination.value.itemsTotal.GetOr(0) else 0)
  {
    StatsLimitForced(query, filters);
  }

  /** Whatever the caller's filters, the stats request asks for exactly one item per page. */
  lemma StatsLimitForced(query: string, filters: Obj)
    ensures Lookup(SearchAnimeQuery(query, StatsParams(filters)), "limit") == Some("1")
    ensures Lookup(SearchAnimeQuery(query, StatsParams(filters)), "page") == TruthyValue(filters, "page")
  {
    var o := StatsParams(filters);
    SearchAnimeFilterParam(query, o, "limit");
    SearchAnimeFilterParam(query, o, "page");
    assert TruthyValue(o, "limit") == Some("1") by {
      assert Get(o, "limit") == Num(1);
      assert NatToString(1) == [DigitChar(1)];
    }
    assert TruthyValue(o, "page") == TruthyValue(filters, "page") by {
      assert Get(o, "page") == Get(filters, "page");
    }
  }

  // ---------------------------------------------------------------------------
  // getShortAnime and getHiddenGems
  // ---------------------------------------------------------------------------

  /** The sort key of `b.score - a.score`: a `null` score takes part as 0, and a missing one is read the same way. */
  function Score(a: Anime): int { if a.score.Some? then a.score.value else 0 }

  /**
   * `getShortAnime`: the sanitised OVA, special and ONA results merged and
   * sorted by score, highest first. The three requests are awaited in
   * turn, so the first failed one rejects the whole with its error; when
   * all three arrive, a response without `data` rejects with the TypeError.
   */
  function ShortAnime(ova: Result<Page<Anime>>, special: Result<Page<Anime>>, ona: Result<Page<Anime>>): (r: Result<seq<Anime>>)
    ensures r.Success? <==> ValidData(ova).Success? && ValidData(special).Success? && ValidData(ona).Success?
    ensures r.Success? ==>
              multiset(r.value) == multiset(ValidData(ova).value + ValidData(special).value + ValidData(ona).value)
    ensures r.Success? ==> NonIncreasing(Score, r.value)
    ensures r.Success? ==> forall i :: 0 <= i < |r.value| ==> IsValid(r.value[i])
    ensures ova.Failure? ==> r == Failure(ova.error)
    ensures ova.Success? && special.Failure? ==> r == Failure(special.error)
    ensures ova.Success? && special.Success? && ona.Failure? ==> r == Failure(ona.error)
    ensures ova.Success? && special.Success? && ona.Success? && r.Failure? ==> r == Failure(MissingDataError)
  {
    if ova.Failure? then Failure(ova.error)
    else if special.Failure? then Failure(special.error)
    else if ona.Failure? then Failure(ona.error)
    else if ValidData(ova).Success? && ValidData(special).Success? && ValidData(ona).Success? then
      var all := ValidData(ova).value + ValidData(special).value + ValidData(ona).value;
      var sorted := SortDesc(Score, all);
      assert forall i :: 0 <= i < |sorted| ==> sorted[i] in multiset(all);
      Success(sorted)
    else Failure(MissingDataError)
  }

  /** Entries of equal score keep their merged order: OVA before special before ONA. */
  lemma ShortAnimeStable(ova: Result<Page<Anime>>, special: Result<Page<Anime>>, ona: Result<Page<Anime>>, k: int)
    requires ova.Success? && ova.value.data.Some? && special.Success? && special.value.data.Some?
    requires ona.Success? && ona.value.data.Some?
    ensures WithKey(Score, ShortAnime(ova, special, ona).value, k) ==
              WithKey(Score, ValidData(ova).value + ValidData(special).value + ValidData(ona).value, k)
  {
    SortStable(Score, ValidData(ova).value + ValidData(special).value + ValidData(ona).value, k);
  }

  /** `anime.members < 100000`: an entry without `members` compares as false and is dropped. */
  predicate LessKnown(a: Anime) { a.members.Some? && a.members.value < 100000 }

  /** `getHiddenGems`: the sanitised results with fewer than 100000 members, in order. */
  function HiddenGems(results: Result<Page<Anime>>): (r: Result<seq<Anime>>)
    ensures r.Success? <==> results.Success? && results.value.data.Some?
    ensures r.Success? ==> forall i :: 0 <= i < |r.value| ==>
              IsValid(r.value[i]) && r.value[i].members.Some? && r.value[i].members.value < 100000
  {
    var valid :- ValidData(results);
    Success(Filter(LessKnown, valid))
  }

  /** The two filters select exactly the valid, less-known entries of the response, keeping their order. */
  lemma HiddenGemsSelects(results: Result<Page<Anime>>)
    requires HiddenGems(results).Success?
    ensures IsSubsequence(HiddenGems(results).value, results.value.data.value)
    ensures forall a :: a in HiddenGems(results).value <==>
              a in results.value.data.value && IsValid(a) && a.members.Some? && a.members.value < 100000
  {
    var xs := results.value.data.value;
    FilterValidSelects(xs);
    FilterIsSubsequence(LessKnown, FilterValid(xs));
    SubsequenceTrans(Filter(LessKnown, FilterValid(xs)), FilterValid(xs), xs);
  }
}
