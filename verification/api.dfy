/**
 * The catalogue client of src/api.js: for every endpoint, the ordered query
 * parameters it derives from a sparse parameter object, the URL it requests,
 * and the rule turning a non-ok HTTP response into an error.
 *
 * Each endpoint's builder is a run of `if (...) queryParams.append(k, ...)`
 * lines; the model writes that run as a list of rules, one per line, in
 * source order. Percent-encoding by URLSearchParams is not modelled: a query
 * is the ordered list of (key, value) pairs, serialised as `k=v` joined by `&`.
 */
module Api {
  import opened Results
  import opened Text
  import opened JsValues
  import opened Seqs

  const ApiBase: string := "https://api.jikan.moe/v4"

  type Query = seq<(string, string)>

  function Keys(q: Query): seq<string>
    decreases |q|
  {
    if q == [] then [] else [q[0].0] + Keys(q[1..])
  }

  /** The value of the first pair with key `k`. */
  function Lookup(q: Query, k: string): Option<string>
    decreases |q|
  {
    if q == [] then None else if q[0].0 == k then Some(q[0].1) else Lookup(q[1..], k)
  }

  lemma {:induction false} LookupConcat(a: Query, b: Query, k: string)
    ensures Lookup(a + b, k) == if Lookup(a, k).Some? then Lookup(a, k) else Lookup(b, k)
    decreases |a|
  {
    if a != [] {
      assert (a + b)[1..] == a[1..] + b;
      LookupConcat(a[1..], b, k);
    } else {
      assert a + b == b;
    }
  }

  // ---------------------------------------------------------------------------
  // Rules: one per `if (...) queryParams.append(...)` line
  // ---------------------------------------------------------------------------

  datatype Rule =
    | IfTruthy(key: string)       // if (params.k) append(k, params.k)
    | IfDefined(key: string)      // if (params.k !== undefined) append(k, params.k)
    | FlagIfDefined(key: string)  // if (params.k !== undefined) append(k, '')
    | FlagIfTruthy(key: string)   // if (params.k) append(k, '')

  /** The value a key gets under the truthiness test, or None when the key is skipped. */
  function TruthyValue(o: Obj, k: string): Option<string>
  {
    if Truthy(Get(o, k)) then Some(ToStr(Get(o, k))) else None
  }

  function DefinedValue(o: Obj, k: string): Option<string>
  {
    if Defined(Get(o, k)) then Some(ToStr(Get(o, k))) else None
  }

  function DefinedFlag(o: Obj, k: string): Option<string>
  {
    if Defined(Get(o, k)) then Some("") else None
  }

  function TruthyFlag(o: Obj, k: string): Option<string>
  {
    if Truthy(Get(o, k)) then Some("") else None
  }

  function RuleValue(r: Rule, o: Obj): Option<string>
  {
    match r
    case IfTruthy(k) => TruthyValue(o, k)
    case IfDefined(k) => DefinedValue(o, k)
    case FlagIfDefined(k) => DefinedFlag(o, k)
    case FlagIfTruthy(k) => TruthyFlag(o, k)
  }

  function RuleKeys(rules: seq<Rule>): (ks: seq<string>)
    ensures |ks| == |rules| && forall i :: 0 <= i < |rules| ==> ks[i] == rules[i].key
  {
    seq(|rules|, i requires 0 <= i < |rules| => rules[i].key)
  }

  /** No rule other than the `i`-th one uses its key. */
  predicate KeyUnique(rules: seq<Rule>, i: int)
    requires 0 <= i < |rules|
  {
    forall j :: 0 <= j < |rules| && j != i ==> rules[j].key != rules[i].key
  }

  predicate DistinctKeys(rules: seq<Rule>)
  {
    forall i :: 0 <= i < |rules| ==> KeyUnique(rules, i)
  }

  /** Runs the rules in order, appending one pair for every rule that fires. */
  function Build(rules: seq<Rule>, o: Obj): (q: Query)
    ensures |q| <= |rules|
    decreases |rules|
  {
    if rules == [] then []
    else
      var here := RuleValue(rules[0], o);
      (if here.Some? then [(rules[0].key, here.value)] else []) + Build(rules[1..], o)
  }

  /** The emitted keys follow the rules' order: a query never reorders or invents keys. */
  lemma {:induction false} BuildKeysInOrder(rules: seq<Rule>, o: Obj)
    ensures IsSubsequence(Keys(Build(rules, o)), RuleKeys(rules))
    decreases |rules|
  {
    if rules != [] {
      BuildKeysInOrder(rules[1..], o);
      var rest := Build(rules[1..], o);
      var here := RuleValue(rules[0], o);
      assert RuleKeys(rules)[1..] == RuleKeys(rules[1..]);
      if here.Some? {
        var q := [(rules[0].key, here.value)] + rest;
        assert q[1..] == rest;
      } else {
        assert Build(rules, o) == rest;
      }
    }
  }

  lemma {:induction false} BuildLookupAbsent(rules: seq<Rule>, o: Obj, k: string)
    requires forall i :: 0 <= i < |rules| ==> rules[i].key != k
    ensures Lookup(Build(rules, o), k) == None
    decreases |rules|
  {
    if rules != [] {
      BuildLookupAbsent(rules[1..], o, k);
      var rest := Build(rules[1..], o);
      if RuleValue(rules[0], o).Some? {
        assert ([(rules[0].key, RuleValue(rules[0], o).value)] + rest)[1..] == rest;
      } else {
        assert Build(rules, o) == rest;
      }
    }
  }

  /** A rule whose key no other rule uses reads back exactly the value that rule decides. */
  lemma {:induction false} BuildLookup(rules: seq<Rule>, o: Obj, i: int)
    requires 0 <= i < |rules| && KeyUnique(rules, i)
    ensures Lookup(Build(rules, o), rules[i].key) == RuleValue(rules[i], o)
    decreases |rules|
  {
    var rest := Build(rules[1..], o);
    var here := RuleValue(rules[0], o);
    if here.Some? {
      assert ([(rules[0].key, here.value)] + rest)[1..] == rest;
    } else {
      assert Build(rules, o) == rest;
    }
    if i == 0 {
      forall j | 0 <= j < |rules[1..]| ensures rules[1..][j].key != rules[0].key {
        assert rules[1..][j] == rules[j + 1];
      }
      BuildLookupAbsent(rules[1..], o, rules[0].key);
    } else {
      forall j | 0 <= j < |rules[1..]| && j != i - 1 ensures rules[1..][j].key != rules[1..][i - 1].key {
        assert rules[1..][j] == rules[j + 1];
      }
      BuildLookup(rules[1..], o, i - 1);
    }
  }

  /**
   * A query made of the optional `q` pair followed by rule-built pairs reads
   * back `q` as the search text and every rule's own value.
   */
  lemma QueryWithSearchText(query: string, rules: seq<Rule>, o: Obj)
    requires DistinctKeys(rules)
    requires forall i :: 0 <= i < |rules| ==> rules[i].key != "q"
    ensures Lookup(QParam(query) + Build(rules, o), "q") == (if query != "" then Some(query) else None)
    ensures forall i :: 0 <= i < |rules| ==> Lookup(QParam(query) + Build(rules, o), rules[i].key) == RuleValue(rules[i], o)
    ensures IsSubsequence(Keys(QParam(query) + Build(rules, o)), ["q"] + RuleKeys(rules))
  {
    var b := Build(rules, o);
    BuildLookupAll(rules, o);
    BuildLookupAbsent(rules, o, "q");
    LookupConcat(QParam(query), b, "q");
    forall i | 0 <= i < |rules| ensures Lookup(QParam(query) + b, rules[i].key) == Lookup(b, rules[i].key) {
      LookupConcat(QParam(query), b, rules[i].key);
    }
    BuildKeysInOrder(rules, o);
    QParamFirst(query, b, RuleKeys(rules));
  }

  /** The optional `q` pair goes first, ahead of the rule-built pairs. */
  lemma QParamFirst(query: string, b: Query, ks: seq<string>)
    requires IsSubsequence(Keys(b), ks)
    ensures IsSubsequence(Keys(QParam(query) + b), ["q"] + ks)
  {
    if query != "" {
      var q := QParam(query) + b;
      assert q[1..] == b;
      assert Keys(q) == ["q"] + Keys(b);
      assert (["q"] + Keys(b))[1..] == Keys(b);
      assert (["q"] + ks)[1..] == ks;
    } else {
      assert QParam(query) + b == b;
      assert (["q"] + ks)[1..] == ks;
    }
  }

  // ---------------------------------------------------------------------------
  // Serialisation and URLs
  // ---------------------------------------------------------------------------

  /** `queryParams.toString()` without percent-encoding. */
  function Serialize(q: Query): (s: string)
    ensures s == "" <==> q == []
    decreases |q|
  {
    if q == [] then ""
    else if |q| == 1 then q[0].0 + "=" + q[0].1
    else q[0].0 + "=" + q[0].1 + "&" + Serialize(q[1..])
  }

  /** One serialised pair, `key=value`. */
  function PairText(kv: (string, string)): string
  {
    kv.0 + "=" + kv.1
  }

  /** The serialised query is its pairs' `key=value` texts joined by `&`, in query order. */
  lemma {:induction false} SerializeIsJoin(q: Query)
    requires q != []
    ensures Serialize(q) == Join(Map(PairText, q), '&')
    decreases |q|
  {
    if |q| > 1 {
      SerializeIsJoin(q[1..]);
      assert Map(PairText, q)[1..] == Map(PairText, q[1..]);
    }
  }

  /**
   * The reading `new URLSearchParams(s)` gives an unencoded query string:
   * `&` separates the pairs, the first `=` of a pair ends its key, and a
   * pair without `=` has the empty value.
   */
  function ParsePair(field: string): (kv: (string, string))
    ensures '=' !in kv.0
  {
    var parts := Split(field, '=');
    (parts[0], if |parts| == 1 then "" else Join(parts[1..], '='))
  }

  function ParseQuery(s: string): (q: Query)
    ensures s == "" ==> q == []
  {
    if s == "" then [] else Map(ParsePair, Split(s, '&'))
  }

  /** A pair whose key has no `=` reads back from its text; the value may contain `=`. */
  lemma ParsePairText(kv: (string, string))
    requires '=' !in kv.0
    ensures ParsePair(PairText(kv)) == kv
  {
    SplitConcatSep(kv.0, kv.1, '=');
    JoinSplit(kv.1, '=');
  }

  /**
   * Serialising loses nothing: reading the string back gives every pair,
   * in order, as long as no key or value holds `&` and no key holds `=`
   * (characters percent-encoding would otherwise escape).
   */
  lemma ParseSerialize(q: Query)
    requires forall i :: 0 <= i < |q| ==> '&' !in q[i].0 && '&' !in q[i].1 && '=' !in q[i].0
    ensures ParseQuery(Serialize(q)) == q
  {
    if q != [] {
      SerializeIsJoin(q);
      var texts := Map(PairText, q);
      forall k | 0 <= k < |texts| ensures '&' !in texts[k] {
        assert texts[k] == q[k].0 + "=" + q[k].1;
      }
      SplitJoin(texts, '&');
      forall k | 0 <= k < |q| ensures ParsePair(texts[k]) == q[k] {
        ParsePairText(q[k]);
      }
    }
  }

  /** `${path}${qs ? '?' + qs : ''}`: the top, season, genre and top-character endpoints. */
  function WithOptionalQuery(path: string, q: Query): string
  {
    var qs := Serialize(q);
    if qs != "" then path + "?" + qs else path
  }

  /** `${path}?${qs}`: the anime search, character search and schedule endpoints. */
  function WithQuery(path: string, q: Query): string
  {
    path + "?" + Serialize(q)
  }

  /** A URL with an optional query has a `?` exactly when some parameter was emitted. */
  lemma OptionalQueryShape(path: string, q: Query)
    ensures q == [] ==> WithOptionalQuery(path, q) == path
    ensures q != [] ==> WithOptionalQuery(path, q) == path + "?" + Serialize(q) && Serialize(q) != ""
  {
  }

  /** A URL with an unconditional query always carries the `?`, dangling when nothing follows. */
  lemma AlwaysQueryShape(path: string, q: Query)
    ensures StartsWith(WithQuery(path, q), path + "?")
    ensures q == [] ==> WithQuery(path, q) == path + "?"
  {
  }

  // ---------------------------------------------------------------------------
  // The endpoints
  // ---------------------------------------------------------------------------

  /** `if (query) queryParams.append('q', query)`. */
  function QParam(query: string): Query
  {
    if query != "" then [("q", query)] else []
  }

  const TopAnimeRules: seq<Rule> :=
    [IfTruthy("type"), IfTruthy("filter"), IfTruthy("rating"), IfDefined("sfw"),
     IfTruthy("page"), IfTruthy("limit")]

  const SearchAnimeRules: seq<Rule> :=
    [FlagIfDefined("unapproved"), IfDefined("sfw"),
     IfTruthy("page"), IfTruthy("limit"),
     IfTruthy("type"), IfTruthy("status"), IfTruthy("rating"),
     IfTruthy("score"), IfTruthy("min_score"), IfTruthy("max_score"),
     IfTruthy("genres"), IfTruthy("genres_exclude"),
     IfTruthy("order_by"), IfTruthy("sort"),
     IfTruthy("letter"), IfTruthy("producers"), IfTruthy("start_date"), IfTruthy("end_date")]

  /** Shared by getSeasonalAnime, getCurrentSeason and getSeasonUpcoming. */
  const SeasonRules: seq<Rule> :=
    [IfTruthy("filter"), FlagIfDefined("sfw"), FlagIfDefined("unapproved"), FlagIfDefined("continuing"),
     IfTruthy("page"), IfTruthy("limit")]

  const CharacterSearchRules: seq<Rule> :=
    [IfTruthy("page"), IfTruthy("limit"), IfTruthy("order_by"), IfTruthy("sort"), IfTruthy("letter")]

  const TopCharactersRules: seq<Rule> := [IfTruthy("page"), IfTruthy("limit")]

  const GenresRules: seq<Rule> := [IfTruthy("filter")]

  const ScheduleRules: seq<Rule> :=
    [IfTruthy("filter"), IfDefined("kids"), IfDefined("sfw"), FlagIfTruthy("unapproved"),
     IfTruthy("page"), IfTruthy("limit")]

  function TopAnimeQuery(o: Obj): Query { Build(TopAnimeRules, o) }

  function SearchAnimeQuery(query: string, o: Obj): Query { QParam(query) + Build(SearchAnimeRules, o) }

  function SeasonQuery(o: Obj): Query { Build(SeasonRules, o) }

  function CharacterSearchQuery(query: string, o: Obj): Query { QParam(query) + Build(CharacterSearchRules, o) }

  function TopCharactersQuery(o: Obj): Query { Build(TopCharactersRules, o) }

  function GenresQuery(o: Obj): Query { Build(GenresRules, o) }

  function ScheduleQuery(o: Obj): Query { Build(ScheduleRules, o) }

  function TopAnimeUrl(o: Obj): string { WithOptionalQuery(ApiBase + "/top/anime", TopAnimeQuery(o)) }

  function SearchAnimeUrl(query: string, o: Obj): string { WithQuery(ApiBase + "/anime", SearchAnimeQuery(query, o)) }

  function AnimeByIdUrl(id: JsVal): string { ApiBase + "/anime/" + ToStr(id) }

  function AnimeFullUrl(id: JsVal): string { ApiBase + "/anime/" + ToStr(id) + "/full" }

  function SeasonalUrl(year: JsVal, season: JsVal, o: Obj): string
  {
    WithOptionalQuery(ApiBase + "/seasons/" + ToStr(year) + "/" + ToStr(season), SeasonQuery(o))
  }

  function CurrentSeasonUrl(o: Obj): string { WithOptionalQuery(ApiBase + "/seasons/now", SeasonQuery(o)) }

  function SeasonsListUrl(): string { ApiBase + "/seasons" }

  function UpcomingSeasonUrl(o: Obj): string { WithOptionalQuery(ApiBase + "/seasons/upcoming", SeasonQuery(o)) }

  function CharacterAnimeUrl(id: JsVal): string { ApiBase + "/characters/" + ToStr(id) + "/anime" }

  function CharacterByIdUrl(id: JsVal): string { ApiBase + "/characters/" + ToStr(id) }

  function CharacterFullUrl(id: JsVal): string { ApiBase + "/characters/" + ToStr(id) + "/full" }

  function CharacterVoicesUrl(id: JsVal): string { ApiBase + "/characters/" + ToStr(id) + "/voices" }

  function CharacterPicturesUrl(id: JsVal): string { ApiBase + "/characters/" + ToStr(id) + "/pictures" }

  function SearchCharactersUrl(query: string, o: Obj): string
  {
    WithQuery(ApiBase + "/characters", CharacterSearchQuery(query, o))
  }

  function TopCharactersUrl(o: Obj): string { WithOptionalQuery(ApiBase + "/top/characters", TopCharactersQuery(o)) }

  function GenresUrl(o: Obj): string { WithOptionalQuery(ApiBase + "/genres/anime", GenresQuery(o)) }

  function SchedulesUrl(o: Obj): string { WithQuery(ApiBase + "/schedules", ScheduleQuery(o)) }

  // ---------------------------------------------------------------------------
  // What each endpoint sends
  // ---------------------------------------------------------------------------

  /** Reads back the value of the rule `r` from a query built from rules with distinct keys. */
  lemma RuleLookup(rules: seq<Rule>, o: Obj, r: Rule)
    requires DistinctKeys(rules) && r in rules
    ensures Lookup(Build(rules, o), r.key) == RuleValue(r, o)
  {
    var i :| 0 <= i < |rules| && rules[i] == r;
    BuildLookup(rules, o, i);
  }

  /** Every rule of a builder with distinct keys reads back its own value. */
  lemma BuildLookupAll(rules: seq<Rule>, o: Obj)
    requires DistinctKeys(rules)
    ensures forall i :: 0 <= i < |rules| ==> Lookup(Build(rules, o), rules[i].key) == RuleValue(rules[i], o)
  {
    forall i | 0 <= i < |rules| ensures Lookup(Build(rules, o), rules[i].key) == RuleValue(rules[i], o) {
      BuildLookup(rules, o, i);
    }
  }

  /**
   * A builder reads its parameter object only through its rules' keys: two
   * objects that agree there (a missing key and an `undefined` one agree)
   * give the same query.
   */
  lemma {:induction false} BuildReadsOnlyGet(rules: seq<Rule>, o1: Obj, o2: Obj)
    requires forall i :: 0 <= i < |rules| ==> Get(o1, rules[i].key) == Get(o2, rules[i].key)
    ensures Build(rules, o1) == Build(rules, o2)
    decreases |rules|
  {
    if rules != [] {
      assert forall i :: 0 <= i < |rules[1..]| ==> rules[1..][i] == rules[i + 1];
      BuildReadsOnlyGet(rules[1..], o1, o2);
    }
  }

  lemma TopAnimeKeysUnique() ensures forall i :: 0 <= i < |TopAnimeRules| ==> KeyUnique(TopAnimeRules, i) {}
  lemma SeasonKeysUnique() ensures forall i :: 0 <= i < |SeasonRules| ==> KeyUnique(SeasonRules, i) {}
  lemma ScheduleKeysUnique() ensures forall i :: 0 <= i < |ScheduleRules| ==> KeyUnique(ScheduleRules, i) {}
  lemma CharacterSearchKeysUnique()
    ensures forall i :: 0 <= i < |CharacterSearchRules| ==> KeyUnique(CharacterSearchRules, i)
  {}
  lemma TopCharactersKeysUnique()
    ensures forall i :: 0 <= i < |TopCharactersRules| ==> KeyUnique(TopCharactersRules, i)
  {}
  lemma SearchAnimeKeysUnique() ensures forall i :: 0 <= i < |SearchAnimeRules| ==> KeyUnique(SearchAnimeRules, i) {}

  /** No endpoint's builder tests the same key twice. */
  lemma EndpointRulesDistinct()
    ensures DistinctKeys(TopAnimeRules) && DistinctKeys(SeasonRules) && DistinctKeys(ScheduleRules)
    ensures DistinctKeys(CharacterSearchRules) && DistinctKeys(TopCharactersRules)
    ensures DistinctKeys(SearchAnimeRules)
  {
    TopAnimeKeysUnique();
    SeasonKeysUnique();
    ScheduleKeysUnique();
    CharacterSearchKeysUnique();
    TopCharactersKeysUnique();
    SearchAnimeKeysUnique();
  }

  /**
   * getTopAnime: `type`, `filter`, `rating`, `page`, `limit` are sent iff
   * truthy, `sfw` iff defined and with its own value (so `false` is sent),
   * in that source order, and no other key.
   */
  lemma TopAnimeParams(o: Obj)
    ensures Lookup(TopAnimeQuery(o), "type") == TruthyValue(o, "type")
    ensures Lookup(TopAnimeQuery(o), "filter") == TruthyValue(o, "filter")
    ensures Lookup(TopAnimeQuery(o), "rating") == TruthyValue(o, "rating")
    ensures Lookup(TopAnimeQuery(o), "sfw") == DefinedValue(o, "sfw")
    ensures Lookup(TopAnimeQuery(o), "page") == TruthyValue(o, "page")
    ensures Lookup(TopAnimeQuery(o), "limit") == TruthyValue(o, "limit")
    ensures IsSubsequence(Keys(TopAnimeQuery(o)), ["type", "filter", "rating", "sfw", "page", "limit"])
  {
    var rs := TopAnimeRules;
    assert DistinctKeys(rs) by { TopAnimeKeysUnique(); }
    assert Lookup(TopAnimeQuery(o), "type") == TruthyValue(o, "type") by { RuleLookup(rs, o, rs[0]); }
    assert Lookup(TopAnimeQuery(o), "filter") == TruthyValue(o, "filter") by { RuleLookup(rs, o, rs[1]); }
    assert Lookup(TopAnimeQuery(o), "rating") == TruthyValue(o, "rating") by { RuleLookup(rs, o, rs[2]); }
    assert Lookup(TopAnimeQuery(o), "sfw") == DefinedValue(o, "sfw") by { RuleLookup(rs, o, rs[3]); }
    assert Lookup(TopAnimeQuery(o), "page") == TruthyValue(o, "page") by { RuleLookup(rs, o, rs[4]); }
    assert Lookup(TopAnimeQuery(o), "limit") == TruthyValue(o, "limit") by { RuleLookup(rs, o, rs[5]); }
    assert RuleKeys(rs) == ["type", "filter", "rating", "sfw", "page", "limit"];
    BuildKeysInOrder(rs, o);
  }

  /** `sfw: false` reaches getTopAnime's query as the text "false", while `page: 0` is dropped. */
  lemma TopAnimeFalsyValues(o: Obj)
    ensures Get(o, "sfw") == Bool(false) ==> Lookup(TopAnimeQuery(o), "sfw") == Some("false")
    ensures Get(o, "page") == Num(0) ==> Lookup(TopAnimeQuery(o), "page") == None
  {
    TopAnimeParams(o);
  }

  /**
   * getSeasonalAnime, getCurrentSeason and getSeasonUpcoming: `sfw`,
   * `unapproved`, `continuing` are sent as an empty value whenever defined,
   * whatever that value is (even `false`); `filter`, `page`, `limit` iff truthy.
   */
  lemma SeasonParams(o: Obj)
    ensures Lookup(SeasonQuery(o), "filter") == TruthyValue(o, "filter")
    ensures Lookup(SeasonQuery(o), "sfw") == (if Defined(Get(o, "sfw")) then Some("") else None)
    ensures Lookup(SeasonQuery(o), "unapproved") == (if Defined(Get(o, "unapproved")) then Some("") else None)
    ensures Lookup(SeasonQuery(o), "continuing") == (if Defined(Get(o, "continuing")) then Some("") else None)
    ensures Lookup(SeasonQuery(o), "page") == TruthyValue(o, "page")
    ensures Lookup(SeasonQuery(o), "limit") == TruthyValue(o, "limit")
    ensures IsSubsequence(Keys(SeasonQuery(o)), ["filter", "sfw", "unapproved", "continuing", "page", "limit"])
  {
    var rs := SeasonRules;
    assert DistinctKeys(rs) by { SeasonKeysUnique(); }
    assert Lookup(SeasonQuery(o), "filter") == TruthyValue(o, "filter") by { RuleLookup(rs, o, rs[0]); }
    assert Lookup(SeasonQuery(o), "sfw") == (if Defined(Get(o, "sfw")) then Some("") else None) by { RuleLookup(rs, o, rs[1]); }
    assert Lookup(SeasonQuery(o), "unapproved") == (if Defined(Get(o, "unapproved")) then Some("") else None) by { RuleLookup(rs, o, rs[2]); }
    assert Lookup(SeasonQuery(o), "continuing") == (if Defined(Get(o, "continuing")) then Some("") else None) by { RuleLookup(rs, o, rs[3]); }
    assert Lookup(SeasonQuery(o), "page") == TruthyValue(o, "page") by { RuleLookup(rs, o, rs[4]); }
    assert Lookup(SeasonQuery(o), "limit") == TruthyValue(o, "limit") by { RuleLookup(rs, o, rs[5]); }
    assert RuleKeys(rs) == ["filter", "sfw", "unapproved", "continuing", "page", "limit"];
    BuildKeysInOrder(rs, o);
  }

  /**
   * getSchedules: `kids` and `sfw` are sent with their own value whenever
   * defined, `unapproved` (as an empty value) only when truthy, and `filter`,
   * `page`, `limit` iff truthy.
   */
  lemma ScheduleParams(o: Obj)
    ensures Lookup(ScheduleQuery(o), "filter") == TruthyValue(o, "filter")
    ensures Lookup(ScheduleQuery(o), "kids") == DefinedValue(o, "kids")
    ensures Lookup(ScheduleQuery(o), "sfw") == DefinedValue(o, "sfw")
    ensures Lookup(ScheduleQuery(o), "unapproved") == (if Truthy(Get(o, "unapproved")) then Some("") else None)
    ensures Lookup(ScheduleQuery(o), "page") == TruthyValue(o, "page")
    ensures Lookup(ScheduleQuery(o), "limit") == TruthyValue(o, "limit")
    ensures IsSubsequence(Keys(ScheduleQuery(o)), ["filter", "kids", "sfw", "unapproved", "page", "limit"])
  {
    var rs := ScheduleRules;
    assert DistinctKeys(rs) by { ScheduleKeysUnique(); }
    assert Lookup(ScheduleQuery(o), "filter") == TruthyValue(o, "filter") by { RuleLookup(rs, o, rs[0]); }
    assert Lookup(ScheduleQuery(o), "kids") == DefinedValue(o, "kids") by { RuleLookup(rs, o, rs[1]); }
    assert Lookup(ScheduleQuery(o), "sfw") == DefinedValue(o, "sfw") by { RuleLookup(rs, o, rs[2]); }
    assert Lookup(ScheduleQuery(o), "unapproved") == (if Truthy(Get(o, "unapproved")) then Some("") else None) by { RuleLookup(rs, o, rs[3]); }
    assert Lookup(ScheduleQuery(o), "page") == TruthyValue(o, "page") by { RuleLookup(rs, o, rs[4]); }
    assert Lookup(ScheduleQuery(o), "limit") == TruthyValue(o, "limit") by { RuleLookup(rs, o, rs[5]); }
    assert RuleKeys(rs) == ["filter", "kids", "sfw", "unapproved", "page", "limit"];
    BuildKeysInOrder(rs, o);
  }

  /**
   * searchCharacters: `q` first iff the query is non-empty, then `page`,
   * `limit`, `order_by`, `sort`, `letter` iff truthy.
   */
  lemma CharacterSearchParams(query: string, o: Obj)
    ensures Lookup(CharacterSearchQuery(query, o), "q") == (if query != "" then Some(query) else None)
    ensures Lookup(CharacterSearchQuery(query, o), "page") == TruthyValue(o, "page")
    ensures Lookup(CharacterSearchQuery(query, o), "limit") == TruthyValue(o, "limit")
    ensures Lookup(CharacterSearchQuery(query, o), "order_by") == TruthyValue(o, "order_by")
    ensures Lookup(CharacterSearchQuery(query, o), "sort") == TruthyValue(o, "sort")
    ensures Lookup(CharacterSearchQuery(query, o), "letter") == TruthyValue(o, "letter")
    ensures IsSubsequence(Keys(CharacterSearchQuery(query, o)), ["q", "page", "limit", "order_by", "sort", "letter"])
  {
    var rs := CharacterSearchRules;
    var b := Build(rs, o);
    var q := CharacterSearchQuery(query, o);
    assert DistinctKeys(rs) by { CharacterSearchKeysUnique(); }
    forall k | k != "q" ensures Lookup(q, k) == Lookup(b, k) {
      LookupConcat(QParam(query), b, k);
    }
    assert Lookup(q, "page") == TruthyValue(o, "page") by { RuleLookup(rs, o, rs[0]); }
    assert Lookup(q, "limit") == TruthyValue(o, "limit") by { RuleLookup(rs, o, rs[1]); }
    assert Lookup(q, "order_by") == TruthyValue(o, "order_by") by { RuleLookup(rs, o, rs[2]); }
    assert Lookup(q, "sort") == TruthyValue(o, "sort") by { RuleLookup(rs, o, rs[3]); }
    assert Lookup(q, "letter") == TruthyValue(o, "letter") by { RuleLookup(rs, o, rs[4]); }
    assert Lookup(q, "q") == (if query != "" then Some(query) else None) by {
      BuildLookupAbsent(rs, o, "q");
      LookupConcat(QParam(query), b, "q");
      if query != "" {
        assert ([("q", query)] + b)[1..] == b;
      }
    }
    assert RuleKeys(rs) == ["page", "limit", "order_by", "sort", "letter"];
    BuildKeysInOrder(rs, o);
    QParamFirst(query, b, RuleKeys(rs));
  }

  /** getTopCharacters and getAnimeGenres: every key is sent iff truthy. */
  lemma TopCharactersAndGenresParams(o: Obj)
    ensures Lookup(TopCharactersQuery(o), "page") == TruthyValue(o, "page")
    ensures Lookup(TopCharactersQuery(o), "limit") == TruthyValue(o, "limit")
    ensures GenresQuery(o) == if Truthy(Get(o, "filter")) then [("filter", ToStr(Get(o, "filter")))] else []
  {
    TopCharactersKeysUnique();
    RuleLookup(TopCharactersRules, o, TopCharactersRules[0]);
    RuleLookup(TopCharactersRules, o, TopCharactersRules[1]);
  }

  /**
   * searchAnime: `q` iff the query is non-empty; `unapproved` as an empty
   * value whenever defined; `sfw` with its value whenever defined; every
   * other filter iff truthy, in source order.
   */
  lemma SearchAnimeParams(query: string, o: Obj)
    ensures Lookup(SearchAnimeQuery(query, o), "q") == (if query != "" then Some(query) else None)
    ensures Lookup(SearchAnimeQuery(query, o), "unapproved") == (if Defined(Get(o, "unapproved")) then Some("") else None)
    ensures Lookup(SearchAnimeQuery(query, o), "sfw") == DefinedValue(o, "sfw")
    ensures forall i :: 2 <= i < |SearchAnimeRules| ==>
              Lookup(SearchAnimeQuery(query, o), SearchAnimeRules[i].key) == TruthyValue(o, SearchAnimeRules[i].key)
    ensures IsSubsequence(Keys(SearchAnimeQuery(query, o)), ["q"] + RuleKeys(SearchAnimeRules))
  {
    SearchAnimeKeysUnique();
    SearchAnimeRuleKinds();
    QueryWithSearchText(query, SearchAnimeRules, o);
  }

  /** The `i`-th rule of searchAnime tests key `k`. */
  predicate IsSearchAnimeKey(i: int, k: string)
  {
    0 <= i < |SearchAnimeRules| && SearchAnimeRules[i].key == k
  }

  /** Any filter after `unapproved` and `sfw` is sent iff truthy, with its own value. */
  lemma SearchAnimeTruthyParam(query: string, o: Obj, i: int)
    requires 2 <= i < |SearchAnimeRules|
    ensures Lookup(SearchAnimeQuery(query, o), SearchAnimeRules[i].key) == TruthyValue(o, SearchAnimeRules[i].key)
  {
    SearchAnimeParams(query, o);
  }

  /** The search text and the `sfw` flag on their own. */
  lemma SearchAnimeTextAndSfw(query: string, o: Obj)
    ensures Lookup(SearchAnimeQuery(query, o), "q") == (if query != "" then Some(query) else None)
    ensures Lookup(SearchAnimeQuery(query, o), "sfw") == DefinedValue(o, "sfw")
  {
    SearchAnimeParams(query, o);
  }

  /** Filters searchAnime tests for truthiness, by name. */
  predicate IsSearchAnimeFilter(k: string)
  {
    k in {"page", "limit", "type", "status", "rating", "score", "min_score", "max_score", "genres", "genres_exclude", "order_by", "sort", "letter", "producers", "start_date", "end_date"}
  }

  /** A filter after `unapproved` and `sfw`, named by key, is sent iff truthy, with its own value. */
  lemma SearchAnimeFilterParam(query: string, o: Obj, k: string)
    requires IsSearchAnimeFilter(k)
    ensures Lookup(SearchAnimeQuery(query, o), k) == TruthyValue(o, k)
  {
    if k == "page" {
      assert IsSearchAnimeKey(2, "page");
      SearchAnimeTruthyParam(query, o, 2);
    } else if k == "limit" {
      assert IsSearchAnimeKey(3, "limit");
      SearchAnimeTruthyParam(query, o, 3);
    } else if k == "type" {
      assert IsSearchAnimeKey(4, "type");
      SearchAnimeTruthyParam(query, o, 4);
    } else if k == "status" {
      assert IsSearchAnimeKey(5, "status");
      SearchAnimeTruthyParam(query, o, 5);
    } else if k == "rating" {
      assert IsSearchAnimeKey(6, "rating");
      SearchAnimeTruthyParam(query, o, 6);
    } else if k == "score" {
      assert IsSearchAnimeKey(7, "score");
      SearchAnimeTruthyParam(query, o, 7);
    } else if k == "min_score" {
      assert IsSearchAnimeKey(8, "min_score");
      SearchAnimeTruthyParam(query, o, 8);
    } else if k == "max_score" {
      assert IsSearchAnimeKey(9, "max_score");
      SearchAnimeTruthyParam(query, o, 9);
    } else if k == "genres" {
      assert IsSearchAnimeKey(10, "genres");
      SearchAnimeTruthyParam(query, o, 10);
    } else if k == "genres_exclude" {
      assert IsSearchAnimeKey(11, "genres_exclude");
      SearchAnimeTruthyParam(query, o, 11);
    } else if k == "order_by" {
      assert IsSearchAnimeKey(12, "order_by");
      SearchAnimeTruthyParam(query, o, 12);
    } else if k == "sort" {
      assert IsSearchAnimeKey(13, "sort");
      SearchAnimeTruthyParam(query, o, 13);
    } else if k == "letter" {
      assert IsSearchAnimeKey(14, "letter");
      SearchAnimeTruthyParam(query, o, 14);
    } else if k == "producers" {
      assert IsSearchAnimeKey(15, "producers");
      SearchAnimeTruthyParam(query, o, 15);
    } else if k == "start_date" {
      assert IsSearchAnimeKey(16, "start_date");
      SearchAnimeTruthyParam(query, o, 16);
    } else {
      assert IsSearchAnimeKey(17, "end_date");
      SearchAnimeTruthyParam(query, o, 17);
    }
  }

  /** searchAnime tests `unapproved` and `sfw` for definedness and every later filter for truthiness; none is `q`. */
  lemma SearchAnimeRuleKinds()
    ensures SearchAnimeRules[0] == FlagIfDefined("unapproved") && SearchAnimeRules[1] == IfDefined("sfw")
    ensures forall i :: 2 <= i < |SearchAnimeRules| ==> SearchAnimeRules[i].IfTruthy?
    ensures forall i :: 0 <= i < |SearchAnimeRules| ==> SearchAnimeRules[i].key != "q"
  {
  }

  // ---------------------------------------------------------------------------
  // Responses
  // ---------------------------------------------------------------------------

  datatype HttpResponse<T> = HttpResponse(status: int, statusText: string, body: T)

  /** `response.ok`: the status is in the range 200 to 299. */
  predicate IsOk<T>(r: HttpResponse<T>)
  {
    200 <= r.status <= 299
  }

  /** What `fetch` delivers: a response, or a rejected promise. */
  datatype Transport<T> = Received(response: HttpResponse<T>) | NetworkError(message: string)

  /** The shared tail of every endpoint: reject a non-ok response, else yield the parsed body. */
  function Settle<T>(t: Transport<T>): (r: Result<T>)
    ensures r.Success? <==> t.Received? && IsOk(t.response)
    ensures r.Success? ==> r.value == t.response.body
    ensures t.NetworkError? ==> r == Failure(t.message)
  {
    match t
    case NetworkError(m) => Failure(m)
    case Received(resp) =>
      if !IsOk(resp) then Failure("API Error: " + IntToString(resp.status) + " " + resp.statusText)
      else Success(resp.body)
  }

  /** The error of a non-ok response names the status code (readable back) and the status text. */
  lemma NonOkMessage<T>(resp: HttpResponse<T>)
    requires !IsOk(resp)
    ensures Settle(Received(resp)).Failure?
    ensures exists code :: IsNumeral(code) && ParseInt(code) == resp.status &&
              Settle(Received(resp)).error == "API Error: " + code + " " + resp.statusText
  {
    IntToStringRoundTrip(resp.status);
    var code := IntToString(resp.status);
    assert ParseInt(code) == resp.status;
  }
}
