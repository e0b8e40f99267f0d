/**
 * One horizontal section of the landing page (src/components/SectionRow.jsx):
 * the section type picks the endpoint, wrapped `entry` records of the watch
 * endpoints are unwrapped and given a badge, the result is sanitised with the
 * `filterValidAnime` predicate, and at most six cards are shown.
 */
module SectionRow {
  import opened Results
  import opened Text
  import opened JsValues
  import opened Seqs
  import opened Catalog
  import opened Api

  /** The endpoint a section of type `t` requests; at most one of the source's `if`s matches. */
  function SectionUrl(t: string): string
  {
    if t == "trending" then ApiBase + "/top/anime?filter=bypopularity&limit=15"
    else if t == "airing" then ApiBase + "/top/anime?filter=airing&limit=15"
    else if t == "recent-episodes" then ApiBase + "/watch/episodes"
    else if t == "popular-episodes" then ApiBase + "/watch/episodes/popular"
    else if t == "recent-promos" then ApiBase + "/watch/promos"
    else if t == "popular-promos" then ApiBase + "/watch/promos/popular"
    else ApiBase + "/top/anime?limit=15"
  }

  /** The six types the section knows by name. */
  predicate KnownType(t: string)
  {
    t == "trending" || t == "airing" || t == "recent-episodes" || t == "popular-episodes" ||
    t == "recent-promos" || t == "popular-promos"
  }

  /** The trending path spelled out is the path with its filter spliced in. */
  lemma TrendingPath()
    ensures "/top/anime?filter=" + "bypopularity" + "&limit=15" == "/top/anime?filter=bypopularity&limit=15"
  {
  }

  /** The airing path spelled out is the path with its filter spliced in. */
  lemma AiringPath()
    ensures "/top/anime?filter=" + "airing" + "&limit=15" == "/top/anime?filter=airing&limit=15"
  {
  }

  /** The trending section requests what getTopAnime builds from `{filter: 'bypopularity', limit: 15}`. */
  lemma TrendingUrlMatchesTopAnime()
    ensures SectionUrl("trending") == TopAnimeUrl(map["filter" := Str("bypopularity"), "limit" := Num(15)])
  {
    assert IntToString(15) == "15" by { SmallNumerals(); }
    TopAnimeFilterAndLimit(map["filter" := Str("bypopularity"), "limit" := Num(15)], "bypopularity");
    TrendingPath();
    assert ApiBase + "/top/anime?filter=" + "bypopularity" + "&limit=15" == ApiBase + ("/top/anime?filter=" + "bypopularity" + "&limit=15");
  }

  /** The airing section requests what getTopAnime builds from `{filter: 'airing', limit: 15}`. */
  lemma AiringUrlMatchesTopAnime()
    ensures SectionUrl("airing") == TopAnimeUrl(map["filter" := Str("airing"), "limit" := Num(15)])
  {
    assert IntToString(15) == "15" by { SmallNumerals(); }
    TopAnimeFilterAndLimit(map["filter" := Str("airing"), "limit" := Num(15)], "airing");
    AiringPath();
    assert ApiBase + "/top/anime?filter=" + "airing" + "&limit=15" == ApiBase + ("/top/anime?filter=" + "airing" + "&limit=15");
  }

  /** Any type the section does not know falls back to getTopAnime with `{limit: 15}` alone. */
  lemma DefaultUrlMatchesTopAnime(t: string)
    requires !KnownType(t)
    ensures SectionUrl(t) == TopAnimeUrl(map["limit" := Num(15)])
  {
    assert IntToString(15) == "15" by { SmallNumerals(); }
    TopAnimeLimitOnly(map["limit" := Num(15)]);
  }

  /** One step of the rule run. */
  lemma BuildStep(rules: seq<Rule>, o: Obj)
    requires rules != []
    ensures Build(rules, o) ==
              (if RuleValue(rules[0], o).Some? then [(rules[0].key, RuleValue(rules[0], o).value)] else []) + Build(rules[1..], o)
  {
  }

  /** getTopAnime's parameters when only a non-empty filter and the limit 15 are given. */
  lemma TopAnimeFilterAndLimitQuery(o: Obj, f: string)
    requires f != "" && o == map["filter" := Str(f), "limit" := Num(15)]
    requires IntToString(15) == "15"
    ensures TopAnimeQuery(o) == [("filter", f), ("limit", "15")]
  {
    var rs := TopAnimeRules;
    assert Get(o, "type") == Undefined && Get(o, "rating") == Undefined;
    assert Get(o, "sfw") == Undefined && Get(o, "page") == Undefined;
    var r5 := [IfTruthy("limit")];
    var r4 := [IfTruthy("page")] + r5;
    var r3 := [IfDefined("sfw")] + r4;
    var r2 := [IfTruthy("rating")] + r3;
    var r1 := [IfTruthy("filter")] + r2;
    assert rs == [IfTruthy("type")] + r1;
    BuildStep(r5, o);
    assert r5[1..] == [];
    assert Build(r5, o) == [("limit", "15")];
    BuildStep(r4, o);
    assert r4[1..] == r5;
    BuildStep(r3, o);
    assert r3[1..] == r4;
    BuildStep(r2, o);
    assert r2[1..] == r3;
    BuildStep(r1, o);
    assert r1[1..] == r2;
    assert Build(r1, o) == [("filter", f), ("limit", "15")];
    BuildStep(rs, o);
    assert rs[1..] == r1;
  }

  lemma TopAnimeFilterAndLimit(o: Obj, f: string)
    requires f != "" && o == map["filter" := Str(f), "limit" := Num(15)]
    requires IntToString(15) == "15"
    ensures TopAnimeUrl(o) == ApiBase + "/top/anime?filter=" + f + "&limit=15"
  {
    TopAnimeFilterAndLimitQuery(o, f);
    var q := TopAnimeQuery(o);
    assert q[1..] == [("limit", "15")];
    assert Serialize(q[1..]) == "limit=15";
    assert Serialize(q) == "filter=" + f + "&limit=15";
  }

  lemma TopAnimeLimitOnly(o: Obj)
    requires o == map["limit" := Num(15)]
    requires IntToString(15) == "15"
    ensures TopAnimeUrl(o) == ApiBase + "/top/anime?limit=15"
  {
    var rs := TopAnimeRules;
    assert Get(o, "type") == Undefined && Get(o, "rating") == Undefined && Get(o, "filter") == Undefined;
    assert Get(o, "sfw") == Undefined && Get(o, "page") == Undefined;
    assert RuleValue(rs[5], o) == Some("15");
    assert Build(rs[5..], o) == [("limit", "15")];
    assert rs[4..][1..] == rs[5..];
    assert Build(rs[4..], o) == [("limit", "15")];
    assert rs[3..][1..] == rs[4..];
    assert Build(rs[3..], o) == [("limit", "15")];
    assert rs[2..][1..] == rs[3..];
    assert Build(rs[2..], o) == [("limit", "15")];
    assert rs[1..][1..] == rs[2..];
    assert Build(rs[1..], o) == [("limit", "15")];
    assert TopAnimeQuery(o) == [("limit", "15")];
  }

  // ---------------------------------------------------------------------------
  // Raw items and badges
  // ---------------------------------------------------------------------------

  datatype Episode = Episode(title: Option<string>)

  /**
   * An element of the response's `data`: read as an anime record when the
   * section does not unwrap, with its `entry` and `episodes` fields for the
   * watch endpoints.
   */
  datatype RawItem = RawItem(asAnime: Anime, entry: Option<Anime>, episodes: Option<seq<Episode>>)

  /** `title.split(' ')[1]`: the second space-separated token, or undefined when there is none. */
  function SecondToken(title: string): (r: Option<string>)
    ensures r.Some? <==> ' ' in title
    ensures r.Some? ==> ' ' !in r.value
  {
    var parts := Split(title, ' ');
    JoinSplit(title, ' ');
    if |parts| >= 2 then Some(parts[1])
    else
      assert parts == [parts[0]];
      assert Join(parts, ' ') == parts[0];
      None
  }

  /** `item.episodes?.[0]?.title?.split(' ')[1]`. */
  function EpisodeToken(item: RawItem): Option<string>
  {
    if item.episodes.Some? && |item.episodes.value| > 0 && item.episodes.value[0].title.Some?
    then SecondToken(item.episodes.value[0].title.value)
    else None
  }

  /** The token is truthy: present and non-empty. */
  predicate HasEpisodeNumber(item: RawItem)
  {
    EpisodeToken(item).Some? && EpisodeToken(item).value != ""
  }

  /** The badge of an episode section: "EP <token>" when the token is truthy, "NEW" otherwise. */
  function EpisodeBadge(item: RawItem): (b: string)
    ensures b == "NEW" <==> !HasEpisodeNumber(item)
    ensures HasEpisodeNumber(item) ==> StartsWith(b, "EP ") && b[3..] == EpisodeToken(item).value
  {
    if HasEpisodeNumber(item) then
      var b := "EP " + EpisodeToken(item).value;
      assert b[..3] == "EP ";
      assert b[3..] == EpisodeToken(item).value;
      b
    else "NEW"
  }

  /** The badge of the legacy "recent" section: the same label, or null instead of "NEW". */
  function RecentBadge(item: RawItem): (b: Option<string>)
    ensures b.None? <==> !HasEpisodeNumber(item)
    ensures b.Some? ==> b.value == EpisodeBadge(item)
  {
    if HasEpisodeNumber(item) then Some("EP " + EpisodeToken(item).value) else None
  }

  /** `{...item.entry}`: spreading a missing entry yields an object with no fields. */
  function Entry(item: RawItem): Anime
  {
    item.entry.GetOr(NoFields)
  }

  /** The per-item step of the unwrapping `map`; an unknown type leaves the item as it came. */
  function UnwrapItem(t: string, item: RawItem): (a: Anime)
    ensures Contains(t, "episodes") ==> a.badge == Some(EpisodeBadge(item))
    ensures !Contains(t, "episodes") && Contains(t, "promos") ==> a.badge == Some("PROMO")
    ensures !Contains(t, "episodes") && !Contains(t, "promos") && t == "recent" ==> a.badge == RecentBadge(item)
    ensures Contains(t, "episodes") || Contains(t, "promos") || t == "recent" ==>
              a.(badge := None) == Entry(item).(badge := None)
    ensures !Contains(t, "episodes") && !Contains(t, "promos") && t != "recent" ==> a == item.asAnime
  {
    if Contains(t, "episodes") then Entry(item).(badge := Some(EpisodeBadge(item)))
    else if Contains(t, "promos") then Entry(item).(badge := Some("PROMO"))
    else if t == "recent" then Entry(item).(badge := RecentBadge(item))
    else item.asAnime
  }

  /** The unwrapping step over the whole response: one output record per input item. */
  function Unwrap(t: string, items: seq<RawItem>): (r: seq<Anime>)
    ensures |r| == |items|
  {
    Map((item: RawItem) => UnwrapItem(t, item), items)
  }

  /** A type that neither contains "episodes" or "promos" nor is "recent" passes the items through. */
  lemma UnwrapPlain(t: string, items: seq<RawItem>)
    requires !Contains(t, "episodes") && !Contains(t, "promos") && t != "recent"
    ensures Unwrap(t, items) == Map((item: RawItem) => item.asAnime, items)
  {
  }

  /** Every record of a promo section carries the badge "PROMO" and otherwise the entry's own fields. */
  lemma PromoBadges(t: string, items: seq<RawItem>)
    requires Contains(t, "promos") && !Contains(t, "episodes")
    ensures forall i :: 0 <= i < |items| ==>
              Unwrap(t, items)[i] == Entry(items[i]).(badge := Some("PROMO"))
  {
  }

  // ---------------------------------------------------------------------------
  // Badge examples
  // ---------------------------------------------------------------------------

  function WithTitle(title: string): RawItem
  {
    RawItem(NoFields, None, Some([Episode(Some(title))]))
  }

  /** "Episode 12" gives the badge "EP 12". */
  lemma BadgeFromNumberedTitle(w: string, n: string)
    requires ' ' !in w && ' ' !in n && n != ""
    ensures EpisodeBadge(WithTitle(w + " " + n)) == "EP " + n
  {
    SplitConcatSep(w, n, ' ');
    SplitNoSep(n, ' ');
    assert w + " " + n == w + [' '] + n;
  }

  /** A double space makes the second token empty, so the badge is "NEW". */
  lemma DoubleSpaceGivesNew(w: string, rest: string)
    requires ' ' !in w
    ensures EpisodeBadge(WithTitle(w + "  " + rest)) == "NEW"
  {
    assert w + "  " + rest == w + [' '] + ([] + [' '] + rest);
    SplitConcatSep(w, [] + [' '] + rest, ' ');
    SplitConcatSep([], rest, ' ');
  }

  /** A one-word title has no second token, so the badge is "NEW". */
  lemma OneWordGivesNew(w: string)
    requires ' ' !in w
    ensures EpisodeBadge(WithTitle(w)) == "NEW"
  {
  }

  /** Without episodes there is no token: "NEW" in an episode section, null in the "recent" one. */
  lemma NoEpisodesGivesNew(item: RawItem)
    requires item.episodes.None? || item.episodes.value == []
    ensures UnwrapItem("recent-episodes", item).badge == Some("NEW")
    ensures UnwrapItem("recent", item).badge == None
  {
    assert OccursAt("recent-episodes", "episodes", 7);
    assert !Contains("recent", "episodes") by {
      assert |"recent"| < |"episodes"|;
    }
    assert !Contains("recent", "promos") by {
      forall i | 0 <= i <= |"recent"| - |"promos"| ensures !OccursAt("recent", "promos", i) {
        assert "recent"[i] != 'p';
      }
    }
  }

  // ---------------------------------------------------------------------------
  // The section's state
  // ---------------------------------------------------------------------------

  /** `items` and `loading`; a section starts empty and loading. */
  datatype Section = Section(items: seq<Anime>, loading: bool)

  const Initial: Section := Section([], true)

  /**
   * The effect's outcome. The response status is not checked: any body is
   * read, missing `data` counts as an empty list, and the stored items are
   * the sanitised unwrapped records. A failed fetch or parse keeps the items.
   */
  function Receive(s: Section, t: string, outcome: Result<Page<RawItem>>): (s': Section)
    ensures !s'.loading
    ensures outcome.Failure? ==> s'.items == s.items
    ensures outcome.Success? ==> forall i :: 0 <= i < |s'.items| ==> IsValid(s'.items[i])
  {
    match outcome
    case Failure(_) => s.(loading := false)
    case Success(page) => Section(FilterValid(Unwrap(t, Items(page))), false)
  }

  /**
   * The inline filter is `filterValidAnime`: the stored items are exactly the
   * valid unwrapped records, in response order, and no more than arrived.
   */
  lemma ReceiveSanitises(s: Section, t: string, page: Page<RawItem>)
    ensures var r := Receive(s, t, Success(page)).items;
            IsSubsequence(r, Unwrap(t, Items(page))) && |r| <= |Items(page)| &&
            forall a :: a in r <==> a in Unwrap(t, Items(page)) && IsValid(a)
  {
    FilterValidSelects(Unwrap(t, Items(page)));
  }

  /** What the grid shows: six skeletons while loading, else the first six items in order. */
  datatype View = Skeletons(count: nat) | Cards(cards: seq<Anime>)

  function Render(s: Section): (v: View)
    ensures s.loading <==> v == Skeletons(6)
    ensures v.Cards? ==> v.cards <= s.items && |v.cards| <= 6
    ensures v.Cards? && |s.items| >= 6 ==> |v.cards| == 6
  {
    if s.loading then Skeletons(6) else Cards(Take(s.items, 6))
  }

  /** A section with seven or more valid items still shows exactly its first six. */
  lemma RenderCut(s: Section)
    requires !s.loading
    ensures Render(s) == Cards(if |s.items| <= 6 then s.items else s.items[..6])
  {
  }
}
