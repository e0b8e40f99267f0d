/**
 * The home page (src/pages/Home.jsx): the tabbed main grid with its page
 * counter, the favourites view that replaces it, the text search and the
 * genre search that arrives from the genre browser.
 *
 * The hero pick is modelled with the random draw as a parameter; the page
 * state keeps no hero, because the rest of the first load only depends on
 * whether the hero request succeeded.
 */
module Home {
  import opened Results
  import opened Text
  import opened JsValues
  import opened Seqs
  import opened Catalog
  import opened Api
  import Favorites
  import Genres

  datatype HomePage = HomePage(
    searchQuery: string,
    searchResults: seq<Anime>,
    isSearching: bool,
    activeTab: string,
    mainList: seq<Anime>,
    page: int,
    loadingMain: bool,
    loadingMore: bool,
    myList: seq<int>,
    showingFavorites: bool)

  /** The page on first render, with the favourites read from storage. */
  function Initial(myList: seq<int>): HomePage
  {
    HomePage("", [], false, "latest", [], 1, true, false, myList, false)
  }

  // ---------------------------------------------------------------------------
  // The main grid
  // ---------------------------------------------------------------------------

  /** `{ page, limit: 12 }` plus the filter the tab selects. */
  function TabParams(tab: string, pageNum: int): (p: Obj)
    ensures Get(p, "page") == Num(pageNum) && Get(p, "limit") == Num(12)
    ensures Get(p, "type") == Undefined && Get(p, "sfw") == Undefined && Get(p, "rating") == Undefined
  {
    var p := map["page" := Num(pageNum), "limit" := Num(12)];
    if tab == "latest" then p["filter" := Str("airing")]
    else if tab == "popular" then p["filter" := Str("bypopularity")]
    else p
  }

  /**
   * The tab decides the ranking: "latest" asks for airing titles, "popular"
   * for the by-popularity ranking, any other tab for the plain top list;
   * twelve per page always, and nothing else is sent besides the page.
   */
  lemma TabQuery(tab: string, pageNum: int)
    ensures var q := TopAnimeQuery(TabParams(tab, pageNum));
            Lookup(q, "filter") ==
              (if tab == "latest" then Some("airing") else if tab == "popular" then Some("bypopularity") else None) &&
            Lookup(q, "limit") == Some("12") &&
            Lookup(q, "type") == None && Lookup(q, "sfw") == None && Lookup(q, "rating") == None
  {
    SmallNumerals();
    TopAnimeParams(TabParams(tab, pageNum));
  }

  /**
   * `fetchListData(pageNum, tab, reset)` with its settled request: nothing
   * at all in favourites mode; otherwise the sanitised page replaces
   * (reset) or extends the grid, a failure keeps the grid, and both loading
   * flags end false.
   */
  function FetchListData(h: HomePage, reset: bool, outcome: Result<Page<Anime>>): (r: HomePage)
    ensures h.showingFavorites ==> r == h
    ensures !h.showingFavorites ==> !r.loadingMain && !r.loadingMore
    ensures !h.showingFavorites && outcome.Success? && reset ==> r.mainList == FilterValid(Items(outcome.value))
    ensures !h.showingFavorites && outcome.Success? && !reset ==>
              r.mainList == h.mainList + FilterValid(Items(outcome.value))
    ensures outcome.Failure? ==> r.mainList == h.mainList
    ensures r.(mainList := h.mainList, loadingMain := h.loadingMain, loadingMore := h.loadingMore) == h
  {
    if h.showingFavorites then h
    else
      var list := match outcome
        case Success(p) => (if reset then [] else h.mainList) + FilterValid(Items(p))
        case Failure(_) => h.mainList;
      h.(mainList := list, loadingMain := false, loadingMore := false)
  }

  /**
   * The effect on `[activeTab, showingFavorites]` outside favourites mode:
   * back to page 1 and a replacing fetch for the current tab.
   */
  function ReloadTab(h: HomePage, outcome: Result<Page<Anime>>): (r: HomePage)
    ensures h.showingFavorites ==> r == h
    ensures !h.showingFavorites ==> r.page == 1
    ensures !h.showingFavorites && outcome.Success? ==> r.mainList == FilterValid(Items(outcome.value))
  {
    if h.showingFavorites then h else FetchListData(h.(page := 1), true, outcome)
  }

  /** Switching to another tab reloads the grid from page 1; clicking the active tab does nothing. */
  function SelectTab(h: HomePage, tab: string, outcome: Result<Page<Anime>>): (r: HomePage)
    ensures tab == h.activeTab ==> r == h
    ensures r.activeTab == tab
  {
    if tab == h.activeTab then h else ReloadTab(h.(activeTab := tab), outcome)
  }

  /**
   * "Load more": the page counter moves on and the effect on `[page]`
   * appends the next page of the current tab (outside favourites mode).
   */
  function NextPage(h: HomePage, outcome: Result<Page<Anime>>): (r: HomePage)
    ensures r.page == h.page + 1
    ensures !h.showingFavorites && h.page >= 1 && outcome.Success? ==>
              r.mainList == h.mainList + FilterValid(Items(outcome.value))
    ensures outcome.Failure? || h.showingFavorites ==> r.mainList == h.mainList
  {
    var h' := h.(page := h.page + 1);
    if !h'.showingFavorites && h'.page > 1 then FetchListData(h', false, outcome) else h'
  }

  /**
   * Loading the first page of a tab and then the next one is sanitising
   * both pages together.
   */
  lemma TwoPagesAreOneFilter(h: HomePage, tab: string, first: Page<Anime>, second: Page<Anime>)
    requires !h.showingFavorites && tab != h.activeTab
    ensures NextPage(SelectTab(h, tab, Success(first)), Success(second)).mainList ==
            FilterValid(Items(first) + Items(second))
    ensures NextPage(SelectTab(h, tab, Success(first)), Success(second)).page == 2
  {
    FilterValidConcat(Items(first), Items(second));
  }

  // ---------------------------------------------------------------------------
  // Favourites
  // ---------------------------------------------------------------------------

  /** Every id's `getAnimeById` succeeds. */
  predicate AllFetched(ids: seq<int>, fetchById: int -> Result<Anime>)
  {
    forall i :: 0 <= i < |ids| ==> fetchById(ids[i]).Success?
  }

  /**
   * `fetchFavorites`, given what `getAnimeById` yields for each id: an empty
   * list shows an empty grid without any request; otherwise the records in
   * list order, or, if any single request fails, the grid as it was.
   */
  function FetchFavorites(h: HomePage, fetchById: int -> Result<Anime>): (r: HomePage)
    ensures h.myList == [] ==> r.mainList == []
    ensures h.myList != [] && !AllFetched(h.myList, fetchById) ==> r.mainList == h.mainList
    ensures AllFetched(h.myList, fetchById) ==>
              |r.mainList| == |h.myList| &&
              forall i :: 0 <= i < |h.myList| ==> r.mainList[i] == fetchById(h.myList[i]).value
    ensures !r.loadingMain && r.(mainList := h.mainList, loadingMain := h.loadingMain) == h
  {
    if h.myList == [] then h.(mainList := [], loadingMain := false)
    else if AllFetched(h.myList, fetchById) then
      var records := seq(|h.myList|, i requires 0 <= i < |h.myList| => fetchById(h.myList[i]).value);
      h.(mainList := records, loadingMain := false)
    else h.(loadingMain := false)
  }

  /**
   * Entering or leaving favourites mode: entering loads the favourites,
   * leaving reloads the current tab from page 1; setting the current mode
   * again does nothing.
   */
  function SetFavoritesMode(h: HomePage, on: bool, fetchById: int -> Result<Anime>, outcome: Result<Page<Anime>>): (r: HomePage)
    ensures on == h.showingFavorites ==> r == h
    ensures r.showingFavorites == on
    ensures on && !h.showingFavorites && AllFetched(h.myList, fetchById) ==> |r.mainList| == |h.myList|
    ensures !on && h.showingFavorites ==> r.page == 1
  {
    if on == h.showingFavorites then h
    else if on then FetchFavorites(h.(showingFavorites := true), fetchById)
    else ReloadTab(h.(showingFavorites := false), outcome)
  }

  /**
   * `setShowingFavorites(false)` as the search handlers call it, with the
   * effect on `[activeTab, showingFavorites]` it sets off: leaving
   * favourites mode goes back to page 1 and reloads the active tab, and the
   * tab request is returned; outside favourites mode nothing happens.
   */
  function LeaveFavorites(h: HomePage, tabOutcome: Result<Page<Anime>>): (r: (HomePage, Option<Query>))
    ensures !r.0.showingFavorites
    ensures !h.showingFavorites ==> r == (h, None)
    ensures h.showingFavorites ==>
              r.1 == Some(TopAnimeQuery(TabParams(h.activeTab, 1))) && r.0.page == 1 &&
              (tabOutcome.Success? ==> r.0.mainList == FilterValid(Items(tabOutcome.value))) &&
              (tabOutcome.Failure? ==> r.0.mainList == h.mainList)
    ensures r.0.searchQuery == h.searchQuery && r.0.searchResults == h.searchResults &&
            r.0.isSearching == h.isSearching && r.0.activeTab == h.activeTab && r.0.myList == h.myList
  {
    if h.showingFavorites then
      (ReloadTab(h.(showingFavorites := false), tabOutcome), Some(TopAnimeQuery(TabParams(h.activeTab, 1))))
    else (h, None)
  }

  /** Leaving favourites through a search lands in the same state as the favourites switch. */
  lemma LeavingAgrees(h: HomePage, fetchById: int -> Result<Anime>, tabOutcome: Result<Page<Anime>>)
    requires h.showingFavorites
    ensures LeaveFavorites(h, tabOutcome).0 == SetFavoritesMode(h, false, fetchById, tabOutcome)
  {
  }

  /**
   * `toggleMyList`, with the favourites effect on `[showingFavorites,
   * myList]`: in favourites mode the grid is reloaded from the new list.
   */
  function ToggleMyList(h: HomePage, id: int, fetchById: int -> Result<Anime>): (r: HomePage)
    ensures r.myList == Favorites.Toggle(h.myList, id)
    ensures !h.showingFavorites ==> r == h.(myList := Favorites.Toggle(h.myList, id))
  {
    var h' := h.(myList := Favorites.Toggle(h.myList, id));
    if h'.showingFavorites then FetchFavorites(h', fetchById) else h'
  }

  /**
   * Un-favouriting the last favourite while viewing favourites empties the
   * grid at once, without any request.
   */
  lemma RemovingLastFavoriteEmpties(h: HomePage, id: int, fetchById: int -> Result<Anime>)
    requires h.showingFavorites && h.myList == [id]
    ensures ToggleMyList(h, id, fetchById).mainList == []
  {
    assert Favorites.Toggle([id], id) == [] by {
      assert Favorites.Toggle([id], id) == Filter(x => x != id, [id]);
    }
  }

  // ---------------------------------------------------------------------------
  // Searching
  // ---------------------------------------------------------------------------

  /** `searchAnime(searchQuery, { limit: 24 })`, sent only for a non-blank query. */
  function SearchRequest(h: HomePage): (r: Option<(string, Obj)>)
    ensures r.Some? <==> !IsBlank(h.searchQuery)
    ensures r.Some? ==> r.value.0 == h.searchQuery && Get(r.value.1, "limit") == Num(24)
  {
    TrimEmptyIffBlank(h.searchQuery);
    if Trim(h.searchQuery) != "" then Some((h.searchQuery, map["limit" := Num(24)])) else None
  }

  /** searchAnime's query for a non-empty text and `{limit: 24}`. */
  lemma TextSearchQuery(text: string, params: Obj)
    requires text != "" && Get(params, "limit") == Num(24)
    ensures Lookup(SearchAnimeQuery(text, params), "q") == Some(text)
    ensures Lookup(SearchAnimeQuery(text, params), "limit") == Some("24")
  {
    SearchAnimeTextAndSfw(text, params);
    assert IntToString(24) == "24" by { SmallNumerals(); }
    SearchAnimeFilterParam(text, params, "limit");
  }

  /**
   * The text searched is the query as typed: the blank check trims, but the
   * request carries the untrimmed text, with 24 results per page.
   */
  lemma SearchSendsRawText(h: HomePage)
    requires !IsBlank(h.searchQuery)
    ensures var (text, params) := SearchRequest(h).value;
            Lookup(SearchAnimeQuery(text, params), "q") == Some(h.searchQuery) &&
            Lookup(SearchAnimeQuery(text, params), "limit") == Some("24")
  {
    var req := SearchRequest(h).value;
    assert h.searchQuery != "";
    TextSearchQuery(req.0, req.1);
  }

  /**
   * `handleSearch`: favourites mode ends, which reloads the active tab when
   * it was on; a blank query leaves the search view; otherwise the search
   * view opens and the sanitised results replace the previous ones (a
   * failure keeps them). `tabOutcome` is what the tab reload yields.
   */
  function HandleSearch(h: HomePage, outcome: Result<Page<Anime>>, tabOutcome: Result<Page<Anime>>): (r: HomePage)
    ensures !r.showingFavorites
    ensures r.isSearching <==> !IsBlank(h.searchQuery)
    ensures !IsBlank(h.searchQuery) && outcome.Success? ==> r.searchResults == FilterValid(Items(outcome.value))
    ensures IsBlank(h.searchQuery) || outcome.Failure? ==> r.searchResults == h.searchResults
    ensures r.myList == h.myList && r.searchQuery == h.searchQuery && r.activeTab == h.activeTab
    ensures !h.showingFavorites ==> r.mainList == h.mainList && r.page == h.page
    ensures h.showingFavorites ==>
              r.page == 1 &&
              (tabOutcome.Success? ==> r.mainList == FilterValid(Items(tabOutcome.value))) &&
              (tabOutcome.Failure? ==> r.mainList == h.mainList)
  {
    var h' := LeaveFavorites(h, tabOutcome).0;
    if SearchRequest(h).Some? then
      var results := match outcome
        case Success(p) => FilterValid(Items(p))
        case Failure(_) => h.searchResults;
      h'.(isSearching := true, searchResults := results)
    else h'.(isSearching := false)
  }

  /**
   * A search started from favourites mode shows the same grid, on the same
   * page, as switching favourites off would: the search only adds its own
   * results on top.
   */
  lemma SearchFromFavorites(h: HomePage, outcome: Result<Page<Anime>>, fetchById: int -> Result<Anime>,
                            tabOutcome: Result<Page<Anime>>)
    requires h.showingFavorites
    ensures var r := HandleSearch(h, outcome, tabOutcome);
            var t := SetFavoritesMode(h, false, fetchById, tabOutcome);
            r.mainList == t.mainList && r.page == t.page && !r.showingFavorites && !t.showingFavorites
  {
    LeavingAgrees(h, fetchById, tabOutcome);
  }

  /** `searchAnime('', { genres: genreId.toString(), limit: 24 })`. */
  function GenreParams(genreId: int): (p: Obj)
    ensures Get(p, "genres") == Str(IntToString(genreId)) && Get(p, "limit") == Num(24)
  {
    map["genres" := Str(IntToString(genreId)), "limit" := Num(24)]
  }

  /** A genre search sends the id's decimal numeral as `genres`, 24 per page, and no text. */
  lemma GenreQuery(genreId: int)
    ensures var q := SearchAnimeQuery("", GenreParams(genreId));
            Lookup(q, "genres") == Some(IntToString(genreId)) && Lookup(q, "limit") == Some("24") &&
            Lookup(q, "q") == None
  {
    SmallNumerals();
    IntToStringRoundTrip(genreId);
    SearchAnimeTextAndSfw("", GenreParams(genreId));
    SearchAnimeFilterParam("", GenreParams(genreId), "genres");
    SearchAnimeFilterParam("", GenreParams(genreId), "limit");
  }

  /**
   * `handleGenreSearch`: the genre's name becomes the shown query, the
   * search view opens, favourites mode ends (reloading the active tab when
   * it was on), and the sanitised results replace the previous ones (a
   * failure keeps them).
   */
  function HandleGenreSearch(h: HomePage, genreName: string, outcome: Result<Page<Anime>>,
                             tabOutcome: Result<Page<Anime>>): (r: HomePage)
    ensures r.searchQuery == genreName && r.isSearching && !r.showingFavorites
    ensures outcome.Success? ==> r.searchResults == FilterValid(Items(outcome.value))
    ensures outcome.Failure? ==> r.searchResults == h.searchResults
    ensures !h.showingFavorites ==> r.mainList == h.mainList && r.page == h.page
    ensures h.showingFavorites ==>
              r.page == 1 &&
              (tabOutcome.Success? ==> r.mainList == FilterValid(Items(tabOutcome.value))) &&
              (tabOutcome.Failure? ==> r.mainList == h.mainList)
  {
    var results := match outcome
      case Success(p) => FilterValid(Items(p))
      case Failure(_) => h.searchResults;
    LeaveFavorites(h, tabOutcome).0.(searchQuery := genreName, isSearching := true, searchResults := results)
  }

  // ---------------------------------------------------------------------------
  // The first load
  // ---------------------------------------------------------------------------

  /** `getTopAnime({ limit: 5 })`: the hero request. */
  function HeroParams(): (p: Obj)
    ensures Get(p, "limit") == Num(5) && Get(p, "filter") == Undefined && Get(p, "page") == Undefined
  {
    map["limit" := Num(5)]
  }

  /** The hero request asks for the top five titles of the plain ranking, first page. */
  lemma HeroQuery()
    ensures Lookup(TopAnimeQuery(HeroParams()), "limit") == Some("5")
    ensures Lookup(TopAnimeQuery(HeroParams()), "filter") == None
    ensures Lookup(TopAnimeQuery(HeroParams()), "page") == None
  {
    TopAnimeParams(HeroParams());
    assert IntToString(5) == "5" by { assert NatToString(5) == [DigitChar(5)]; }
  }

  /**
   * `heroData.data[Math.floor(Math.random() * heroData.data.length)]`, with
   * the drawn index `pick` as a parameter: it lies below the length, and is
   * 0 for an empty list, whose element 0 is `undefined`.
   */
  function PickHero(data: seq<Anime>, pick: int): (r: Option<Anime>)
    requires if data == [] then pick == 0 else 0 <= pick < |data|
    ensures r.Some? <==> data != []
    ensures r.Some? ==> r.value in data
  {
    if pick < |data| then Some(data[pick]) else None
  }

  /** Every entry of a non-empty hero response is the hero for some draw. */
  lemma EveryEntryCanBeHero(data: seq<Anime>, a: Anime)
    requires a in data
    ensures exists pick :: 0 <= pick < |data| && PickHero(data, pick) == Some(a)
  {
    var i :| 0 <= i < |data| && data[i] == a;
    assert PickHero(data, i) == Some(a);
  }

  /**
   * The first load for a navigation state, with the request it sends after
   * the hero request (which must succeed with a `data` list, or nothing
   * else happens): a truthy `genreId` in the router state runs the genre
   * search, anything else loads page 1 of the "latest" tab, whichever tab
   * is active (outside favourites mode, where that load does nothing).
   * `listOutcome` is what a grid request yields: the "latest" load, or on
   * the genre path the tab reload when favourites mode was on.
   */
  function OnLocation(h: HomePage, hero: Result<Page<Anime>>, nav: Option<Genres.NavState>,
                      searchOutcome: Result<Page<Anime>>, listOutcome: Result<Page<Anime>>): (r: (HomePage, Option<Query>))
    ensures if hero.Failure? || hero.value.data.None? then r == (h, None)
            else if nav.Some? && nav.value.genreId != 0 then
              r.0.isSearching && r.0.searchQuery == nav.value.genreName &&
              r.1 == Some(SearchAnimeQuery("", GenreParams(nav.value.genreId)))
            else
              (r.1.Some? <==> !h.showingFavorites) &&
              (r.1.Some? ==> r.1.value == TopAnimeQuery(TabParams("latest", 1))) &&
              (!h.showingFavorites && listOutcome.Success? ==> r.0.mainList == FilterValid(Items(listOutcome.value)))
  {
    if hero.Failure? || hero.value.data.None? then (h, None)
    else if nav.Some? && nav.value.genreId != 0 then
      (HandleGenreSearch(h, nav.value.genreName, searchOutcome, listOutcome), Some(SearchAnimeQuery("", GenreParams(nav.value.genreId))))
    else
      (FetchListData(h, true, listOutcome), if h.showingFavorites then None else Some(TopAnimeQuery(TabParams("latest", 1))))
  }

  /**
   * Arriving without a genre always loads airing titles, twelve of them,
   * even when another tab is active: the grid can show the "latest" list
   * under the "popular" tab.
   */
  lemma FirstLoadIsLatest(h: HomePage, hero: Page<Anime>, listOutcome: Result<Page<Anime>>,
                          searchOutcome: Result<Page<Anime>>)
    requires hero.data.Some? && !h.showingFavorites
    ensures var r := OnLocation(h, Success(hero), None, searchOutcome, listOutcome);
            r.1.Some? && Lookup(r.1.value, "filter") == Some("airing") && Lookup(r.1.value, "limit") == Some("12") &&
            r.0.activeTab == h.activeTab
  {
    TabQuery("latest", 1);
  }

  /**
   * Clicking a genre in the browser lands on the home page showing that
   * genre: the search view is open under the genre's name, and the request
   * asks for that genre's id.
   */
  lemma GenreClickLandsOnSearch(h: HomePage, g: Genres.Genre, hero: Page<Anime>,
                                searchOutcome: Result<Page<Anime>>, listOutcome: Result<Page<Anime>>)
    requires hero.data.Some? && g.malId != 0
    ensures var r := OnLocation(h, Success(hero), Some(Genres.GenreClick(g)), searchOutcome, listOutcome);
            r.0.isSearching && r.0.searchQuery == g.name && !r.0.showingFavorites &&
            r.1.Some? && Lookup(r.1.value, "genres") == Some(IntToString(g.malId))
  {
    GenreQuery(g.malId);
  }
}
